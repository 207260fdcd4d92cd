/**
  Stand-ins for the parts of the Rust syntax tree (the `syn` crate) that the
  derive macro looks at. Types, expressions and literals are opaque: the
  macro never looks inside them, it only moves them into generated code.
 */
module Syntax {

  type Name = string

  /** A path such as `baxe` or `serde::rename`, as its segments. */
  type Path = seq<Name>

  /** `path.is_ident(s)`: the path is the single identifier `s`. */
  predicate IsIdent(p: Path, s: Name)
  {
    p == [s]
  }

  /** A declared field type, passed through verbatim. */
  datatype Ty = Ty(text: string)

  /** A literal token: a string literal, or any other literal (`5`, `'c'`, `true`, ...). */
  datatype Lit = StrLit(s: string) | OtherLit(text: string)

  /** An expression: a literal, or any other (opaque) expression such as `StatusCode::NOT_FOUND`. */
  datatype Expr = LitExpr(lit: Lit) | NonLitExpr(text: string)

  /**
    What follows a key inside `#[baxe(...)]`: `= <literal>`, `= <other expression>`,
    or something `meta.value()` / `value.parse()` cannot read (no `=`, or tokens
    that are not an expression).
   */
  datatype MetaValue = Literal(lit: Lit) | Expression(text: string) | Malformed

  /** One `key = value` entry of an attribute's argument list. */
  datatype MetaEntry = MetaEntry(key: Path, value: MetaValue)

  /** The arguments of an attribute: a parenthesised list, or any other form (`#[a]`, `#[a = x]`). */
  datatype AttrArgs = ArgList(entries: seq<MetaEntry>) | NotList

  datatype Attribute = Attribute(path: Path, args: AttrArgs)

  /** The data a variant carries: none, positional types, or named fields. */
  datatype Fields = Unit | Unnamed(types: seq<Ty>) | Named(named: seq<(Name, Ty)>)

  datatype Variant = Variant(attrs: seq<Attribute>, name: Name, fields: Fields)

  /** The body of the item the macro is applied to. */
  datatype Data = Enum(variants: seq<Variant>) | Struct | Union

  datatype DeriveInput = DeriveInput(name: Name, data: Data)

  /** A token placed into generated code: an expression, or a string literal. */
  datatype Token = ExprToken(expr: Expr) | StrToken(s: string)

  type TokenStream = seq<Token>
}
