/**
  The body of the `error` attribute macro: reject anything but an enum, redeclare
  the variants, compute one match pattern and the extracted attributes per variant,
  split them into five parallel lists, and emit one arm per variant into each of the
  four generated functions (`fmt`, `to_status_code`, `to_error_tag`, `to_error_code`).
 */
module Expansion {
  import opened Wrappers
  import opened Syntax
  import opened Attributes
  import opened Unzip
  import opened Redeclare

  /** `E::V`, `E::V(..)` or `E::V{..}`: a pattern binds no part of the payload. */
  datatype PatternKind = Bare | AnyTuple | AnyStruct

  datatype Pattern = Pattern(enumName: Name, variant: Name, kind: PatternKind)

  /** One `pattern => body` match arm. */
  datatype Arm = Arm(pattern: Pattern, body: TokenStream)

  /** One variant's pattern and its four rendered fields: status, tag, code, message. */
  type Row = (Pattern, TokenStream, TokenStream, TokenStream, TokenStream)

  /**
    The generated unit: the redeclared enum and the arms of the four generated
    functions. The `From` and `IntoResponse` impls are fixed templates over the
    accessors; their meaning is in the module `Runtime`.
   */
  datatype Generated = Generated(
    name: Name,
    variantsDef: seq<seq<DefToken>>,
    fmtArms: seq<Arm>,
    statusArms: seq<Arm>,
    tagArms: seq<Arm>,
    codeArms: seq<Arm>)

  /** Why expansion aborts: the item is not an enum, or a variant's attributes do not parse. */
  datatype ExpandError = NotAnEnum | BadAttributes(variant: Name)

  function KindOf(f: Fields): PatternKind
  {
    match f
    case Unit => Bare
    case Unnamed(_) => AnyTuple
    case Named(_) => AnyStruct
  }

  function PatternOf(enumName: Name, v: Variant): Pattern
  {
    Pattern(enumName, v.name, KindOf(v.fields))
  }

  /** A pattern depends only on the variant's name and the kind of its shape. */
  lemma PatternIgnoresPayloadTypes(enumName: Name, v: Variant, w: Variant)
    requires v.name == w.name
    ensures PatternOf(enumName, v) == PatternOf(enumName, w) <==> KindOf(v.fields) == KindOf(w.fields)
  {
  }

  function VariantsDef(vs: seq<Variant>): seq<seq<DefToken>>
  {
    seq(|vs|, i requires 0 <= i < |vs| => VariantDef(vs[i]))
  }

  function RowOf(enumName: Name, v: Variant, a: BaxeAttributes): Row
  {
    (PatternOf(enumName, v), a.status, a.tag, a.code, a.message)
  }

  /**
    The `matches` list: the variants mapped left to right, each through the attribute
    extractor; the first variant whose attributes do not parse aborts the expansion.
   */
  function Rows(enumName: Name, vs: seq<Variant>): (r: Result<seq<Row>, Name>)
    ensures r.Ok? <==> forall i :: 0 <= i < |vs| ==> ParseAttrs(vs[i].attrs).Ok?
    ensures r.Ok? ==> |r.value| == |vs|
    ensures r.Ok? ==>
      forall i :: 0 <= i < |vs| ==> r.value[i] == RowOf(enumName, vs[i], ParseAttrs(vs[i].attrs).value)
    ensures r.Err? ==>
      exists i :: (0 <= i < |vs| && vs[i].name == r.error && ParseAttrs(vs[i].attrs).Err? &&
                   forall j :: 0 <= j < i ==> ParseAttrs(vs[j].attrs).Ok?)
    decreases |vs|
  {
    if vs == [] then Ok([])
    else
      match ParseAttrs(vs[0].attrs)
      case Err(_) => Err(vs[0].name)
      case Ok(a) =>
        match Rows(enumName, vs[1..])
        case Err(n) =>
          ghost var k :| 0 <= k < |vs[1..]| && vs[1..][k].name == n && ParseAttrs(vs[1..][k].attrs).Err? &&
            forall j :: 0 <= j < k ==> ParseAttrs(vs[1..][j].attrs).Ok?;
          assert vs[k + 1] == vs[1..][k];
          assert forall j :: 1 <= j < k + 1 ==> vs[j] == vs[1..][j - 1];
          Err(n)
        case Ok(rest) =>
          assert forall i :: 1 <= i < |vs| ==> vs[i] == vs[1..][i - 1];
          Ok([RowOf(enumName, vs[0], a)] + rest)
  }

  /** `#(#patterns => #bodies,)*`: patterns and bodies paired position by position. */
  function Arms(ps: seq<Pattern>, bodies: seq<TokenStream>): seq<Arm>
    requires |ps| == |bodies|
  {
    seq(|ps|, i requires 0 <= i < |ps| => Arm(ps[i], bodies[i]))
  }

  /** The attribute macro `error`. */
  function Expand(input: DeriveInput): (r: Result<Generated, ExpandError>)
    ensures r == Err(NotAnEnum) <==> !input.data.Enum?
    ensures r.Ok? ==> var n := |input.data.variants|;
      |r.value.variantsDef| == n && |r.value.fmtArms| == n && |r.value.statusArms| == n &&
      |r.value.tagArms| == n && |r.value.codeArms| == n
  {
    match input.data
    case Struct => Err(NotAnEnum)
    case Union => Err(NotAnEnum)
    case Enum(vs) =>
      var variantsDef := VariantsDef(vs);
      match Rows(input.name, vs)
      case Err(n) => Err(BadAttributes(n))
      case Ok(rows) =>
        var (patterns, statuses, tags, codes, messages) := Unzip5(rows);
        Ok(Generated(input.name, variantsDef,
          Arms(patterns, messages), Arms(patterns, statuses), Arms(patterns, tags), Arms(patterns, codes)))
  }

  /**
    Expansion aborts with a shape error exactly for a struct or a union; an enum
    aborts exactly when some variant's attributes do not parse, naming the first
    such variant.
   */
  lemma ExpandOutcome(input: DeriveInput)
    ensures Expand(input) == Err(NotAnEnum) <==> !input.data.Enum?
    ensures input.data.Enum? ==>
      (Expand(input).Ok? <==> forall i :: 0 <= i < |input.data.variants| ==> ParseAttrs(input.data.variants[i].attrs).Ok?)
    ensures input.data.Enum? && Expand(input).Err? ==>
      var vs := input.data.variants;
      exists i :: 0 <= i < |vs| && Expand(input) == Err(BadAttributes(vs[i].name)) &&
        ParseAttrs(vs[i].attrs).Err? && forall j :: 0 <= j < i ==> ParseAttrs(vs[j].attrs).Ok?
  {
  }

  /**
    A successful expansion has exactly one redeclaration and one arm per function for
    each input variant, in declaration order; redeclaration `i` has variant `i`'s name
    and shape, and arm `i` pairs pattern `i` with variant `i`'s own extracted field.
   */
  lemma ExpandLayout(input: DeriveInput, g: Generated)
    requires Expand(input) == Ok(g)
    ensures input.data.Enum? && g.name == input.name
    ensures var n := |input.data.variants|;
      |g.variantsDef| == n && |g.fmtArms| == n && |g.statusArms| == n && |g.tagArms| == n && |g.codeArms| == n
    ensures var vs := input.data.variants;
      forall i :: 0 <= i < |vs| ==>
        ParseAttrs(vs[i].attrs).Ok? &&
        ParseVariantDef(g.variantsDef[i]) == Some((vs[i].name, vs[i].fields)) &&
        var p, a := PatternOf(input.name, vs[i]), ParseAttrs(vs[i].attrs).value;
        g.fmtArms[i] == Arm(p, a.message) && g.statusArms[i] == Arm(p, a.status) &&
        g.tagArms[i] == Arm(p, a.tag) && g.codeArms[i] == Arm(p, a.code)
  {
    var vs := input.data.variants;
    forall i | 0 <= i < |vs|
      ensures ParseVariantDef(g.variantsDef[i]) == Some((vs[i].name, vs[i].fields))
    {
      ParseVariantDefRoundTrip(vs[i]);
    }
  }
}
