/**
  `variants_def`: each input variant is redeclared in the generated enum with
  its own shape: `V`, `V(T1, T2)` or `V { a: T1, b: T2 }`. The attributes of the
  variant are not carried over. `ParseVariantDef` reads a redeclaration back,
  and `ParseVariantDefRoundTrip` shows that it recovers the name and the shape.
 */
module Redeclare {
  import opened Wrappers
  import opened Syntax

  /** The tokens a redeclared variant is made of. */
  datatype DefToken = Ident(name: Name) | TypeTok(ty: Ty) | Colon | Comma | LParen | RParen | LBrace | RBrace

  /** `#(#types),*`: the types separated by commas, with no trailing comma. */
  function TypeList(ts: seq<Ty>): seq<DefToken>
    decreases |ts|
  {
    if |ts| == 0 then []
    else if |ts| == 1 then [TypeTok(ts[0])]
    else [TypeTok(ts[0]), Comma] + TypeList(ts[1..])
  }

  /** `#(#name: #ty),*`. */
  function FieldList(fs: seq<(Name, Ty)>): seq<DefToken>
    decreases |fs|
  {
    if |fs| == 0 then []
    else if |fs| == 1 then [Ident(fs[0].0), Colon, TypeTok(fs[0].1)]
    else [Ident(fs[0].0), Colon, TypeTok(fs[0].1), Comma] + FieldList(fs[1..])
  }

  /** The redeclaration of one variant. */
  function VariantDef(v: Variant): seq<DefToken>
  {
    match v.fields
    case Unit => [Ident(v.name)]
    case Unnamed(ts) => [Ident(v.name), LParen] + TypeList(ts) + [RParen]
    case Named(fs) => [Ident(v.name), LBrace] + FieldList(fs) + [RBrace]
  }

  /** Reads a non-empty comma-separated list of types. */
  function ParseTypes1(toks: seq<DefToken>): Option<seq<Ty>>
    decreases |toks|
  {
    if |toks| == 0 || !toks[0].TypeTok? then None
    else if |toks| == 1 then Some([toks[0].ty])
    else if |toks| >= 3 && toks[1] == Comma then
      match ParseTypes1(toks[2..])
      case None => None
      case Some(rest) => Some([toks[0].ty] + rest)
    else None
  }

  function ParseTypes(toks: seq<DefToken>): Option<seq<Ty>>
  {
    if toks == [] then Some([]) else ParseTypes1(toks)
  }

  /** Reads a non-empty comma-separated list of `name: type` fields. */
  function ParseFields1(toks: seq<DefToken>): Option<seq<(Name, Ty)>>
    decreases |toks|
  {
    if |toks| < 3 || !toks[0].Ident? || toks[1] != Colon || !toks[2].TypeTok? then None
    else if |toks| == 3 then Some([(toks[0].name, toks[2].ty)])
    else if |toks| >= 5 && toks[3] == Comma then
      match ParseFields1(toks[4..])
      case None => None
      case Some(rest) => Some([(toks[0].name, toks[2].ty)] + rest)
    else None
  }

  function ParseFields(toks: seq<DefToken>): Option<seq<(Name, Ty)>>
  {
    if toks == [] then Some([]) else ParseFields1(toks)
  }

  /** Reads a redeclared variant back into its name and shape. */
  function ParseVariantDef(toks: seq<DefToken>): Option<(Name, Fields)>
  {
    if |toks| == 0 || !toks[0].Ident? then None
    else if |toks| == 1 then Some((toks[0].name, Unit))
    else if |toks| >= 3 && toks[1] == LParen && toks[|toks| - 1] == RParen then
      match ParseTypes(toks[2..|toks| - 1])
      case None => None
      case Some(ts) => Some((toks[0].name, Unnamed(ts)))
    else if |toks| >= 3 && toks[1] == LBrace && toks[|toks| - 1] == RBrace then
      match ParseFields(toks[2..|toks| - 1])
      case None => None
      case Some(fs) => Some((toks[0].name, Named(fs)))
    else None
  }

  lemma {:induction false} TypeListRoundTrip(ts: seq<Ty>)
    ensures ParseTypes(TypeList(ts)) == Some(ts)
    decreases |ts|
  {
    if |ts| >= 2 {
      var toks := TypeList(ts);
      TypeListRoundTrip(ts[1..]);
      assert toks[2..] == TypeList(ts[1..]);
      assert [ts[0]] + ts[1..] == ts;
    } else if |ts| == 1 {
      assert [ts[0]] == ts;
    }
  }

  lemma {:induction false} FieldListRoundTrip(fs: seq<(Name, Ty)>)
    ensures ParseFields(FieldList(fs)) == Some(fs)
    decreases |fs|
  {
    if |fs| >= 2 {
      var toks := FieldList(fs);
      FieldListRoundTrip(fs[1..]);
      assert toks[4..] == FieldList(fs[1..]);
      assert [fs[0]] + fs[1..] == fs;
    } else if |fs| == 1 {
      assert [(fs[0].0, fs[0].1)] == fs;
    }
  }

  /** A redeclaration keeps the variant's name and its shape: field types, and field names, in order. */
  lemma ParseVariantDefRoundTrip(v: Variant)
    ensures ParseVariantDef(VariantDef(v)) == Some((v.name, v.fields))
  {
    var toks := VariantDef(v);
    match v.fields
    case Unit =>
    case Unnamed(ts) =>
      assert toks[2..|toks| - 1] == TypeList(ts);
      TypeListRoundTrip(ts);
    case Named(fs) =>
      assert toks[2..|toks| - 1] == FieldList(fs);
      FieldListRoundTrip(fs);
  }
}
