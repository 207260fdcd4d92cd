/**
  What the generated code does when it runs. A value of the generated enum is a
  variant name with a payload; each generated function is a `match self` over its
  arm list, taking the first arm whose pattern matches; `From` and `IntoResponse`
  are the fixed templates over those functions. The lemmas show that every variant
  reaches its own arm in all four functions, whatever its payload, so the envelope
  and the response of a value are made of its variant's own attributes.
 */
module Runtime {
  import opened Wrappers
  import opened Syntax
  import opened Attributes
  import opened Expansion
  import opened Envelope

  /** One runtime field value of a variant; the generated accessors never look at it. */
  datatype Datum = Datum(text: string)

  datatype Payload = NoPayload | TuplePayload(items: seq<Datum>) | StructPayload(fields: seq<(Name, Datum)>)

  /** A value of the generated enum. */
  datatype ErrorValue = ErrorValue(variant: Name, payload: Payload)

  /** The payload is one that the variant's declared shape admits. */
  predicate Fits(f: Fields, p: Payload)
  {
    match (f, p)
    case (Unit, NoPayload) => true
    case (Unnamed(ts), TuplePayload(xs)) => |xs| == |ts|
    case (Named(fs), StructPayload(xs)) => |xs| == |fs| && forall k :: 0 <= k < |xs| ==> xs[k].0 == fs[k].0
    case _ => false
  }

  /** `v` is built with the constructor of variant `i` of the declaration. */
  predicate IsValueOf(vs: seq<Variant>, i: int, v: ErrorValue)
  {
    0 <= i < |vs| && v.variant == vs[i].name && Fits(vs[i].fields, v.payload)
  }

  /** Variant names are unique within an enum, as the host compiler demands. */
  predicate DistinctNames(vs: seq<Variant>)
  {
    forall i, j :: 0 <= i < j < |vs| ==> vs[i].name != vs[j].name
  }

  /** `E::V`, `E::V(..)` and `E::V{..}` match any payload of their kind. */
  predicate Matches(p: Pattern, v: ErrorValue)
  {
    p.variant == v.variant &&
    match p.kind
    case Bare => v.payload.NoPayload?
    case AnyTuple => v.payload.TuplePayload?
    case AnyStruct => v.payload.StructPayload?
  }

  /** `match self { arms }`: the body of the first arm whose pattern matches. */
  function Eval(arms: seq<Arm>, v: ErrorValue): (r: Option<TokenStream>)
    ensures r.Some? <==> exists i :: 0 <= i < |arms| && Matches(arms[i].pattern, v)
    decreases |arms|
  {
    if arms == [] then None
    else if Matches(arms[0].pattern, v) then Some(arms[0].body)
    else
      assert forall i :: 1 <= i < |arms| ==> arms[i] == arms[1..][i - 1];
      Eval(arms[1..], v)
  }

  lemma {:induction false} EvalFirstMatch(arms: seq<Arm>, i: nat, v: ErrorValue)
    requires i < |arms| && Matches(arms[i].pattern, v)
    requires forall j :: 0 <= j < i ==> !Matches(arms[j].pattern, v)
    ensures Eval(arms, v) == Some(arms[i].body)
    decreases i
  {
    if i > 0 {
      assert !Matches(arms[0].pattern, v);
      assert forall j :: 0 <= j < i - 1 ==> arms[1..][j] == arms[j + 1];
      EvalFirstMatch(arms[1..], i - 1, v);
    }
  }

  /** `Display::fmt`: the message template of the matching arm. */
  function Fmt(g: Generated, v: ErrorValue): Option<TokenStream>
  {
    Eval(g.fmtArms, v)
  }

  function ToStatusCode(g: Generated, v: ErrorValue): Option<TokenStream>
  {
    Eval(g.statusArms, v)
  }

  function ToErrorTag(g: Generated, v: ErrorValue): Option<TokenStream>
  {
    Eval(g.tagArms, v)
  }

  function ToErrorCode(g: Generated, v: ErrorValue): Option<TokenStream>
  {
    Eval(g.codeArms, v)
  }

  /** `impl From<E> for BaxeError`: status, tag, code, then the Display output as message. */
  function IntoBaxeError(g: Generated, v: ErrorValue): Option<BaxeError>
  {
    match (ToStatusCode(g, v), ToErrorTag(g, v), ToErrorCode(g, v), Fmt(g, v))
    case (Some(status), Some(tag), Some(code), Some(message)) => Some(BaxeError(status, message, code, tag))
    case _ => None
  }

  /** `impl IntoResponse for E`: the status paired with the serialised envelope. */
  function IntoResponse(g: Generated, v: ErrorValue): Option<Response>
  {
    match (ToStatusCode(g, v), IntoBaxeError(g, v))
    case (Some(status), Some(e)) => Some(Response(status, e.ToJson()))
    case _ => None
  }

  /** The response of a value is the response of its envelope. */
  lemma ResponseIsEnvelopeResponse(g: Generated, v: ErrorValue)
    ensures IntoResponse(g, v) == match IntoBaxeError(g, v) case None => None case Some(e) => Some(e.IntoResponse())
  {
  }

  /** In an arm list with one pattern per variant, a value of variant `i` takes arm `i`. */
  lemma OwnArmSelected(arms: seq<Arm>, enumName: Name, vs: seq<Variant>, i: nat, v: ErrorValue)
    requires |arms| == |vs| && forall j :: 0 <= j < |vs| ==> arms[j].pattern == PatternOf(enumName, vs[j])
    requires DistinctNames(vs) && IsValueOf(vs, i, v)
    ensures Eval(arms, v) == Some(arms[i].body)
  {
    forall j | 0 <= j < i
      ensures !Matches(arms[j].pattern, v)
    {
      assert arms[j].pattern.variant == vs[j].name;
    }
    EvalFirstMatch(arms, i, v);
  }

  /**
    For a value of variant `i`, each of the four generated functions takes the arm
    of variant `i`, and so yields variant `i`'s own extracted field.
   */
  lemma AccessorsSelectOwnVariant(input: DeriveInput, g: Generated, i: nat, v: ErrorValue)
    requires Expand(input) == Ok(g) && input.data.Enum?
    requires DistinctNames(input.data.variants) && IsValueOf(input.data.variants, i, v)
    ensures ParseAttrs(input.data.variants[i].attrs).Ok?
    ensures var a := ParseAttrs(input.data.variants[i].attrs).value;
      Fmt(g, v) == Some(a.message) && ToStatusCode(g, v) == Some(a.status) &&
      ToErrorTag(g, v) == Some(a.tag) && ToErrorCode(g, v) == Some(a.code)
  {
    var vs := input.data.variants;
    ExpandLayout(input, g);
    OwnArmSelected(g.fmtArms, input.name, vs, i, v);
    OwnArmSelected(g.statusArms, input.name, vs, i, v);
    OwnArmSelected(g.tagArms, input.name, vs, i, v);
    OwnArmSelected(g.codeArms, input.name, vs, i, v);
  }

  /**
    The envelope of a value of variant `i` carries variant `i`'s status, Display
    message, code and tag; its response pairs that status with the serialised envelope.
   */
  lemma ConversionsOfOwnVariant(input: DeriveInput, g: Generated, i: nat, v: ErrorValue)
    requires Expand(input) == Ok(g) && input.data.Enum?
    requires DistinctNames(input.data.variants) && IsValueOf(input.data.variants, i, v)
    ensures ParseAttrs(input.data.variants[i].attrs).Ok?
    ensures var a := ParseAttrs(input.data.variants[i].attrs).value;
      var e := BaxeError(a.status, a.message, a.code, a.tag);
      IntoBaxeError(g, v) == Some(e) && IntoResponse(g, v) == Some(Response(a.status, e.ToJson()))
  {
    AccessorsSelectOwnVariant(input, g, i, v);
  }

  /** No generated function reads the payload: two values of one variant give the same results. */
  lemma PayloadIrrelevant(input: DeriveInput, g: Generated, i: nat, v: ErrorValue, w: ErrorValue)
    requires Expand(input) == Ok(g) && input.data.Enum?
    requires DistinctNames(input.data.variants)
    requires IsValueOf(input.data.variants, i, v) && IsValueOf(input.data.variants, i, w)
    ensures Fmt(g, v) == Fmt(g, w) && IntoBaxeError(g, v) == IntoBaxeError(g, w) && IntoResponse(g, v) == IntoResponse(g, w)
  {
    ConversionsOfOwnVariant(input, g, i, v);
    ConversionsOfOwnVariant(input, g, i, w);
  }

  /**
    No cross-variant leakage: two declarations that agree on variant `i` give its values
    the same envelope and response, whatever their other variants carry.
   */
  lemma NoCrossVariantLeakage(in1: DeriveInput, g1: Generated, in2: DeriveInput, g2: Generated, i: nat, v: ErrorValue)
    requires Expand(in1) == Ok(g1) && in1.data.Enum? && DistinctNames(in1.data.variants)
    requires Expand(in2) == Ok(g2) && in2.data.Enum? && DistinctNames(in2.data.variants)
    requires i < |in1.data.variants| && i < |in2.data.variants|
    requires in1.data.variants[i] == in2.data.variants[i]
    requires IsValueOf(in1.data.variants, i, v)
    ensures IntoBaxeError(g1, v) == IntoBaxeError(g2, v) && IntoResponse(g1, v) == IntoResponse(g2, v)
  {
    ConversionsOfOwnVariant(in1, g1, i, v);
    ConversionsOfOwnVariant(in2, g2, i, v);
  }
}
