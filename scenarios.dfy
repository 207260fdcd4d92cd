/** What the model yields for concrete declarations: one envelope, and the three ways a tag or an item can go wrong. */
module Scenarios {
  import opened Wrappers
  import opened Syntax
  import opened Attributes
  import opened Expansion
  import opened Envelope
  import opened Runtime

  function Entry(key: Name, value: MetaValue): MetaEntry
  {
    MetaEntry([key], value)
  }

  function Baxe(entries: seq<MetaEntry>): Attribute
  {
    Attribute(["baxe"], ArgList(entries))
  }

  /** `#[baxe(status = StatusCode::BAD_REQUEST, tag = "bad_request", code = 1001, message = "Invalid input")] BadRequest` */
  function BadRequest(): Variant
  {
    Variant([Baxe([
      Entry("status", Expression("StatusCode::BAD_REQUEST")),
      Entry("tag", Literal(StrLit("bad_request"))),
      Entry("code", Literal(OtherLit("1001"))),
      Entry("message", Literal(StrLit("Invalid input")))])], "BadRequest", Unit)
  }

  lemma BadRequestEnvelope()
    ensures var r := Expand(DeriveInput("ApiError", Enum([BadRequest()])));
      var status := [ExprToken(NonLitExpr("StatusCode::BAD_REQUEST"))];
      var e := BaxeError(status, [StrToken("Invalid input")], [ExprToken(LitExpr(OtherLit("1001")))], [StrToken("bad_request")]);
      r.Ok? &&
      IntoBaxeError(r.value, ErrorValue("BadRequest", NoPayload)) == Some(e) &&
      IntoResponse(r.value, ErrorValue("BadRequest", NoPayload)) == Some(Response(status, Json(e.message, e.code, e.errorTag)))
  {
    var input := DeriveInput("ApiError", Enum([BadRequest()]));
    assert ParseAttrs(BadRequest().attrs).Ok?;
    ConversionsOfOwnVariant(input, Expand(input).value, 0, ErrorValue("BadRequest", NoPayload));
  }

  /** `tag = 5` is not rejected: the tag stays unset and its arm has an empty body. */
  lemma NonStringTagLeavesTagUnset()
    ensures var v := Variant([Baxe([Entry("tag", Literal(OtherLit("5")))])], "Odd", Unit);
      var r := Expand(DeriveInput("ApiError", Enum([v])));
      r.Ok? && r.value.tagArms == [Arm(Pattern("ApiError", "Odd", Bare), [])]
  {
    var v := Variant([Baxe([Entry("tag", Literal(OtherLit("5")))])], "Odd", Unit);
    assert ParseAttrs(v.attrs) == Ok(BaxeAttributes([], [], [], []));
    ExpandLayout(DeriveInput("ApiError", Enum([v])), Expand(DeriveInput("ApiError", Enum([v]))).value);
  }

  /** `tag = some_constant` is not a literal: expansion aborts and names the variant. */
  lemma NonLiteralTagAborts()
    ensures var v := Variant([Baxe([Entry("tag", Expression("some_constant"))])], "Odd", Unnamed([Ty("u32")]));
      Expand(DeriveInput("ApiError", Enum([v]))) == Err(BadAttributes("Odd"))
  {
    var v := Variant([Baxe([Entry("tag", Expression("some_constant"))])], "Odd", Unnamed([Ty("u32")]));
    assert ParseAttrs(v.attrs).Err?;
  }

  lemma StructAborts()
    ensures Expand(DeriveInput("ApiError", Struct)) == Err(NotAnEnum)
  {
  }
}
