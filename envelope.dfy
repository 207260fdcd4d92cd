/**
  The fixed envelope the generated code converts into: `BaxeError` with its four
  fields, its serialised (JSON) form, which leaves the status out, and its own
  conversion into a response. Field values are the expressions the generated
  code evaluates, kept as tokens.
 */
module Envelope {
  import opened Syntax

  /** A serialised envelope: `message`, `code` and `error_tag`, and no status field. */
  datatype Json = Json(message: TokenStream, code: TokenStream, errorTag: TokenStream)

  /** A transport response: a status paired with a JSON body. */
  datatype Response = Response(status: TokenStream, body: Json)

  datatype BaxeError = BaxeError(statusCode: TokenStream, message: TokenStream, code: TokenStream, errorTag: TokenStream)
  {
    /** Serialisation skips `status_code`. */
    function ToJson(): Json
    {
      Json(message, code, errorTag)
    }

    /** `(self.status_code, Json(self)).into_response()`. */
    function IntoResponse(): Response
    {
      Response(statusCode, ToJson())
    }
  }

  /** Two envelopes serialise alike exactly when they differ at most in their status. */
  lemma SerializationOmitsStatus(e1: BaxeError, e2: BaxeError)
    ensures e1.ToJson() == e2.ToJson() <==> e1.(statusCode := e2.statusCode) == e2
  {
  }
}
