// The two fallbacks at the end of server/server.js: the 404 answer for an
// unmatched route and the error handler that classifies what a route threw.
// The error is described by the fields the handler reads; the clock's ISO
// string is a parameter.

module ServerErrors {
  import opened Wrappers

  /**
   * What the handler looks at: `err.name`, `err.code`, `err.message`, the
   * messages of `err.errors` in order, and the keys of `err.keyValue` in order.
   */
  datatype ThrownError = ThrownError(name: string, code: Option<int>, message: string,
                                     fieldMessages: seq<string>, duplicateKeys: seq<string>)

  datatype Details =
    | Messages(list: seq<string>)
    | Note(text: string)
    /** The 500 body: the message and where and when it happened. */
    | Context(message: string, path: string, verb: string, timestamp: string)

  datatype ErrorReply = ErrorReply(status: int, error: string, details: Details)

  /** server.js:97-103. */
  function NotFound(originalUrl: string): (r: ErrorReply)
    ensures r.status == 404 && r.error == "Not Found"
    ensures var prefix := "The requested resource ";
      r.details.Note? && |r.details.text| == |prefix| + |originalUrl| + |" was not found"|
      && r.details.text[..|prefix|] == prefix
      && r.details.text[|prefix|..|prefix| + |originalUrl|] == originalUrl
  {
    ErrorReply(404, "Not Found", Note("The requested resource " + originalUrl + " was not found"))
  }

  /** `${Object.keys(err.keyValue)[0]} already exists`, which reads "undefined" when there is no key. */
  function DuplicateNote(keys: seq<string>): string {
    (if |keys| == 0 then "undefined" else keys[0]) + " already exists"
  }

  /** server.js:106-146: the first matching rule answers. */
  function HandleError(err: ThrownError, path: string, verb: string, now: string): ErrorReply {
    if err.name == "ValidationError" then ErrorReply(400, "Validation Error", Messages(err.fieldMessages))
    else if err.code == Some(11000) then ErrorReply(400, "Duplicate Entry", Note(DuplicateNote(err.duplicateKeys)))
    else if err.name == "JsonWebTokenError" then ErrorReply(401, "Authentication Error", Note("Invalid token"))
    else ErrorReply(500, "Internal Server Error", Context(err.message, path, verb, now))
  }

  predicate Recognised(err: ThrownError) {
    err.name == "ValidationError" || err.code == Some(11000) || err.name == "JsonWebTokenError"
  }

  /**
   * The rules in order: a validation error is reported with every field
   * message even when it also carries a duplicate-key code; a duplicate key
   * names the first key; a bad token is a 401; and exactly the errors no rule
   * recognises become a 500 that carries the error's message and the request.
   */
  lemma HandleErrorOrder(err: ThrownError, path: string, verb: string, now: string)
    ensures var r := HandleError(err, path, verb, now);
      && (r.status == 400 || r.status == 401 || r.status == 500)
      && (err.name == "ValidationError" ==> r == ErrorReply(400, "Validation Error", Messages(err.fieldMessages)))
      && (err.name != "ValidationError" && err.code == Some(11000) ==>
            r.status == 400 && r.error == "Duplicate Entry"
            && (|err.duplicateKeys| > 0 ==> r.details == Note(err.duplicateKeys[0] + " already exists")))
      && (r.status == 401 <==> err.name == "JsonWebTokenError" && err.code != Some(11000))
      && (r.status == 500 <==> !Recognised(err))
      && (r.status == 500 ==> r.details == Context(err.message, path, verb, now))
  {
  }

  /** Only the 500 answer depends on the request: the recognised errors answer the same on every route. */
  lemma RecognisedIgnoresRequest(err: ThrownError, path: string, verb: string, now: string,
                                 path2: string, verb2: string, now2: string)
    requires Recognised(err)
    ensures HandleError(err, path, verb, now) == HandleError(err, path2, verb2, now2)
  {
  }
}
