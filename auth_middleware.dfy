// The bearer-token guard of server/middleware/auth.js (and, with its own
// messages, `adminAuth` in server/routes/admin.js). Signature checking and
// the database lookup are outside the model: `verify` stands for
// `jwt.verify` (None when it throws, else the token's claims) and `lookup`
// for `findById`.

module AuthMiddleware {
  import opened Wrappers
  import opened Seqs
  import opened Text

  const BearerPrefix := "Bearer "

  /** The payload of a signed token: users get `{ userId }`, admins `{ adminId }`. */
  datatype Claims = Claims(userId: Option<Id>, adminId: Option<Id>)

  /** `findById(undefined)` finds nothing. */
  function Find<U>(lookup: Id -> Option<U>, id: Option<Id>): (r: Option<U>)
    ensures id.None? ==> r.None?
    ensures id.Some? ==> r == lookup(id.value)
  {
    match id
    case None => None
    case Some(k) => lookup(k)
  }

  /** `req.header('Authorization')?.replace('Bearer ', '')`: the first occurrence is cut out. */
  function ExtractToken(header: Option<string>): (token: Option<string>)
    ensures header.None? <==> token.None?
    ensures header.Some? ==> token.value == RemoveFirst(header.value, BearerPrefix)
  {
    match header
    case None => None
    case Some(h) => Some(RemoveFirst(h, BearerPrefix))
  }

  /** A header written as the client writes it gives back exactly the token. */
  lemma ExtractBearer(token: string)
    ensures ExtractToken(Some(BearerPrefix + token)) == Some(token)
  {
    RemoveFirstPrefix(BearerPrefix, token);
  }

  /** `!token`: no header, or nothing left once the prefix is removed. */
  predicate Missing(token: Option<string>) {
    token.None? || token.value == ""
  }

  /** What the guard does with the request. */
  datatype Verdict<U> =
    /** `req.user = user; req.token = token; next()` */
    | Admit(user: U, token: string)
    | Deny(status: int, error: string, details: string)

  /** auth.js:5-43: no token, then a bad token, then an unknown user, each a 401; else admit. */
  function Authenticate<U>(header: Option<string>, verify: string -> Option<Claims>, lookup: Id -> Option<U>): (v: Verdict<U>)
    ensures v.Deny? ==> v.status == 401
  {
    var token := ExtractToken(header);
    if Missing(token) then Deny(401, "Authentication required", "No token provided")
    else match verify(token.value)
      case None => Deny(401, "Authentication failed", "Invalid token")
      case Some(claims) =>
        match Find(lookup, claims.userId)
        case None => Deny(401, "Authentication failed", "User not found")
        case Some(user) => Admit(user, token.value)
  }

  /**
   * The guard's order: each check runs only when the earlier ones pass, and
   * the request is admitted exactly when all pass, carrying the user the
   * token names and the token itself.
   */
  lemma AuthenticateOrder<U>(header: Option<string>, verify: string -> Option<Claims>, lookup: Id -> Option<U>)
    ensures var v := Authenticate(header, verify, lookup);
      var token := ExtractToken(header);
      && (Missing(token) ==> v == Deny(401, "Authentication required", "No token provided"))
      && (!Missing(token) && verify(token.value).None? ==> v == Deny(401, "Authentication failed", "Invalid token"))
      && (!Missing(token) && verify(token.value).Some? && Find(lookup, verify(token.value).value.userId).None?
          ==> v == Deny(401, "Authentication failed", "User not found"))
      && (v.Admit? <==> !Missing(token) && verify(token.value).Some? && Find(lookup, verify(token.value).value.userId).Some?)
      && (v.Admit? ==> v.token == token.value && Some(v.user) == Find(lookup, verify(token.value).value.userId))
  {
  }

  /** A well-formed bearer header for a live user is admitted with that user. */
  lemma BearerAdmitted<U>(token: string, verify: string -> Option<Claims>, lookup: Id -> Option<U>, id: Id, user: U)
    requires token != "" && verify(token).Some? && verify(token).value.userId == Some(id) && lookup(id) == Some(user)
    ensures Authenticate(Some(BearerPrefix + token), verify, lookup) == Admit(user, token)
  {
    ExtractBearer(token);
  }

  /** An admin token carries no `userId`, so it never passes the user guard. */
  lemma AdminTokenDenied<U>(header: Option<string>, verify: string -> Option<Claims>, lookup: Id -> Option<U>)
    requires var t := ExtractToken(header); !Missing(t) && verify(t.value).Some? && verify(t.value).value.userId.None?
    ensures Authenticate(header, verify, lookup) == Deny(401, "Authentication failed", "User not found")
  {
  }
}
