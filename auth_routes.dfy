// The decisions of server/routes/auth.js: `/register` (behind the
// register-time blocklist check) and `/login`. The users collection is a
// sequence of stored profiles; `hash` stands for the bcrypt pre-save hook,
// `matches` for `comparePassword` and `sign` for `jwt.sign`.

module AuthRoutes {
  import opened Wrappers
  import opened Seqs
  import opened Text
  import opened UserSchema
  import opened Blocklist

  datatype Body =
    | Failure(error: string)
    /** A save that failed validation; the route sends the ValidationError's message, which lists these. */
    | Invalid(messages: seq<string>)
    | Blocked(error: string, message: string)
    /** 'User already exists' with the field that collided. */
    | Taken(field: string)
    | Session(token: string, id: Id, username: string, email: string)

  datatype Reply = Reply(status: int, body: Body)

  function UsernameOf(p: Profile): string { p.username }
  function EmailOf(p: Profile): string { p.email }
  function ProfileKey(p: Profile): Id { p.id }

  /** A profile as `save` leaves it (User.js:93-118). */
  predicate StoredProfile(p: Profile) {
    |p.username| >= 3 && Trimmed(p.username) && IsEmail(p.email) && Lower(p.email) == p.email
  }

  /** The users collection: valid profiles under unique ids, usernames and emails (the `unique` indexes). */
  ghost predicate ValidUsers(users: seq<Profile>) {
    UniqueKeys(users, ProfileKey) && UniqueKeys(users, UsernameOf) && UniqueKeys(users, EmailOf)
    && forall i :: 0 <= i < |users| ==> StoredProfile(users[i])
  }

  /** The body of a `/register` request; an absent field is "". */
  datatype RegisterRequest = RegisterRequest(username: string, email: string, password: string, probe: Registration)

  /** auth.js:49: `User.findOne({ $or: [{ username }, { email }] })`, the query values cast by the schema. */
  function Existing(users: seq<Profile>, username: string, email: string): (r: Option<nat>)
    ensures r.Some? ==> (r.value < |users|
      && (users[r.value].username == CastUsername(username) || users[r.value].email == CastEmail(email)))
    ensures r.None? ==> forall i :: 0 <= i < |users| ==>
      users[i].username != CastUsername(username) && users[i].email != CastEmail(email)
  {
    IndexWhere(users, (p: Profile) => p.username == CastUsername(username) || p.email == CastEmail(email))
  }

  /** The stored user `save` writes for a request that passed every check. */
  function NewProfile(req: RegisterRequest, newId: Id, hash: string -> string): Profile {
    Profile(newId, CastUsername(req.username), CastEmail(req.email), hash(req.password))
  }

  datatype Registered = Registered(reply: Reply, users: seq<Profile>)

  /** auth.js:41-77 behind auth.js:11-39. */
  function Register(blocked: seq<BlockRecord>, users: seq<Profile>, req: RegisterRequest, newId: Id,
                    hash: string -> string, sign: Id -> string): Registered
  {
    match CheckRegistration(blocked, req.probe)
    case Refuse(status, error, message) => Registered(Reply(status, Blocked(error, message)), users)
    case Next =>
      if req.username == "" || req.email == "" || req.password == "" then
        Registered(Reply(400, Failure("All fields are required")), users)
      else match Existing(users, req.username, req.email)
        case Some(i) =>
          Registered(Reply(400, Taken(if users[i].username == req.username then "username" else "email")), users)
        case None =>
          var errors := ProfileErrors(req.username, req.email, req.password);
          if errors != [] then Registered(Reply(400, Invalid(errors)), users)
          else
            var p := NewProfile(req, newId, hash);
            Registered(Reply(201, Session(sign(newId), newId, p.username, p.email)), users + [p])
  }

  /**
   * The blocklist decides first, then the missing fields, then an existing
   * user, then the schema; only a request that passes all four creates a
   * user, appended at the end, and nothing else is ever written.
   */
  lemma RegisterOrder(blocked: seq<BlockRecord>, users: seq<Profile>, req: RegisterRequest, newId: Id,
                      hash: string -> string, sign: Id -> string)
    ensures var o := Register(blocked, users, req, newId, hash, sign);
      var missing := req.username == "" || req.email == "" || req.password == "";
      var clash := exists i :: (0 <= i < |users|
        && (users[i].username == CastUsername(req.username) || users[i].email == CastEmail(req.email)));
      && (o.reply.status == 201 || o.reply.status == 400 || o.reply.status == 403)
      && (o.reply.status == 403 <==> RegisterBlocked(blocked, req.probe))
      && (o.reply.status != 201 ==> o.users == users)
      && (!RegisterBlocked(blocked, req.probe) && missing ==> o.reply == Reply(400, Failure("All fields are required")))
      && (!RegisterBlocked(blocked, req.probe) && !missing && clash ==> o.reply.status == 400 && o.reply.body.Taken?)
      && (o.reply.status == 201 <==>
            !RegisterBlocked(blocked, req.probe) && !missing && !clash
            && |Trim(req.username)| >= 3 && IsEmail(Trim(req.email)) && |req.password| >= 6)
      && (o.reply.status == 201 ==> o.users == users + [NewProfile(req, newId, hash)])
  {
  }

  /** The field reported on a collision is 'username' exactly when the found user has the username as sent. */
  lemma RegisterTakenField(blocked: seq<BlockRecord>, users: seq<Profile>, req: RegisterRequest, newId: Id,
                           hash: string -> string, sign: Id -> string)
    requires Register(blocked, users, req, newId, hash, sign).reply.body.Taken?
    ensures var i := Existing(users, req.username, req.email).value;
      Register(blocked, users, req, newId, hash, sign).reply.body.field
        == if users[i].username == req.username then "username" else "email"
  {
  }

  lemma NewProfileStored(req: RegisterRequest, newId: Id, hash: string -> string)
    requires |Trim(req.username)| >= 3 && IsEmail(Trim(req.email))
    ensures StoredProfile(NewProfile(req, newId, hash))
  {
    EmailLower(Trim(req.email));
    LowerIdempotent(Trim(req.email));
  }

  /** Appending a stored profile whose id, username and email are all new keeps the collection valid. */
  lemma AddProfileValid(users: seq<Profile>, p: Profile)
    requires ValidUsers(users) && StoredProfile(p)
    requires forall i :: 0 <= i < |users| ==> users[i].id != p.id && users[i].username != p.username && users[i].email != p.email
    ensures ValidUsers(users + [p])
  {
    UniqueKeysSnocFresh(users, ProfileKey, p);
    UniqueKeysSnocFresh(users, UsernameOf, p);
    UniqueKeysSnocFresh(users, EmailOf, p);
    var r := users + [p];
    assert forall i :: 0 <= i < |r| ==> StoredProfile(r[i]) by {
      assert forall i :: 0 <= i < |users| ==> r[i] == users[i];
    }
  }

  /** Registering keeps the collection valid: the new user's id is fresh and its username and email are new. */
  lemma RegisterKeepsValid(blocked: seq<BlockRecord>, users: seq<Profile>, req: RegisterRequest, newId: Id,
                           hash: string -> string, sign: Id -> string)
    requires ValidUsers(users) && forall i :: 0 <= i < |users| ==> users[i].id != newId
    ensures ValidUsers(Register(blocked, users, req, newId, hash, sign).users)
  {
    var o := Register(blocked, users, req, newId, hash, sign);
    assert (o.reply.status != 201 ==> o.users == users)
      && (o.reply.status == 201 ==>
            |Trim(req.username)| >= 3 && IsEmail(Trim(req.email))
            && Existing(users, req.username, req.email).None? && o.users == users + [NewProfile(req, newId, hash)]) by {
      RegisterOrder(blocked, users, req, newId, hash, sign);
    }
    if o.reply.status == 201 {
      NewProfileStored(req, newId, hash);
      AddProfileValid(users, NewProfile(req, newId, hash));
    }
  }

  // ---------------------------------------------------------------------------
  // /login (auth.js:79-120)
  // ---------------------------------------------------------------------------

  /** auth.js:82: `User.findOne({ username })`, the username trimmed by the schema cast. */
  function FindByUsername(users: seq<Profile>, username: string): (r: Option<nat>)
    ensures r.Some? ==> r.value < |users| && users[r.value].username == CastUsername(username)
    ensures r.None? ==> forall i :: 0 <= i < |users| ==> users[i].username != CastUsername(username)
  {
    IndexWhere(users, (p: Profile) => p.username == CastUsername(username))
  }

  /** auth.js:89: `BlockedUser.findOne({ email: user.email })`. */
  predicate EmailBlocked(blocked: seq<BlockRecord>, email: string) {
    exists i :: 0 <= i < |blocked| && blocked[i].email == email
  }

  function Login(users: seq<Profile>, blocked: seq<BlockRecord>, username: string, password: string,
                 matches: (string, string) -> bool, sign: Id -> string): Reply
  {
    match FindByUsername(users, username)
    case None => Reply(401, Failure("Invalid credentials"))
    case Some(i) =>
      var u := users[i];
      if EmailBlocked(blocked, u.email) then
        Reply(403, Blocked("Account blocked", "This account has been blocked by an administrator"))
      else if !matches(password, u.passwordHash) then Reply(401, Failure("Invalid credentials"))
      else Reply(200, Session(sign(u.id), u.id, u.username, u.email))
  }

  /**
   * Unknown user, then a blocked email (before the password is looked at),
   * then a wrong password; a session is issued only for the user found,
   * unblocked, with a matching password.
   */
  lemma LoginOrder(users: seq<Profile>, blocked: seq<BlockRecord>, username: string, password: string,
                   matches: (string, string) -> bool, sign: Id -> string)
    ensures var r := Login(users, blocked, username, password, matches, sign);
      var found := FindByUsername(users, username);
      && (found.None? ==> r == Reply(401, Failure("Invalid credentials")))
      && (found.Some? && EmailBlocked(blocked, users[found.value].email) ==> r.status == 403)
      && ((found.Some? && !EmailBlocked(blocked, users[found.value].email)
           && !matches(password, users[found.value].passwordHash)) ==> r == Reply(401, Failure("Invalid credentials")))
      && (r.status == 200 <==> (found.Some? && !EmailBlocked(blocked, users[found.value].email)
          && matches(password, users[found.value].passwordHash)))
      && (r.status == 200 ==> r.body == Session(sign(users[found.value].id), users[found.value].id,
                                               users[found.value].username, users[found.value].email))
  {
  }

  /** A blocked account cannot log in whatever password it offers. */
  lemma BlockedNeverLogsIn(users: seq<Profile>, blocked: seq<BlockRecord>, username: string, password: string,
                           matches: (string, string) -> bool, sign: Id -> string, i: nat)
    requires ValidUsers(users) && i < |users| && users[i].username == CastUsername(username)
    requires EmailBlocked(blocked, users[i].email)
    ensures Login(users, blocked, username, password, matches, sign).status == 403
  {
    var j := FindByUsername(users, username).value;
    assert users[j].username == users[i].username;
  }
}
