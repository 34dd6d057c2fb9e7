// The decisions of server/routes/admin.js: the `adminAuth` guard, admin
// login (which stamps `lastLogin`), blocking a user by email (which also
// deletes that user), unblocking, and deleting a user. `/logs` is the query
// of the Logs module. `verify` stands for `jwt.verify`, `matches` for
// `comparePassword` and `sign` for `jwt.sign`; `now` is the clock.

module AdminRoutes {
  import opened Wrappers
  import opened Seqs
  import opened Text
  import opened UserSchema
  import opened Blocklist
  import opened AuthMiddleware
  import AuthRoutes

  /** Admin.js:45-49. */
  datatype Role = Super | Regular

  /** An Admin document (Admin.js:30-53); `lastLogin` is a timestamp in milliseconds. */
  datatype Admin = Admin(id: Id, username: string, passwordHash: string, email: string, role: Role,
                         lastLogin: Option<int>)

  function AdminKey(a: Admin): Id { a.id }
  function AdminUsername(a: Admin): string { a.username }
  function RecordKey(r: BlockRecord): Id { r.id }
  function RecordEmail(r: BlockRecord): string { r.email }

  /** The unique indexes of the admins collection. */
  ghost predicate ValidAdmins(admins: seq<Admin>) {
    UniqueKeys(admins, AdminKey) && UniqueKeys(admins, AdminUsername)
  }

  /** The blocked-users collection: unique ids and unique, nonempty emails (Admin.js:6-10). */
  ghost predicate ValidBlocked(blocked: seq<BlockRecord>) {
    UniqueKeys(blocked, RecordKey) && UniqueKeys(blocked, RecordEmail)
    && forall i :: 0 <= i < |blocked| ==> blocked[i].email != ""
  }

  datatype Body =
    | Failure(error: string)
    | Done(message: string)
    | AdminSession(token: string, id: Id, username: string, email: string, role: Role)

  datatype Reply = Reply(status: int, body: Body)

  // ---------------------------------------------------------------------------
  // adminAuth (admin.js:11-33)
  // ---------------------------------------------------------------------------

  /** The guard lets the request through with the admin, or answers 401 with the error given. */
  datatype Guard = Pass(admin: Admin) | Stop(error: string)

  /** `Admin.findById(decoded.adminId)`: a token without `adminId` finds nobody. */
  function FindAdmin(admins: seq<Admin>, id: Option<Id>): (r: Option<Admin>)
    ensures r.Some? ==> id.Some? && r.value in admins && r.value.id == id.value
    ensures r.None? ==> id.None? || forall a :: a in admins ==> a.id != id.value
  {
    match id
    case None => None
    case Some(k) =>
      match IndexOfKey(admins, AdminKey, k)
      case None => None
      case Some(i) => Some(admins[i])
  }

  function AdminAuth(header: Option<string>, verify: string -> Option<Claims>, admins: seq<Admin>): Guard {
    var token := ExtractToken(header);
    if Missing(token) then Stop("Authentication required")
    else match verify(token.value)
      // jwt.verify throws: the catch answers 'Authentication failed'
      case None => Stop("Authentication failed")
      case Some(claims) =>
        match FindAdmin(admins, claims.adminId)
        case None => Stop("Admin not found")
        case Some(a) => Pass(a)
  }

  /**
   * The guard's order, and that a request passes exactly with a verified
   * token naming a stored admin, which it carries on.
   */
  lemma AdminAuthOrder(header: Option<string>, verify: string -> Option<Claims>, admins: seq<Admin>)
    ensures var g := AdminAuth(header, verify, admins);
      var token := ExtractToken(header);
      && (Missing(token) ==> g == Stop("Authentication required"))
      && (!Missing(token) && verify(token.value).None? ==> g == Stop("Authentication failed"))
      && (g.Pass? <==> !Missing(token) && verify(token.value).Some?
                       && exists a :: a in admins && Some(a.id) == verify(token.value).value.adminId)
      && (g.Pass? ==> g.admin in admins && Some(g.admin.id) == verify(token.value).value.adminId)
  {
  }

  /** A user's token carries no `adminId`, so it never passes the admin guard. */
  lemma UserTokenStopped(header: Option<string>, verify: string -> Option<Claims>, admins: seq<Admin>)
    requires var t := ExtractToken(header); !Missing(t) && verify(t.value).Some? && verify(t.value).value.adminId.None?
    ensures AdminAuth(header, verify, admins) == Stop("Admin not found")
  {
  }

  // ---------------------------------------------------------------------------
  // POST /login (admin.js:35-68)
  // ---------------------------------------------------------------------------

  datatype LoggedIn = LoggedIn(reply: Reply, admins: seq<Admin>)

  /** admin.js:38: `Admin.findOne({ username })`; the Admin schema does not cast usernames. */
  function FindAdminByUsername(admins: seq<Admin>, username: string): (r: Option<nat>)
    ensures r.Some? ==> r.value < |admins| && admins[r.value].username == username
    ensures r.None? ==> forall i :: 0 <= i < |admins| ==> admins[i].username != username
  {
    IndexWhere(admins, (a: Admin) => a.username == username)
  }

  function AdminLogin(admins: seq<Admin>, username: string, password: string,
                      matches: (string, string) -> bool, now: int, sign: Id -> string): LoggedIn
  {
    match FindAdminByUsername(admins, username)
    case None => LoggedIn(Reply(401, Failure("Invalid credentials")), admins)
    case Some(i) =>
      var a := admins[i];
      if !matches(password, a.passwordHash) then LoggedIn(Reply(401, Failure("Invalid credentials")), admins)
      else LoggedIn(Reply(200, AdminSession(sign(a.id), a.id, a.username, a.email, a.role)),
                    admins[i := a.(lastLogin := Some(now))])
  }

  /**
   * An unknown username and a wrong password get the same 401 and change
   * nothing; a good login answers with the admin's identity and stamps only
   * that admin's `lastLogin`.
   */
  lemma AdminLoginOutcome(admins: seq<Admin>, username: string, password: string,
                          matches: (string, string) -> bool, now: int, sign: Id -> string)
    requires ValidAdmins(admins)
    ensures var o := AdminLogin(admins, username, password, matches, now, sign);
      var good := exists i :: 0 <= i < |admins| && admins[i].username == username
                              && matches(password, admins[i].passwordHash);
      && (!good ==> o == LoggedIn(Reply(401, Failure("Invalid credentials")), admins))
      && (good ==> (o.reply.status == 200 && |o.admins| == |admins|
          && forall i :: 0 <= i < |admins| ==>
               if admins[i].username == username then
                 o.admins[i] == admins[i].(lastLogin := Some(now))
                 && o.reply.body == AdminSession(sign(admins[i].id), admins[i].id, username, admins[i].email, admins[i].role)
               else o.admins[i] == admins[i]))
  {
  }

  /** Logging in keeps the admins' unique indexes. */
  lemma AdminLoginKeepsValid(admins: seq<Admin>, username: string, password: string,
                             matches: (string, string) -> bool, now: int, sign: Id -> string)
    requires ValidAdmins(admins)
    ensures ValidAdmins(AdminLogin(admins, username, password, matches, now, sign).admins)
  {
    match FindAdminByUsername(admins, username)
    case None =>
    case Some(i) =>
      var a := admins[i].(lastLogin := Some(now));
      UniqueKeysUpdate(admins, AdminKey, i, a);
      UniqueKeysUpdate(admins, AdminUsername, i, a);
  }

  // ---------------------------------------------------------------------------
  // POST /block-user (admin.js:91-122)
  // ---------------------------------------------------------------------------

  /** The body and request metadata of a block request; `deviceInfo` may be absent. */
  datatype BlockRequest = BlockRequest(email: Option<string>, reason: Option<string>, deviceInfo: Option<Device>,
                                       ip: Option<string>, userAgent: Option<string>)

  datatype BlockOutcome = BlockOutcome(reply: Reply, blocked: seq<BlockRecord>, users: seq<Profile>)

  /** `BlockedUser.findOne({ email })`, the email compared as sent (the schema does not cast it). */
  predicate AlreadyBlocked(blocked: seq<BlockRecord>, email: Option<string>) {
    exists i :: 0 <= i < |blocked| && Same(email, Some(blocked[i].email))
  }

  /** `User.findOneAndDelete({ email })`: the first user with the cast email goes. */
  function DeleteByEmail(users: seq<Profile>, email: string): (r: seq<Profile>)
    ensures forall p :: p in r ==> p in users
  {
    match IndexWhere(users, (p: Profile) => p.email == CastEmail(email))
    case None => users
    case Some(i) => users[..i] + users[i + 1..]
  }

  /** With unique emails, deleting the first user with the email deletes every user with it. */
  lemma DeleteByEmailRemoves(users: seq<Profile>, email: string)
    requires UniqueKeys(users, AuthRoutes.EmailOf)
    ensures DeleteByEmail(users, email) == RemoveKeys(users, AuthRoutes.EmailOf, {CastEmail(email)})
  {
    var e := CastEmail(email);
    match IndexWhere(users, (p: Profile) => p.email == e)
    case None => RemoveAbsentKey(users, AuthRoutes.EmailOf, e);
    case Some(i) => SpliceUniqueIsRemoveKey(users, AuthRoutes.EmailOf, i);
  }

  const TypeErrorMessage := "Cannot read properties of undefined (reading 'browser')"
  const EmailRequiredMessage := "BlockedUser validation failed: email: Path `email` is required."

  function BlockUser(blocked: seq<BlockRecord>, users: seq<Profile>, req: BlockRequest, newId: Id): BlockOutcome {
    if AlreadyBlocked(blocked, req.email) then
      BlockOutcome(Reply(400, Failure("User is already blocked")), blocked, users)
    else if req.deviceInfo.None? then
      // `deviceInfo.browser` on undefined throws before anything is saved
      BlockOutcome(Reply(500, Failure(TypeErrorMessage)), blocked, users)
    else if req.email.None? || req.email.value == "" then
      BlockOutcome(Reply(500, Failure(EmailRequiredMessage)), blocked, users)
    else
      var email := req.email.value;
      var r := AdminRecord(newId, email, req.reason, req.ip, req.userAgent, req.deviceInfo.value);
      BlockOutcome(Reply(200, Done("User blocked successfully")), blocked + [r], DeleteByEmail(users, email))
  }

  /**
   * A request for an email already on the list, without device details or
   * without an email changes nothing; any other appends exactly one record
   * for that email and removes that user and no other.
   */
  lemma BlockUserOutcome(blocked: seq<BlockRecord>, users: seq<Profile>, req: BlockRequest, newId: Id)
    requires UniqueKeys(users, AuthRoutes.EmailOf)
    ensures var o := BlockUser(blocked, users, req, newId);
      var ok := !AlreadyBlocked(blocked, req.email) && req.deviceInfo.Some? && req.email.Some? && req.email.value != "";
      && (AlreadyBlocked(blocked, req.email) ==> o.reply == Reply(400, Failure("User is already blocked")))
      && (o.reply.status == 200 <==> ok)
      && (!ok ==> o.blocked == blocked && o.users == users && o.reply.status != 200)
      && (ok ==> o.blocked == blocked + [AdminRecord(newId, req.email.value, req.reason, req.ip, req.userAgent, req.deviceInfo.value)]
                 && o.users == RemoveKeys(users, AuthRoutes.EmailOf, {CastEmail(req.email.value)}))
  {
    if req.email.Some? {
      DeleteByEmailRemoves(users, req.email.value);
    }
  }

  /** Blocking keeps both collections valid when the record's id is fresh. */
  lemma BlockUserKeepsValid(blocked: seq<BlockRecord>, users: seq<Profile>, req: BlockRequest, newId: Id)
    requires ValidBlocked(blocked) && AuthRoutes.ValidUsers(users)
    requires forall i :: 0 <= i < |blocked| ==> blocked[i].id != newId
    ensures ValidBlocked(BlockUser(blocked, users, req, newId).blocked)
    ensures AuthRoutes.ValidUsers(BlockUser(blocked, users, req, newId).users)
  {
    var o := BlockUser(blocked, users, req, newId);
    if o.reply.status == 200 {
      var email := req.email.value;
      var r := AdminRecord(newId, email, req.reason, req.ip, req.userAgent, req.deviceInfo.value);
      assert !AlreadyBlocked(blocked, req.email) && email != "";
      assert o.blocked == blocked + [r] && o.users == DeleteByEmail(users, email);
      assert forall i :: 0 <= i < |blocked| ==> RecordEmail(blocked[i]) != RecordEmail(r) by {
        forall i | 0 <= i < |blocked| ensures RecordEmail(blocked[i]) != RecordEmail(r) {
          assert !Same(req.email, Some(blocked[i].email));
        }
      }
      UniqueKeysSnocFresh(blocked, RecordKey, r);
      UniqueKeysSnocFresh(blocked, RecordEmail, r);
      var b := blocked + [r];
      assert forall i :: 0 <= i < |b| ==> b[i].email != "" by {
        assert forall i :: 0 <= i < |blocked| ==> b[i] == blocked[i];
      }
      DeleteByEmailRemoves(users, email);
      RemoveKeysAllValid(users, AuthRoutes.EmailOf, {CastEmail(email)});
    }
  }

  /** Removing users, by any key, keeps the users collection valid. */
  lemma RemoveKeysAllValid(users: seq<Profile>, keyOf: Profile -> Id, keys: set<Id>)
    requires AuthRoutes.ValidUsers(users)
    ensures AuthRoutes.ValidUsers(RemoveKeys(users, keyOf, keys))
  {
    var r := RemoveKeys(users, keyOf, keys);
    RemoveKeysKeepsUnique(users, keyOf, keys, AuthRoutes.ProfileKey);
    RemoveKeysKeepsUnique(users, keyOf, keys, AuthRoutes.UsernameOf);
    RemoveKeysKeepsUnique(users, keyOf, keys, AuthRoutes.EmailOf);
    assert forall i :: 0 <= i < |r| ==> AuthRoutes.StoredProfile(r[i]) by {
      assert forall i :: 0 <= i < |r| ==> r[i] in users;
    }
  }

  /**
   * Once blocked, an email cannot be blocked a second time, and a
   * registration that sends it is refused by the blocklist.
   */
  lemma BlockedEmailStaysOut(blocked: seq<BlockRecord>, users: seq<Profile>, req: BlockRequest, newId: Id,
                             again: BlockRequest, newId2: Id, probe: Registration)
    requires BlockUser(blocked, users, req, newId).reply.status == 200
    requires again.email == req.email && probe.email == req.email
    ensures var o := BlockUser(blocked, users, req, newId);
      BlockUser(o.blocked, o.users, again, newId2).reply == Reply(400, Failure("User is already blocked"))
      && CheckRegistration(o.blocked, probe).Refuse?
  {
    var o := BlockUser(blocked, users, req, newId);
    var k := |blocked|;
    assert o.blocked[k].email == req.email.value;
    assert RegisterMatch(o.blocked[k], probe);
  }

  // ---------------------------------------------------------------------------
  // DELETE /blocked-users/:id and DELETE /users/:id (admin.js:80-89, 134-143)
  // ---------------------------------------------------------------------------

  /** `findByIdAndDelete`: the record with that id, if any, goes; the answer is the same either way. */
  function Unblock(blocked: seq<BlockRecord>, id: Id): (o: (Reply, seq<BlockRecord>))
    ensures o.0 == Reply(200, Done("User unblocked successfully"))
    ensures forall r :: r in o.1 <==> r in blocked && r.id != id
  {
    (Reply(200, Done("User unblocked successfully")), RemoveKeys(blocked, RecordKey, {id}))
  }

  /** Unblocking keeps the list valid. */
  lemma UnblockKeepsValid(blocked: seq<BlockRecord>, id: Id)
    requires ValidBlocked(blocked)
    ensures ValidBlocked(Unblock(blocked, id).1)
  {
    var r := Unblock(blocked, id).1;
    RemoveKeysUnique(blocked, RecordKey, {id});
    RemoveKeysKeepsUnique(blocked, RecordKey, {id}, RecordEmail);
    assert forall i :: 0 <= i < |r| ==> r[i].email != "" by {
      assert forall i :: 0 <= i < |r| ==> r[i] in blocked;
    }
  }

  /** Once the only records that refused a registration are unblocked, it gets past the blocklist. */
  lemma UnblockLetsRegister(blocked: seq<BlockRecord>, id: Id, probe: Registration)
    requires forall i :: 0 <= i < |blocked| && RegisterMatch(blocked[i], probe) ==> blocked[i].id == id
    ensures CheckRegistration(Unblock(blocked, id).1, probe).Next?
  {
    var r := Unblock(blocked, id).1;
    forall i | 0 <= i < |r| ensures !RegisterMatch(r[i], probe) {
      assert r[i] in blocked;
    }
  }

  function DeleteUser(users: seq<Profile>, id: Id): (o: (Reply, seq<Profile>))
    ensures o.0 == Reply(200, Done("User deleted successfully"))
    ensures forall p :: p in o.1 <==> p in users && p.id != id
  {
    (Reply(200, Done("User deleted successfully")), RemoveKeys(users, AuthRoutes.ProfileKey, {id}))
  }

  /** A deleted user can no longer log in, whatever password is offered. */
  lemma DeletedUserCannotLogIn(users: seq<Profile>, blocked: seq<BlockRecord>, i: nat, username: string,
                               password: string, matches: (string, string) -> bool, sign: Id -> string)
    requires AuthRoutes.ValidUsers(users) && i < |users| && users[i].username == CastUsername(username)
    ensures var after := DeleteUser(users, users[i].id).1;
      AuthRoutes.Login(after, blocked, username, password, matches, sign)
        == AuthRoutes.Reply(401, AuthRoutes.Failure("Invalid credentials"))
  {
    var after := DeleteUser(users, users[i].id).1;
    match AuthRoutes.FindByUsername(after, username)
    case None =>
    case Some(j) =>
      assert after[j] in users && users[i] in users;
      SameKeySameElement(users, AuthRoutes.UsernameOf, after[j], users[i]);
      assert false;
  }

  /** Deleting keeps the users collection valid. */
  lemma DeleteUserKeepsValid(users: seq<Profile>, id: Id)
    requires AuthRoutes.ValidUsers(users)
    ensures AuthRoutes.ValidUsers(DeleteUser(users, id).1)
  {
    RemoveKeysAllValid(users, AuthRoutes.ProfileKey, {id});
  }
}
