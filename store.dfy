// The collections the auth and admin routes write, as one object whose
// route handlers update them in place: `/register` saves a user, admin
// `/login` stamps `lastLogin` on the admin it found, `/block-user` saves a
// record and then deletes the user, and the two deletes remove by id.

module Store {
  import opened Wrappers
  import opened Seqs
  import opened UserSchema
  import opened Blocklist
  import AuthRoutes
  import opened AdminRoutes

  class Database {
    var users: seq<Profile>
    var blocked: seq<BlockRecord>
    var admins: seq<Admin>

    /** The unique indexes and stored shapes of the three collections. */
    ghost predicate Valid()
      reads this
    {
      AuthRoutes.ValidUsers(users) && ValidBlocked(blocked) && ValidAdmins(admins)
    }

    constructor (admins0: seq<Admin>)
      requires ValidAdmins(admins0)
      ensures Valid() && users == [] && blocked == [] && admins == admins0
    {
      users, blocked, admins := [], [], admins0;
    }

    /** auth.js:41-77 behind auth.js:11-39: refuse, or create and save the user. */
    method Register(req: AuthRoutes.RegisterRequest, newId: Id, hash: string -> string, sign: Id -> string)
      returns (reply: AuthRoutes.Reply)
      requires Valid() && forall i :: 0 <= i < |users| ==> users[i].id != newId
      modifies this
      ensures var o := AuthRoutes.Register(old(blocked), old(users), req, newId, hash, sign);
        reply == o.reply && users == o.users
      ensures blocked == old(blocked) && admins == old(admins)
      ensures Valid()
    {
      AuthRoutes.RegisterKeepsValid(blocked, users, req, newId, hash, sign);
      var gate := CheckRegistration(blocked, req.probe);
      if gate.Refuse? {
        return AuthRoutes.Reply(gate.status, AuthRoutes.Blocked(gate.error, gate.message));
      }
      if req.username == "" || req.email == "" || req.password == "" {
        return AuthRoutes.Reply(400, AuthRoutes.Failure("All fields are required"));
      }
      var existing := AuthRoutes.Existing(users, req.username, req.email);
      if existing.Some? {
        var field := if users[existing.value].username == req.username then "username" else "email";
        return AuthRoutes.Reply(400, AuthRoutes.Taken(field));
      }
      var errors := ProfileErrors(req.username, req.email, req.password);
      if errors != [] {
        return AuthRoutes.Reply(400, AuthRoutes.Invalid(errors));
      }
      var p := AuthRoutes.NewProfile(req, newId, hash);
      users := users + [p];
      reply := AuthRoutes.Reply(201, AuthRoutes.Session(sign(newId), newId, p.username, p.email));
    }

    /** admin.js:35-68: a good login sets the admin's `lastLogin` and saves it. */
    method AdminLogin(username: string, password: string, matches: (string, string) -> bool, now: int,
                      sign: Id -> string) returns (reply: Reply)
      requires Valid()
      modifies this
      ensures var o := AdminRoutes.AdminLogin(old(admins), username, password, matches, now, sign);
        reply == o.reply && admins == o.admins
      ensures users == old(users) && blocked == old(blocked)
      ensures Valid()
    {
      AdminLoginKeepsValid(admins, username, password, matches, now, sign);
      var found := FindAdminByUsername(admins, username);
      if found.None? || !matches(password, admins[found.value].passwordHash) {
        return Reply(401, Failure("Invalid credentials"));
      }
      var i := found.value;
      var admin := admins[i];
      admin := admin.(lastLogin := Some(now));
      admins := admins[i := admin];
      reply := Reply(200, AdminSession(sign(admin.id), admin.id, admin.username, admin.email, admin.role));
    }

    /** admin.js:91-122: save the record, then delete the user with that email. */
    method BlockUser(req: BlockRequest, newId: Id) returns (reply: Reply)
      requires Valid() && forall i :: 0 <= i < |blocked| ==> blocked[i].id != newId
      modifies this
      ensures var o := AdminRoutes.BlockUser(old(blocked), old(users), req, newId);
        reply == o.reply && blocked == o.blocked && users == o.users
      ensures admins == old(admins)
      ensures Valid()
    {
      BlockUserKeepsValid(blocked, users, req, newId);
      if AlreadyBlocked(blocked, req.email) {
        return Reply(400, Failure("User is already blocked"));
      }
      if req.deviceInfo.None? {
        return Reply(500, Failure(TypeErrorMessage));
      }
      if req.email.None? || req.email.value == "" {
        return Reply(500, Failure(EmailRequiredMessage));
      }
      var email := req.email.value;
      var record := AdminRecord(newId, email, req.reason, req.ip, req.userAgent, req.deviceInfo.value);
      blocked := blocked + [record];
      users := DeleteByEmail(users, email);
      reply := Reply(200, Done("User blocked successfully"));
    }

    /** admin.js:134-143. */
    method Unblock(id: Id) returns (reply: Reply)
      requires Valid()
      modifies this
      ensures (reply, blocked) == AdminRoutes.Unblock(old(blocked), id)
      ensures users == old(users) && admins == old(admins)
      ensures Valid()
    {
      UnblockKeepsValid(blocked, id);
      blocked := RemoveKeys(blocked, RecordKey, {id});
      reply := Reply(200, Done("User unblocked successfully"));
    }

    /** admin.js:80-89. */
    method DeleteUser(id: Id) returns (reply: Reply)
      requires Valid()
      modifies this
      ensures (reply, users) == AdminRoutes.DeleteUser(old(users), id)
      ensures blocked == old(blocked) && admins == old(admins)
      ensures Valid()
    {
      DeleteUserKeepsValid(users, id);
      users := RemoveKeys(users, AuthRoutes.ProfileKey, {id});
      reply := Reply(200, Done("User deleted successfully"));
    }
  }
}
