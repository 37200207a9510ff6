/**
 * The account endpoints (server/back-end/controllers/authController.js):
 * register, login and getMe. bcrypt is a pair of functions passed in
 * (`hash` and `compare`); the session is a small object whose two fields
 * login sets.
 */
module AuthController {
  import opened Common
  import Users
  import SystemConfigs

  /** The user fields register and login answer with; the password hash is never among them. */
  datatype Profile = Profile(id: nat, username: string, email: Option<string>)

  /** What getMe answers with. */
  datatype Me = Me(id: nat, username: string, email: Option<string>, createdAt: int)

  function ProfileOf(u: Users.User): Profile
  {
    Profile(u.id, u.username, u.email)
  }

  class Session {
    var userId: Option<nat>
    var username: Option<string>

    constructor()
      ensures userId == None && username == None
    {
      userId := None;
      username := None;
    }
  }

  /** The answer register gives without writing: the first failing check in the handler's order, if any. */
  function RegisterRejection(users: Users.UserTable, configs: SystemConfigs.SystemConfigTable,
                             username: string, email: Option<string>): (r: Option<Reply<Profile>>)
    reads users, configs
    ensures !configs.GetBoolean("register_enabled", true) ==> r == Some(Failure(403, "REGISTER_DISABLED"))
    ensures r == Some(Failure(409, "USERNAME_EXISTS")) <==>
      configs.GetBoolean("register_enabled", true) && users.FindByUsername(username).Some?
    ensures r == Some(Failure(409, "EMAIL_EXISTS")) <==>
      configs.GetBoolean("register_enabled", true) && users.FindByUsername(username).None? &&
      email.Some? && |email.value| > 0 && users.FindByEmail(email.value).Some?
    ensures r.None? ==> users.FindByUsername(username).None?
  {
    if !configs.GetBoolean("register_enabled", true) then Some(Failure(403, "REGISTER_DISABLED"))
    else if users.FindByUsername(username).Some? then Some(Failure(409, "USERNAME_EXISTS"))
    else if email.Some? && |email.value| > 0 && users.FindByEmail(email.value).Some? then Some(Failure(409, "EMAIL_EXISTS"))
    else None
  }

  /**
   * register: 403 when registration is switched off (the flag defaults to on), 409 for a taken
   * username, 409 for a taken email when one is given; otherwise exactly one user is created with the
   * hashed password and the answer leaves the hash out.
   */
  method Register(users: Users.UserTable, configs: SystemConfigs.SystemConfigTable, username: string, password: string,
                  email: Option<string>, hash: string -> string, now: int) returns (reply: Reply<Profile>)
    requires users.Valid()
    modifies users
    ensures users.Valid()
    ensures reply.Failure? ==> users.rows == old(users.rows) && old(RegisterRejection(users, configs, username, email)) == Some(reply)
    ensures reply.Success? ==>
      old(RegisterRejection(users, configs, username, email)).None? &&
      |users.rows| == |old(users.rows)| + 1 && users.rows[..|old(users.rows)|] == old(users.rows) &&
      users.rows[|old(users.rows)|].passwordHash == hash(password) &&
      users.rows[|old(users.rows)|].email == Users.StoredEmail(email) &&
      reply.data == ProfileOf(users.rows[|old(users.rows)|]) &&
      users.FindByUsername(username) == Some(users.rows[|old(users.rows)|])
  {
    var registerEnabled := configs.GetBoolean("register_enabled", true);
    if !registerEnabled {
      return Failure(403, "REGISTER_DISABLED");
    }
    var existingUser := users.FindByUsername(username);
    if existingUser.Some? {
      return Failure(409, "USERNAME_EXISTS");
    }
    if email.Some? && |email.value| > 0 {
      var existingEmail := users.FindByEmail(email.value);
      if existingEmail.Some? {
        return Failure(409, "EMAIL_EXISTS");
      }
    }
    var passwordHash := hash(password);
    var user := users.Create(username, passwordHash, email, now);
    assert users.rows[..|old(users.rows)|] == old(users.rows);
    Users.CreatedIsFound(users, user);
    reply := Success(ProfileOf(user));
  }

  /**
   * login: an unknown username and a wrong password get the same 401 INVALID_CREDENTIALS and leave the
   * session alone. Otherwise the session takes the user's id and name; a failed session save answers
   * 500 although the fields are already set.
   */
  method Login(users: Users.UserTable, session: Session, username: string, password: string,
               compare: (string, string) -> bool, saveOk: bool) returns (reply: Reply<Profile>)
    modifies session
    ensures reply == Failure(401, "INVALID_CREDENTIALS") <==>
      users.FindByUsername(username).None? || !compare(password, users.FindByUsername(username).value.passwordHash)
    ensures reply == Failure(401, "INVALID_CREDENTIALS") ==>
      session.userId == old(session.userId) && session.username == old(session.username)
    ensures reply != Failure(401, "INVALID_CREDENTIALS") ==>
      session.userId == Some(users.FindByUsername(username).value.id) && session.username == Some(username) &&
      reply == (if saveOk then Success(ProfileOf(users.FindByUsername(username).value)) else Failure(500, "INTERNAL_ERROR"))
  {
    var user := users.FindByUsername(username);
    if user.None? {
      return Failure(401, "INVALID_CREDENTIALS");
    }
    var isValidPassword := compare(password, user.value.passwordHash);
    if !isValidPassword {
      return Failure(401, "INVALID_CREDENTIALS");
    }
    session.userId := Some(user.value.id);
    session.username := Some(user.value.username);
    if !saveOk {
      return Failure(500, "INTERNAL_ERROR");
    }
    reply := Success(ProfileOf(user.value));
  }

  /** getMe: the session's user, or 404 USER_NOT_FOUND when that row is gone. */
  function GetMe(users: Users.UserTable, userId: nat): (reply: Reply<Me>)
    reads users
    ensures reply.Failure? <==> users.FindById(userId).None?
    ensures reply.Failure? ==> reply == Failure(404, "USER_NOT_FOUND")
    ensures reply.Success? ==>
      (exists k :: 0 <= k < |users.rows| && users.rows[k].id == userId &&
         reply.data == Me(userId, users.rows[k].username, users.rows[k].email, users.rows[k].createdAt))
  {
    match users.FindById(userId)
      case None => Failure(404, "USER_NOT_FOUND")
      case Some(u) => Success(Me(u.id, u.username, u.email, u.createdAt))
  }

  /** A second register with the same username, right after a first that succeeded, is refused. */
  lemma RegisterTwiceRefused(users: Users.UserTable, configs: SystemConfigs.SystemConfigTable, username: string,
                             email: Option<string>, u: Users.User)
    requires u in users.rows && u.username == username
    requires configs.GetBoolean("register_enabled", true)
    ensures RegisterRejection(users, configs, username, email) == Some(Failure(409, "USERNAME_EXISTS"))
  {
    var i :| 0 <= i < |users.rows| && users.rows[i] == u;
  }
}
