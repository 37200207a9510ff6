/**
 * The profile endpoints (server/back-end/controllers/userController.js):
 * changing one's password and one's email. The session's user id is a
 * parameter; bcrypt is the pair of functions `hash` and `compare`.
 */
module UserController {
  import opened Common
  import Users
  import AuthController

  /** The body's email: left out, null, or a string (possibly empty). */
  datatype BodyEmail = Absent | Null | Given(value: string)

  /** What updateProfile passes to update: undefined stays undefined, null and strings are written. */
  function EmailPatch(email: BodyEmail): (r: Option<Option<string>>)
    ensures r.None? <==> email.Absent?
    ensures email.Null? ==> r == Some(None)
    ensures email.Given? ==> r == Some(Some(email.value))
  {
    match email
      case Absent => None
      case Null => Some(None)
      case Given(s) => Some(Some(s))
  }

  /**
   * changePassword: 404 USER_NOT_FOUND, then 401 INVALID_PASSWORD when the old password does not match,
   * with no write in either case; otherwise the user's hash becomes the new password's hash.
   */
  method ChangePassword(users: Users.UserTable, userId: nat, oldPassword: string, newPassword: string,
                        compare: (string, string) -> bool, hash: string -> string, now: int)
    returns (reply: Reply<()>)
    requires users.Valid()
    modifies users
    ensures users.Valid()
    ensures old(users.FindById(userId)).None? ==> reply == Failure(404, "USER_NOT_FOUND") && users.rows == old(users.rows)
    ensures reply == Failure(401, "INVALID_PASSWORD") <==>
      old(users.FindById(userId)).Some? && !compare(oldPassword, old(users.FindById(userId)).value.passwordHash)
    ensures reply.Failure? ==> users.rows == old(users.rows)
    ensures reply.Success? ==>
      old(users.FindById(userId)).Some? && |users.rows| == |old(users.rows)| &&
      forall k :: 0 <= k < |users.rows| ==>
        users.rows[k] == (if old(users.rows)[k].id == userId
                          then Users.Patched(old(users.rows)[k], Users.UserPatch(None, Some(hash(newPassword)), None), now)
                          else old(users.rows)[k])
  {
    var user := users.FindById(userId);
    if user.None? {
      return Failure(404, "USER_NOT_FOUND");
    }
    var isValidPassword := compare(oldPassword, user.value.passwordHash);
    if !isValidPassword {
      return Failure(401, "INVALID_PASSWORD");
    }
    var passwordHash := hash(newPassword);
    var _ := users.Update(userId, Users.UserPatch(None, Some(passwordHash), None), now);
    reply := Success(());
  }

  /**
   * updateProfile: 409 EMAIL_EXISTS when a non-empty email belongs to a different user (one's own email
   * may be resubmitted); otherwise the email is written when the body has one, null and the empty string
   * included. A user id no row holds makes the handler read a field of nothing, which answers 500.
   */
  method UpdateProfile(users: Users.UserTable, userId: nat, email: BodyEmail, now: int)
    returns (reply: Reply<AuthController.Profile>)
    requires users.Valid()
    modifies users
    ensures users.Valid()
    ensures reply == Failure(409, "EMAIL_EXISTS") <==>
      email.Given? && |email.value| > 0 && old(users.FindByEmail(email.value)).Some? &&
      old(users.FindByEmail(email.value)).value.id != userId
    ensures reply == Failure(409, "EMAIL_EXISTS") || email.Absent? ==> users.rows == old(users.rows)
    ensures reply != Failure(409, "EMAIL_EXISTS") ==>
      |users.rows| == |old(users.rows)| &&
      (forall k :: 0 <= k < |users.rows| ==>
         users.rows[k] == (if old(users.rows)[k].id == userId && !email.Absent?
                           then Users.Patched(old(users.rows)[k], Users.UserPatch(None, None, EmailPatch(email)), now)
                           else old(users.rows)[k])) &&
      reply == (match users.FindById(userId)
                  case None => Failure(500, "INTERNAL_ERROR")
                  case Some(u) => Success(AuthController.ProfileOf(u)))
    ensures reply.Success? ==>
      reply.data.id == userId &&
      reply.data.email == match email
                            case Absent => old(users.FindById(userId)).value.email
                            case Null => None
                            case Given(s) => Some(s)
  {
    if email.Given? && |email.value| > 0 {
      var existingEmail := users.FindByEmail(email.value);
      if existingEmail.Some? && existingEmail.value.id != userId {
        return Failure(409, "EMAIL_EXISTS");
      }
    }
    var user := users.Update(userId, Users.UserPatch(None, None, EmailPatch(email)), now);
    if user.None? {
      return Failure(500, "INTERNAL_ERROR");
    }
    reply := Success(AuthController.ProfileOf(user.value));
  }

  /** Resubmitting the email one already holds, as the only holder, is never a conflict. */
  lemma OwnEmailAccepted(users: Users.UserTable, userId: nat, email: string)
    requires forall k :: 0 <= k < |users.rows| && users.rows[k].email == Some(email) ==> users.rows[k].id == userId
    ensures users.FindByEmail(email).Some? ==> users.FindByEmail(email).value.id == userId
  {
    var r := users.FindByEmail(email);
    if r.Some? {
      var i :| 0 <= i < |users.rows| && users.rows[i] == r.value;
    }
  }
}
