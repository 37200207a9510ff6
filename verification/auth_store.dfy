/**
 * The front-end's authentication store (server/front-end/src/stores/auth.js):
 * the current user and the `isAuthenticated` flag, which each action
 * assigns. Each call to the back end is a parameter holding what it
 * answered or the error it threw; the store records which endpoints it
 * called, and the router navigation logout performs is the `route` field.
 */
module AuthStore {
  import opened Common

  /** The user record the back end answers with. */
  datatype User = User(id: nat, username: string, email: Option<string>)

  datatype Endpoint = LoginCall | RegisterCall | LogoutCall | MeCall

  /**
   * A back-end call: an answer (with its `success` flag, its payload, its `message` and its
   * `error.message`, "" standing for an absent or empty text), or a thrown error with its message and
   * the `error.message` of the server's response body, if one came back.
   */
  datatype Call<T> =
    | Answered(success: bool, data: T, message: string, errorMessage: string)
    | Failed(message: string, serverMessage: string)

  /** What login and register resolve to. */
  datatype Outcome = Outcome(success: bool, message: Option<string>)

  const LoginFailed := "登录失败"
  const RegisterFailed := "注册失败"
  const RegisterSucceeded := "注册成功"

  /** login's result: success only for a successful answer; a failure always carries a non-empty message. */
  function LoginOutcome(call: Call<User>): (r: Outcome)
    ensures r.success <==> call.Answered? && call.success
    ensures r.success ==> r.message.None?
    ensures !r.success ==> r.message.Some? && |r.message.value| > 0
    ensures call.Answered? && !call.success ==> r.message == Some(LoginFailed)
    ensures call.Failed? && |call.message| > 0 ==> r.message == Some(call.message)
  {
    match call
      case Answered(success, _, _, _) =>
        if success then Outcome(true, None) else Outcome(false, Some(LoginFailed))
      case Failed(message, _) => Outcome(false, Some(Or(message, LoginFailed)))
  }

  /**
   * register's result. A success passes on the server's message; a failure prefers the server's
   * error message, then the thrown error's own, then the fixed text; the message is never empty.
   */
  function RegisterOutcome(call: Call<User>): (r: Outcome)
    ensures r.success <==> call.Answered? && call.success
    ensures r.message.Some? && |r.message.value| > 0
    ensures call.Answered? && call.success && |call.message| > 0 ==> r.message == Some(call.message)
    ensures call.Answered? && !call.success && |call.errorMessage| > 0 ==> r.message == Some(call.errorMessage)
    ensures call.Failed? && |call.serverMessage| > 0 ==> r.message == Some(call.serverMessage)
    ensures call.Failed? && |call.serverMessage| == 0 && |call.message| > 0 ==> r.message == Some(call.message)
  {
    match call
      case Answered(success, _, message, errorMessage) =>
        if success then Outcome(true, Some(Or(message, RegisterSucceeded)))
        else Outcome(false, Some(Or(errorMessage, RegisterFailed)))
      case Failed(message, serverMessage) =>
        if |serverMessage| > 0 then Outcome(false, Some(serverMessage))
        else Outcome(false, Some(Or(message, RegisterFailed)))
  }

  class Store {
    var user: Option<User>
    var isAuthenticated: bool
    /** The last route the store navigated to. */
    var route: Option<string>
    /** The back-end endpoints called so far, in order. */
    ghost var requests: seq<Endpoint>

    /** Someone is logged in exactly when a user is held. */
    ghost predicate Valid()
      reads this
    {
      isAuthenticated <==> user.Some?
    }

    constructor()
      ensures Valid() && user.None? && !isAuthenticated && route.None? && requests == []
    {
      user := None;
      isAuthenticated := false;
      route := None;
      requests := [];
    }

    /** login: a successful answer stores its user and sets the flag; any other outcome changes nothing. */
    method Login(call: Call<User>) returns (r: Outcome)
      requires Valid()
      modifies this
      ensures Valid()
      ensures r == LoginOutcome(call)
      ensures requests == old(requests) + [LoginCall] && route == old(route)
      ensures r.success ==> user == Some(call.data) && isAuthenticated
      ensures !r.success ==> user == old(user) && isAuthenticated == old(isAuthenticated)
    {
      requests := requests + [LoginCall];
      match call {
        case Answered(success, data, _, _) =>
          if success {
            user := Some(data);
            isAuthenticated := true;
            return Outcome(true, None);
          }
          return Outcome(false, Some(LoginFailed));
        case Failed(message, _) =>
          return Outcome(false, Some(Or(message, LoginFailed)));
      }
    }

    /** register: never touches the user or the flag. */
    method Register(call: Call<User>) returns (r: Outcome)
      modifies this
      ensures r == RegisterOutcome(call)
      ensures requests == old(requests) + [RegisterCall]
      ensures user == old(user) && isAuthenticated == old(isAuthenticated) && route == old(route)
    {
      requests := requests + [RegisterCall];
      match call {
        case Answered(success, _, message, errorMessage) =>
          if success {
            return Outcome(true, Some(Or(message, RegisterSucceeded)));
          }
          return Outcome(false, Some(Or(errorMessage, RegisterFailed)));
        case Failed(message, serverMessage) =>
          if |serverMessage| > 0 {
            return Outcome(false, Some(serverMessage));
          }
          return Outcome(false, Some(Or(message, RegisterFailed)));
      }
    }

    /** logout: whatever the call did, the user and the flag are cleared and the store goes to /login. */
    method Logout(call: Call<()>)
      modifies this
      ensures Valid()
      ensures user.None? && !isAuthenticated && route == Some("/login")
      ensures requests == old(requests) + [LogoutCall]
    {
      requests := requests + [LogoutCall];
      user := None;
      isAuthenticated := false;
      route := Some("/login");
    }

    /** fetchUser: a successful answer stores the user and yields true; anything else clears both and yields false. */
    method FetchUser(call: Call<User>) returns (ok: bool)
      modifies this
      ensures Valid()
      ensures ok <==> call.Answered? && call.success
      ensures ok ==> user == Some(call.data) && isAuthenticated
      ensures !ok ==> user.None? && !isAuthenticated
      ensures requests == old(requests) + [MeCall] && route == old(route)
    {
      requests := requests + [MeCall];
      if call.Answered? && call.success {
        user := Some(call.data);
        isAuthenticated := true;
        return true;
      }
      user := None;
      isAuthenticated := false;
      ok := false;
    }

    /** checkAuth: true at once, with no call, when already logged in; otherwise whatever fetchUser yields. */
    method CheckAuth(call: Call<User>) returns (ok: bool)
      requires Valid()
      modifies this
      ensures Valid()
      ensures old(isAuthenticated) ==> ok && requests == old(requests) && user == old(user) && isAuthenticated
      ensures !old(isAuthenticated) ==>
        requests == old(requests) + [MeCall] && (ok <==> call.Answered? && call.success) &&
        (ok ==> user == Some(call.data)) && (isAuthenticated <==> ok)
      ensures route == old(route)
    {
      if isAuthenticated {
        return true;
      }
      ok := FetchUser(call);
    }
  }
}
