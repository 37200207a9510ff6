/**
 * The request validators (server/back-end/middleware/validation.js). Each
 * collects its error messages in order and either passes the request on
 * or answers 400 VALIDATION_ERROR listing them. A field that is missing,
 * not a string or empty is `None` or `Some("")`: both fail the "required"
 * check alike.
 */
module Validation {
  import opened Common

  /** The error messages the validators can list. */
  datatype ValidationError =
    | UsernameRequired | UsernameLength | UsernameChars
    | PasswordRequired | PasswordLength | EmailFormat
    | OldPasswordRequired | NewPasswordRequired | NewPasswordLength

  /** The text of each message as the response's details carry it. */
  function Message(e: ValidationError): string
  {
    match e
      case UsernameRequired => "用户名是必填项"
      case UsernameLength => "用户名长度必须在3-20个字符之间"
      case UsernameChars => "用户名只能包含字母、数字和下划线"
      case PasswordRequired => "密码是必填项"
      case PasswordLength => "密码长度必须在6-50个字符之间"
      case EmailFormat => "邮箱格式不正确"
      case OldPasswordRequired => "旧密码是必填项"
      case NewPasswordRequired => "新密码是必填项"
      case NewPasswordLength => "新密码长度必须在6-50个字符之间"
  }

  /** next() when the list is empty, otherwise 400 VALIDATION_ERROR with the list as details. */
  datatype Verdict = Next | Rejected(status: nat, code: string, details: seq<ValidationError>)

  function VerdictOf(errors: seq<ValidationError>): (v: Verdict)
    ensures v.Next? <==> |errors| == 0
    ensures v.Rejected? ==> v.status == 400 && v.code == "VALIDATION_ERROR" && v.details == errors
  {
    if |errors| > 0 then Rejected(400, "VALIDATION_ERROR", errors) else Next
  }

  /** A truthy string: present, a string, and not empty. */
  predicate Given(f: Option<string>)
  {
    f.Some? && |f.value| > 0
  }

  /** A character of the class [a-zA-Z0-9_]. */
  predicate WordChar(c: char)
  {
    ('a' <= c <= 'z') || ('A' <= c <= 'Z') || ('0' <= c <= '9') || c == '_'
  }

  /** Lengths are String.prototype.length, counted in UTF-16 code units. */
  predicate ValidUsername(u: string)
  {
    3 <= Utf16Length(u) <= 20 && forall k :: 0 <= k < |u| ==> WordChar(u[k])
  }

  predicate ValidPasswordLength(p: string)
  {
    6 <= Utf16Length(p) <= 50
  }

  /** A character of the class [^\s@]. */
  predicate PlainChar(c: char)
  {
    !IsSpace(c) && c != '@'
  }

  /** A run of the class [^\s@]; the regex asks for at least one character, checked separately. */
  predicate Plain(s: string)
  {
    forall k :: 0 <= k < |s| ==> PlainChar(s[k])
  }

  /** The whole string matches /^[^\s@]+@[^\s@]+\.[^\s@]+$/. */
  predicate EmailShape(e: string)
  {
    exists i, j :: 0 < i && i + 1 < j && j + 1 < |e| && e[i] == '@' && e[j] == '.' &&
      Plain(e[..i]) && Plain(e[i + 1..j]) && Plain(e[j + 1..])
  }

  predicate InnerDot(domain: string)
  {
    exists j :: 0 < j < |domain| - 1 && domain[j] == '.'
  }

  /** The email test as a scan: one '@' after a non-empty local part, and a domain holding an inner '.'. */
  function EmailMatches(e: string): bool
  {
    match FindIndex(e, (c: char) => c == '@')
      case None => false
      case Some(i) => 0 < i && Plain(e[..i]) && Plain(e[i + 1..]) && InnerDot(e[i + 1..])
  }

  /** The scan accepts exactly the strings the regular expression matches. */
  lemma EmailMatchesShape(e: string)
    ensures EmailMatches(e) <==> EmailShape(e)
  {
    if EmailMatches(e) {
      MatchesIsShape(e);
    }
    if EmailShape(e) {
      ShapeIsMatch(e);
    }
  }

  lemma MatchesIsShape(e: string)
    requires EmailMatches(e)
    ensures EmailShape(e)
  {
    var i := FindIndex(e, (c: char) => c == '@').value;
    var domain := e[i + 1..];
    var j' :| 0 < j' < |domain| - 1 && domain[j'] == '.';
    var j := i + 1 + j';
    assert e[i + 1..j] == domain[..j'];
    assert e[j + 1..] == domain[j' + 1..];
    assert Plain(e[i + 1..j]) by {
      forall k | 0 <= k < j' ensures PlainChar(domain[..j'][k]) {
        assert domain[..j'][k] == domain[k];
      }
    }
    var tail := domain[j' + 1..];
    assert Plain(tail) by {
      forall k | 0 <= k < |tail| ensures PlainChar(tail[k]) {
        assert tail[k] == domain[j' + 1 + k];
      }
    }
    assert e[j] == '.';
  }

  lemma ShapeIsMatch(e: string)
    requires EmailShape(e)
    ensures EmailMatches(e)
  {
    var i, j :| 0 < i && i + 1 < j && j + 1 < |e| && e[i] == '@' && e[j] == '.' &&
      Plain(e[..i]) && Plain(e[i + 1..j]) && Plain(e[j + 1..]);
    FirstAt(e, i);
    PlainAcrossDot(e, i, j);
    assert e[i + 1..][j - i - 1] == '.';
  }

  /** With no '@' before position i, the scan for '@' stops at i. */
  lemma FirstAt(e: string, i: nat)
    requires i < |e| && e[i] == '@' && Plain(e[..i])
    ensures FindIndex(e, (c: char) => c == '@') == Some(i)
  {
    forall k | 0 <= k < i ensures e[k] != '@' {
      assert e[..i][k] == e[k];
    }
  }

  /** Two plain runs joined by a '.' are one plain run. */
  lemma PlainAcrossDot(e: string, i: nat, j: nat)
    requires i < j < |e| && e[j] == '.' && Plain(e[i + 1..j]) && Plain(e[j + 1..])
    ensures Plain(e[i + 1..])
  {
    var domain := e[i + 1..];
    forall k | 0 <= k < |domain| ensures PlainChar(domain[k]) {
      if k < j - i - 1 {
        assert domain[k] == e[i + 1..j][k];
      } else if k > j - i - 1 {
        assert domain[k] == e[j + 1..][k - (j - i)];
      } else {
        assert domain[k] == '.';
      }
    }
  }

  /** The one username error reported, if any: required, then length, then characters. */
  function UsernameError(username: Option<string>): Option<ValidationError>
  {
    if !Given(username) then Some(UsernameRequired)
    else if Utf16Length(username.value) < 3 || Utf16Length(username.value) > 20 then Some(UsernameLength)
    else if !(forall k :: 0 <= k < |username.value| ==> WordChar(username.value[k])) then Some(UsernameChars)
    else None
  }

  function PasswordError(password: Option<string>, required: ValidationError, length: ValidationError): Option<ValidationError>
  {
    if !Given(password) then Some(required)
    else if !ValidPasswordLength(password.value) then Some(length)
    else None
  }

  /** The email is checked only when it is a non-empty string. */
  function EmailError(email: Option<string>): Option<ValidationError>
  {
    if Given(email) && !EmailMatches(email.value) then Some(EmailFormat) else None
  }

  function Listed(e: Option<ValidationError>): seq<ValidationError>
  {
    if e.Some? then [e.value] else []
  }

  /** The errors validateRegister lists: username, password and email, in that order. */
  function RegisterErrors(username: Option<string>, password: Option<string>, email: Option<string>): seq<ValidationError>
  {
    Listed(UsernameError(username)) + Listed(PasswordError(password, PasswordRequired, PasswordLength)) +
    Listed(EmailError(email))
  }

  /** A registration passes exactly when the username, the password and any given email are well formed. */
  lemma RegisterAccepts(username: Option<string>, password: Option<string>, email: Option<string>)
    ensures |RegisterErrors(username, password, email)| == 0 <==>
      Given(username) && ValidUsername(username.value) &&
      Given(password) && ValidPasswordLength(password.value) &&
      (Given(email) ==> EmailShape(email.value))
  {
    if Given(email) {
      EmailMatchesShape(email.value);
    }
  }

  /** validateRegister: the username, password and email errors, in that order. */
  method ValidateRegister(username: Option<string>, password: Option<string>, email: Option<string>)
    returns (v: Verdict)
    ensures v == VerdictOf(RegisterErrors(username, password, email))
  {
    var errors: seq<ValidationError> := [];
    if !Given(username) {
      errors := errors + [UsernameRequired];
    } else if Utf16Length(username.value) < 3 || Utf16Length(username.value) > 20 {
      errors := errors + [UsernameLength];
    } else if !(forall k :: 0 <= k < |username.value| ==> WordChar(username.value[k])) {
      errors := errors + [UsernameChars];
    }
    assert errors == Listed(UsernameError(username));
    if !Given(password) {
      errors := errors + [PasswordRequired];
    } else if Utf16Length(password.value) < 6 || Utf16Length(password.value) > 50 {
      errors := errors + [PasswordLength];
    }
    assert errors == Listed(UsernameError(username)) + Listed(PasswordError(password, PasswordRequired, PasswordLength));
    if Given(email) {
      if !EmailMatches(email.value) {
        errors := errors + [EmailFormat];
      }
    }
    v := VerdictOf(errors);
  }

  /** validateLogin: presence and type of username and password only. */
  method ValidateLogin(username: Option<string>, password: Option<string>) returns (v: Verdict)
    ensures v.Next? <==> Given(username) && Given(password)
    ensures v.Rejected? ==>
      v.details == (if Given(username) then [] else [UsernameRequired]) + (if Given(password) then [] else [PasswordRequired])
  {
    var errors: seq<ValidationError> := [];
    if !Given(username) {
      errors := errors + [UsernameRequired];
    }
    if !Given(password) {
      errors := errors + [PasswordRequired];
    }
    v := VerdictOf(errors);
  }

  /** validateChangePassword: the old password must be given and the new one be 6-50 code units long. */
  method ValidateChangePassword(oldPassword: Option<string>, newPassword: Option<string>) returns (v: Verdict)
    ensures v == VerdictOf((if Given(oldPassword) then [] else [OldPasswordRequired]) +
                           Listed(PasswordError(newPassword, NewPasswordRequired, NewPasswordLength)))
    ensures v.Next? <==> Given(oldPassword) && Given(newPassword) && ValidPasswordLength(newPassword.value)
  {
    var errors: seq<ValidationError> := [];
    if !Given(oldPassword) {
      errors := errors + [OldPasswordRequired];
    }
    if !Given(newPassword) {
      errors := errors + [NewPasswordRequired];
    } else if Utf16Length(newPassword.value) < 6 || Utf16Length(newPassword.value) > 50 {
      errors := errors + [NewPasswordLength];
    }
    v := VerdictOf(errors);
  }

  /** At most one username error is listed, and it comes first. */
  lemma OneUsernameError(username: Option<string>, password: Option<string>, email: Option<string>)
    ensures var errors := RegisterErrors(username, password, email);
      |errors| <= 3 &&
      (UsernameError(username).Some? ==> errors[0] == UsernameError(username).value) &&
      (EmailError(email).Some? ==> errors[|errors| - 1] == EmailFormat)
  {
  }

  /** A username of the right length with a character outside [a-zA-Z0-9_] is refused with the character error. */
  lemma HyphenRefused()
    ensures UsernameError(Some("ab-c")) == Some(UsernameChars)
  {
    assert !WordChar("ab-c"[2]);
  }

  /** An accepted username is all ASCII, so its code units and its characters agree in number. */
  lemma UsernameUnitsAreChars(u: string)
    requires ValidUsername(u)
    ensures Utf16Length(u) == |u|
  {
    forall k | 0 <= k < |u| ensures u[k] as int < 0x1_0000 {
      assert WordChar(u[k]);
    }
  }

  /**
   * "a" followed by U+1F600 is two characters but three code units: it passes the length test and
   * is refused for its characters, not for its length.
   */
  lemma AstralUsernameLength()
    ensures |"a\U{1F600}"| == 2
    ensures UsernameError(Some("a\U{1F600}")) == Some(UsernameChars)
  {
    assert Utf16Length("a\U{1F600}") == 3 by {
      assert "a\U{1F600}"[1..] == "\U{1F600}";
      assert "\U{1F600}"[1..] == "";
    }
    assert !WordChar("a\U{1F600}"[1]);
  }

  /** Three characters above U+FFFF make a password of six code units, long enough. */
  lemma AstralPasswordLength()
    ensures PasswordError(Some("\U{1F600}\U{1F601}\U{1F602}"), PasswordRequired, PasswordLength).None?
  {
    var p := "\U{1F600}\U{1F601}\U{1F602}";
    assert p[1..] == "\U{1F601}\U{1F602}";
    assert p[1..][1..] == "\U{1F602}";
    assert p[1..][1..][1..] == "";
  }
}
