/** The sign-in form's checks, made before any request, and the request it
    then sends: a registration or a credential check, always under the
    lower-cased username. */
module Login {
  import opened Strings
  import opened SurveyTypes
  import DataApi

  const ShortUsernameMessage: string := "يجب أن يكون اسم المستخدم 3 أحرف على الأقل."
  const UsernameSpacesMessage: string := "يجب ألا يحتوي اسم المستخدم على مسافات."
  const ShortPasswordMessage: string := "يجب أن تكون كلمة المرور 6 أحرف على الأقل."
  const PasswordMismatchMessage: string := "كلمتا المرور غير متطابقتين."

  /** What pressing the button leads to: a `saveUser` call, an
      `authenticateUser` call, or an error message with no call. */
  datatype LoginCall =
    | RegisterCall(user: User)
    | AuthenticateCall(username: string, password: string)
    | Rejected(message: string)

  /** `LoginPage.handleSubmit`, up to the request: the checks in the order
      the form makes them, each failing one reported with its own message. */
  function HandleLogin(isRegister: bool, username: string, password: string, confirmPassword: string): (r: LoginCall)
    ensures r == Rejected(ShortUsernameMessage) <==> Utf16Length(Trim(username)) < 3
    ensures r == Rejected(UsernameSpacesMessage) <==> Utf16Length(Trim(username)) >= 3 && HasWhitespace(username)
    ensures r == Rejected(ShortPasswordMessage) <==>
      Utf16Length(Trim(username)) >= 3 && !HasWhitespace(username) && Utf16Length(password) < 6
    ensures r == Rejected(PasswordMismatchMessage) <==>
      Utf16Length(Trim(username)) >= 3 && !HasWhitespace(username) && Utf16Length(password) >= 6
      && isRegister && password != confirmPassword
    ensures r.RegisterCall? ==> isRegister && r.user == User(ToLower(username), Some(password))
    ensures r.AuthenticateCall? ==> !isRegister && r.username == ToLower(username) && r.password == password
  {
    if Utf16Length(Trim(username)) < 3 then Rejected(ShortUsernameMessage)
    else if HasWhitespace(username) then Rejected(UsernameSpacesMessage)
    else if Utf16Length(password) < 6 then Rejected(ShortPasswordMessage)
    else if isRegister then
      if password != confirmPassword then Rejected(PasswordMismatchMessage)
      else RegisterCall(User(ToLower(username), Some(password)))
    else AuthenticateCall(ToLower(username), password)
  }

  /** The user signed in after the call: the lower-cased username, when the
      form sent a call and the server accepted it. */
  function SignedIn(call: LoginCall, serverAccepted: bool): (r: Option<string>)
    ensures r.Some? <==> !call.Rejected? && serverAccepted
    ensures r.Some? ==> r.value == SentName(call)
  {
    match call
    case RegisterCall(user) => if serverAccepted then Some(user.username) else None
    case AuthenticateCall(name, _) => if serverAccepted then Some(name) else None
    case Rejected(_) => None
  }

  /** The form sends a request exactly when every rule holds. */
  lemma LoginAcceptedIff(isRegister: bool, username: string, password: string, confirmPassword: string)
    ensures !HandleLogin(isRegister, username, password, confirmPassword).Rejected? <==>
      && Utf16Length(Trim(username)) >= 3
      && !HasWhitespace(username)
      && Utf16Length(password) >= 6
      && (isRegister ==> password == confirmPassword)
  {
  }

  lemma {:induction false} LowerKeepsLength(s: string)
    ensures Utf16Length(ToLower(s)) == Utf16Length(s)
  {
    if s != [] {
      LowerKeepsLength(s[1..]);
      assert ToLower(s)[1..] == ToLower(s[1..]);
    }
  }

  lemma {:induction false} LowerIdempotent(s: string)
    ensures ToLower(ToLower(s)) == ToLower(s)
  {
    if s != [] {
      LowerIdempotent(s[1..]);
      assert ToLower(s)[1..] == ToLower(s[1..]);
    }
  }

  /** The name a request carries, after the checks. */
  function SentName(call: LoginCall): string
    requires !call.Rejected?
  {
    if call.RegisterCall? then call.user.username else call.username
  }

  /** Every name the form sends is at least 3 UTF-16 units long, has no
      whitespace and no upper-case ASCII letter, and is its own lower-case
      form. */
  lemma SentNameShape(isRegister: bool, username: string, password: string, confirmPassword: string, call: LoginCall)
    requires call == HandleLogin(isRegister, username, password, confirmPassword) && !call.Rejected?
    ensures var name := SentName(call);
      && Utf16Length(name) >= 3
      && !HasWhitespace(name)
      && (forall i :: 0 <= i < |name| ==> !('A' <= name[i] <= 'Z'))
      && ToLower(name) == name
  {
    var name := ToLower(username);
    NoWhitespaceTrim(username);
    LowerKeepsLength(username);
    LowerIdempotent(username);
  }

  /** After registering through the form, signing in with the same
      password and the username typed in any ASCII capitalisation is
      accepted by the server. */
  lemma RegisterThenSignIn(kv: DataApi.Store, typed: string, typedAgain: string, password: string)
    requires HandleLogin(true, typed, password, password).RegisterCall?
    requires ToLower(typedAgain) == ToLower(typed) && !HasWhitespace(typedAgain)
    requires ToLower(typed) !in DataApi.Directory(kv)
    ensures var user := HandleLogin(true, typed, password, password).user;
      var call := HandleLogin(false, typedAgain, password, "");
      && call == AuthenticateCall(ToLower(typed), password)
      && DataApi.Authenticates(DataApi.RegisteredStore(kv, user), call.username, Some(call.password))
  {
    var user := HandleLogin(true, typed, password, password).user;
    assert user == User(ToLower(typed), Some(password));
    LoginAcceptedIff(true, typed, password, password);
    NoWhitespaceTrim(typed);
    NoWhitespaceTrim(typedAgain);
    LowerKeepsLength(typed);
    LowerKeepsLength(typedAgain);
    assert Utf16Length(Trim(typedAgain)) >= 3;
    LoginAcceptedIff(false, typedAgain, password, "");
    DataApi.RegisterThenAuthenticate(kv, user);
  }
}
