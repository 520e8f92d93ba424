/** The login screen (ui/login/LoginActivity.kt): the message shown for a
    failed Google sign-in, the empty-credential guard of the e-mail login,
    and the decision to leave for the main screen. */
module Login {
  import opened Wrappers
  import opened KotlinText
  import opened Records
  import opened Adapter

  const ConfigurationMessage: string := "Erro de configuração: " + "Verifique o SHA-1 no Firebase Console"
  const InternalErrorMessage: string := "Erro interno do Google Sign-In"
  const CancelledMessage: string := "Login cancelado pelo usuário"

  /** Kotlin's string template of a nullable string: null prints as "null". */
  function Template(s: Option<string>): string {
    s.GetOr("null")
  }

  /** The general message: "Erro", the code, a colon and the localized
      message, printed as "null" when there is none. */
  function GenericMessage(code: int, localizedMessage: Option<string>): (m: string)
    ensures "Erro " + IntToString(code) <= m
    ensures |m| >= |Template(localizedMessage)| && m[|m| - |Template(localizedMessage)|..] == Template(localizedMessage)
  {
    "Erro " + IntToString(code) + ": " + Template(localizedMessage)
  }

  /** The `when` over the status code of a failed Google sign-in. */
  function GoogleSignInMessage(code: int, localizedMessage: Option<string>): (m: string)
    ensures code == 10 ==> m == ConfigurationMessage
    ensures code == 12500 ==> m == InternalErrorMessage
    ensures code == 12501 ==> m == CancelledMessage
    ensures code !in {10, 12500, 12501} ==> m == GenericMessage(code, localizedMessage)
  {
    match code
    case 10 => ConfigurationMessage
    case 12500 => InternalErrorMessage
    case 12501 => CancelledMessage
    case _ => GenericMessage(code, localizedMessage)
  }

  /** The general message with its separator spelled out. */
  lemma GenericMessageParts(code: int, msg: Option<string>)
    ensures GenericMessage(code, msg) == "Erro " + (IntToString(code) + [':'] + (" " + Template(msg)))
    ensures |GenericMessage(code, msg)| > 5
    ensures GenericMessage(code, msg)[5] == IntToString(code)[0]
  {
    assert ": " == [':'] + " ";
  }

  /** The general messages of two codes coincide only when the codes do. */
  lemma GenericMessageDeterminesCode(c1: int, c2: int, m1: Option<string>, m2: Option<string>)
    requires IsInt32(c1) && IsInt32(c2)
    requires GenericMessage(c1, m1) == GenericMessage(c2, m2)
    ensures c1 == c2
  {
    GenericMessageParts(c1, m1);
    GenericMessageParts(c2, m2);
    var r1 := IntToString(c1) + [':'] + (" " + Template(m1));
    var r2 := IntToString(c2) + [':'] + (" " + Template(m2));
    assert r1 == GenericMessage(c1, m1)[5..];
    assert r2 == GenericMessage(c2, m2)[5..];
    NumberBeforeSeparator(c1, c2, ':', " " + Template(m1), " " + Template(m2));
  }

  /** No general message is one of the three fixed ones: after "Erro " it
      continues with a digit or a minus sign. */
  lemma GenericMessageNotFixed(code: int, msg: Option<string>)
    ensures GenericMessage(code, msg) != ConfigurationMessage
    ensures GenericMessage(code, msg) != InternalErrorMessage
    ensures GenericMessage(code, msg) != CancelledMessage
  {
    GenericMessageParts(code, msg);
    var c := IntToString(code)[0];
    assert IsDigit(c) || c == '-';
    assert ConfigurationMessage[5] == 'd' && InternalErrorMessage[5] == 'i';
    assert CancelledMessage[0] == 'L' && GenericMessage(code, msg)[0] == 'E';
  }

  /** The message shown identifies the status code, whatever the localized
      messages were. */
  lemma MessageDeterminesCode(c1: int, c2: int, m1: Option<string>, m2: Option<string>)
    requires IsInt32(c1) && IsInt32(c2)
    requires GoogleSignInMessage(c1, m1) == GoogleSignInMessage(c2, m2)
    ensures c1 == c2
  {
    GenericMessageNotFixed(c1, m1);
    GenericMessageNotFixed(c2, m2);
    if c1 !in {10, 12500, 12501} && c2 !in {10, 12500, 12501} {
      GenericMessageDeterminesCode(c1, c2, m1, m2);
    }
  }

  /** A code outside the three known ones with no localized message. */
  lemma UnknownCodeExample()
    ensures GoogleSignInMessage(7, None) == "Erro 7: null"
  {
    assert IntToString(7) == "7";
  }

  /** The e-mail login's guard: trimmed e-mail and password, or nothing when
      either is empty. */
  function LoginCredentials(email: string, password: string): (r: Option<Credentials>)
    ensures r.None? <==> Trim(email) == [] || Trim(password) == []
    ensures r.Some? ==> r.value == Credentials(Trim(email), Trim(password))
  {
    if Trim(email) == [] || Trim(password) == [] then None
    else Some(Credentials(Trim(email), Trim(password)))
  }

  /** Where the login screen goes next. */
  datatype Navigation = StayOnLogin | OpenMain(welcome: string)

  /** `updateUI`: only a signed-in user leaves the login screen, greeted by
      display name, else by e-mail. */
  function UpdateUI(user: Option<AuthUser>): (nav: Navigation)
    ensures nav.OpenMain? <==> user.Some?
    ensures user.Some? && user.value.displayName.Some? ==>
      nav.welcome == "Bem-vindo, " + user.value.displayName.value + "!"
    ensures user.Some? && user.value.displayName.None? ==>
      nav.welcome == "Bem-vindo, " + Template(user.value.email) + "!"
  {
    if user.None? then StayOnLogin
    else
      var u := user.value;
      OpenMain("Bem-vindo, " + Template(if u.displayName.Some? then u.displayName else u.email) + "!")
  }

  /** `signIn` and `firebaseAuthWithGoogle`: a failed attempt stays on the
      login screen; a successful one hands the current user to `updateUI`. */
  function AfterSignIn(success: bool, current: Option<AuthUser>): (nav: Navigation)
    ensures nav.OpenMain? <==> success && current.Some?
  {
    if success then UpdateUI(current) else StayOnLogin
  }
}
