/** Registration (ui/usuario/CadastroUsuarioActivity.kt, `createAccount` and
    `saveUserToDatabase`): five trimmed fields are checked in order, the
    account is created with the trimmed e-mail and password, and a `User`
    node is written under the new uid. */
module Registration {
  import opened Wrappers
  import opened KotlinText
  import opened Records
  import opened Store

  /** The five text inputs, as typed. */
  datatype RegistrationForm = RegistrationForm(
    name: string, phone: string, email: string, password: string, confirmPassword: string)

  /** The check that stopped the registration, in the order the checks run. */
  datatype RegistrationError = FieldsMissing | PasswordTooShort | PasswordsDiffer

  const MinPasswordLength: nat := 6

  predicate AnyFieldEmpty(form: RegistrationForm) {
    || Trim(form.name) == [] || Trim(form.phone) == [] || Trim(form.email) == []
    || Trim(form.password) == [] || Trim(form.confirmPassword) == []
  }

  /** The guard chain of `createAccount`: on success, the credentials the
      account is created with. */
  function ValidateRegistration(form: RegistrationForm): (r: Result<Credentials, RegistrationError>)
    ensures r == Err(FieldsMissing) <==> AnyFieldEmpty(form)
    ensures r == Err(PasswordTooShort) <==>
      !AnyFieldEmpty(form) && Utf16Length(Trim(form.password)) < MinPasswordLength
    ensures r == Err(PasswordsDiffer) <==>
      && !AnyFieldEmpty(form) && Utf16Length(Trim(form.password)) >= MinPasswordLength
      && Trim(form.password) != Trim(form.confirmPassword)
    ensures r.Ok? <==>
      && !AnyFieldEmpty(form) && Utf16Length(Trim(form.password)) >= MinPasswordLength
      && Trim(form.password) == Trim(form.confirmPassword)
    ensures r.Ok? ==> r.value == Credentials(Trim(form.email), Trim(form.password))
  {
    var password := Trim(form.password);
    if AnyFieldEmpty(form) then Err(FieldsMissing)
    else if Utf16Length(password) < MinPasswordLength then Err(PasswordTooShort)
    else if password != Trim(form.confirmPassword) then Err(PasswordsDiffer)
    else Ok(Credentials(Trim(form.email), password))
  }

  /** The `User` built in `saveUserToDatabase`. */
  function RegisteredUser(uid: string, form: RegistrationForm): (u: User)
    ensures u.uid == uid
    ensures u.name == Trim(form.name) && u.email == Trim(form.email) && u.phone == Trim(form.phone)
  {
    User(uid, Trim(form.name), Trim(form.email), Trim(form.phone))
  }

  /** How `createAccount` ends. A failed database write does not undo the
      account, so it is not an outcome of its own. */
  datatype RegistrationOutcome = Rejected(error: RegistrationError) | AccountFailed | AccountCreated

  /** `createAccount` followed by `saveUserToDatabase`. `createOk` is the
      auth backend's answer, `currentUid` the user it then reports. */
  method CreateAccount(store: UsersStore, form: RegistrationForm, createOk: bool,
                       currentUid: Option<string>, writeOk: bool)
    returns (outcome: RegistrationOutcome)
    modifies store
    ensures ValidateRegistration(form).Err? ==>
      outcome == Rejected(ValidateRegistration(form).error) && store.users == old(store.users)
    ensures ValidateRegistration(form).Ok? && !createOk ==>
      outcome == AccountFailed && store.users == old(store.users)
    ensures ValidateRegistration(form).Ok? && createOk ==> outcome == AccountCreated
    ensures ValidateRegistration(form).Ok? && createOk && currentUid.Some? && writeOk ==>
      store.users == old(store.users)[currentUid.value := UserToFields(RegisteredUser(currentUid.value, form))]
    ensures currentUid.None? || !writeOk ==> store.users == old(store.users)
  {
    var r := ValidateRegistration(form);
    if r.Err? {
      return Rejected(r.error);
    }
    if !createOk {
      return AccountFailed;
    }
    outcome := AccountCreated;
    if currentUid.Some? {
      var user := RegisteredUser(currentUid.value, form);
      store.SetValue(currentUid.value, UserToFields(user), writeOk);
    }
  }

  /** The length check counts code units, so a password that passes has at
      least three characters, not six. */
  lemma AcceptedPasswordLength(form: RegistrationForm)
    requires ValidateRegistration(form).Ok?
    ensures |Trim(form.password)| >= 3
  {
  }

  /** Three characters outside the Basic Multilingual Plane are six code units. */
  lemma AstralPasswordLength()
    ensures Utf16Length("\U{1F600}\U{1F600}\U{1F600}") == 6
  {
    var p := "\U{1F600}\U{1F600}\U{1F600}";
    assert forall k :: 0 <= k < |p| ==> IsAstral(p[k]);
  }

  /** Five ASCII characters are five code units. */
  lemma ShortPasswordLength()
    ensures Utf16Length("12345") == 5
  {
    var p := "12345";
    assert forall k :: 0 <= k < |p| ==> !IsAstral(p[k]);
  }

  /** Three characters outside the Basic Multilingual Plane make six code
      units and pass the length check. */
  lemma AstralPasswordAccepted(form: RegistrationForm)
    requires !AnyFieldEmpty(form)
    requires Trim(form.password) == "\U{1F600}\U{1F600}\U{1F600}" == Trim(form.confirmPassword)
    ensures ValidateRegistration(form).Ok?
  {
    AstralPasswordLength();
  }

  /** Five characters are too few, even when the confirmation differs: the
      length check runs first. */
  lemma ShortPasswordReportedFirst(form: RegistrationForm)
    requires !AnyFieldEmpty(form)
    requires Trim(form.password) == "12345" && Trim(form.confirmPassword) == "54321"
    ensures ValidateRegistration(form) == Err(PasswordTooShort)
  {
    ShortPasswordLength();
  }

  /** The registration node stores the uid, the trimmed name and the trimmed
      phone; `Records.RegistrationChildrenNotUsuario` shows the profile
      screen's record has no property for them. */
  lemma RegistrationNodeFields(uid: string, form: RegistrationForm)
    ensures var f := UserToFields(RegisteredUser(uid, form));
      f["uid"] == uid && f["name"] == Trim(form.name) && f["phone"] == Trim(form.phone)
  {
  }
}
