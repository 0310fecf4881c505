/** Field validation and the submission workflow of the login and
    registration pages (js/auth.js).

    A field is the triple the validator reads from an input element: its
    value, its `type` attribute and its `id`. The page's `#password` input,
    which the confirmation check compares against, is passed as an optional
    value. The `AuthManager` class holds what the workflow changes: the
    submit button, the browser's key/value store, the notifications shown
    and the page the browser is sent to. The remote call is not modelled:
    its outcome is a parameter. */
module Auth {
  import opened Wrappers
  import opened Text
  import opened Email
  import opened Passwords

  /** An input element as `validateField` sees it. */
  datatype Field = Field(value: string, inputType: string, id: string)

  /** `validateField`'s outcome: `isValid` and the error message shown under the field. */
  datatype Verdict = Verdict(isValid: bool, errorMessage: string)

  const RequiredMessage := "This field is required"
  const EmailMessage := "Please enter a valid email address"
  const PasswordMessage := "Password must meet all requirements"
  const MismatchMessage := "Passwords do not match"

  /** Truthiness of a submitted string value: only the empty string is falsy. */
  predicate Present(value: string) { value != "" }

  /** What `validateField` accepts, rule by rule: a non-blank trimmed value;
      for an e-mail input, the address pattern; for the `password` input,
      the requirement gate; for the `confirmPassword` input, equality with
      the page's password input when there is one. */
  ghost predicate Acceptable(input: Field, pagePassword: Option<string>) {
    var value := Trim(input.value);
    && value != ""
    && (input.inputType == "email" ==> MatchesEmailPattern(value))
    && (input.inputType != "email" && input.id == "password" ==> ValidatePassword(value))
    && (input.inputType != "email" && input.id == "confirmPassword" && pagePassword.Some? ==>
          value == pagePassword.value)
  }

  /** `validateField`: the first rule that fails decides the message. The
      value is trimmed for every rule, but the page's password is compared
      as typed. */
  method ValidateField(input: Field, pagePassword: Option<string>) returns (v: Verdict)
    ensures v.isValid <==> Acceptable(input, pagePassword)
    ensures v.isValid <==> v.errorMessage == ""
    ensures Trim(input.value) == "" ==> v.errorMessage == RequiredMessage
    ensures Trim(input.value) != "" && input.inputType == "email" && !v.isValid ==>
              v.errorMessage == EmailMessage
    ensures Trim(input.value) != "" && input.inputType != "email" && input.id == "password" && !v.isValid ==>
              v.errorMessage == PasswordMessage
    ensures Trim(input.value) != "" && input.inputType != "email" && input.id != "password" && !v.isValid ==>
              v.errorMessage == MismatchMessage
  {
    var value := Trim(input.value);
    var isValid := true;
    var errorMessage := "";
    if value == "" {
      isValid := false;
      errorMessage := RequiredMessage;
    } else if input.inputType == "email" {
      if !IsEmail(value) {
        isValid := false;
        errorMessage := EmailMessage;
      }
    } else if input.id == "password" {
      isValid := ValidatePassword(value);
      if !isValid {
        errorMessage := PasswordMessage;
      }
    } else if input.id == "confirmPassword" {
      if pagePassword.Some? && value != pagePassword.value {
        isValid := false;
        errorMessage := MismatchMessage;
      }
    }
    v := Verdict(isValid, errorMessage);
  }

  /** Both login fields are filled in and accepted. */
  ghost predicate LoginAccepted(email: Field, password: Field) {
    var page := Some(password.value);
    Present(email.value) && Acceptable(email, page) && Present(password.value) && Acceptable(password, page)
  }

  /** All four registration fields are filled in and accepted. */
  ghost predicate RegisterAccepted(name: Field, email: Field, password: Field, confirm: Field) {
    var page := Some(password.value);
    && Present(name.value) && Acceptable(name, page)
    && Present(email.value) && Acceptable(email, page)
    && Present(password.value) && Acceptable(password, page)
    && Present(confirm.value) && Acceptable(confirm, page)
  }

  /** A blank value is never accepted, so the `!value` test before each
      field check rejects nothing the check itself would accept. */
  lemma PresenceImpliedByAcceptance(input: Field, pagePassword: Option<string>)
    requires Acceptable(input, pagePassword)
    ensures Present(input.value)
  {
  }

  /** The test each form applies to one of its fields,
      `!value || !validateField(input)`, negated: the submitted value is
      non-empty and the field check accepts it. */
  method CheckPresentField(input: Field, pagePassword: Option<string>) returns (ok: bool)
    ensures ok <==> Present(input.value) && Acceptable(input, pagePassword)
  {
    if !Present(input.value) {
      return false;
    }
    var v := ValidateField(input, pagePassword);
    ok := v.isValid;
  }

  /** `validateLoginForm`: both fields are checked, whatever the first
      gives. The inputs are the page's `#email` and `#password`. */
  method ValidateLoginForm(email: Field, password: Field) returns (isValid: bool)
    requires email.id == "email" && password.id == "password"
    ensures isValid <==> LoginAccepted(email, password)
  {
    isValid := true;
    var page := Some(password.value);
    var ok := CheckPresentField(email, page);
    if !ok {
      isValid := false;
    }
    ok := CheckPresentField(password, page);
    if !ok {
      isValid := false;
    }
  }

  /** The live confirmation check and the field check agree on every
      non-empty confirmation typed without surrounding whitespace. */
  lemma MatchAgreesWithConfirmField(password: string, confirm: string, inputType: string)
    requires confirm != "" && IsTrimmed(confirm) && inputType != "email"
    ensures ValidatePasswordMatch(password, confirm)
            <==> Acceptable(Field(confirm, inputType, "confirmPassword"), Some(password))
  {
    TrimOfTrimmed(confirm);
  }

  /** They disagree on an empty confirmation: the live check lets it pass,
      the field check reports it as required. */
  lemma EmptyConfirmDisagreement(password: string, inputType: string)
    ensures ValidatePasswordMatch(password, "")
    ensures !Acceptable(Field("", inputType, "confirmPassword"), Some(password))
  {
    assert Trim("") == "";
  }

  /** Only the confirmation is trimmed before the comparison: a password
      typed identically in both fields with a trailing space passes the
      password check and fails the confirmation check. */
  lemma TrailingSpaceAsymmetry()
    ensures Acceptable(Field("Passw0rd ", "password", "password"), Some("Passw0rd "))
    ensures !Acceptable(Field("Passw0rd ", "password", "confirmPassword"), Some("Passw0rd "))
  {
    var typed := "Passw0rd ";
    TrimOfTypedPassword();
    assert IsAsciiUpper(Trim(typed)[0]) && IsAsciiDigit(Trim(typed)[5]);
  }

  lemma TrimOfTypedPassword()
    ensures Trim("Passw0rd ") == "Passw0rd"
  {
    var typed := "Passw0rd ";
    assert typed == "Passw0rd" + [' '];
    assert IsTrimmed("Passw0rd");
    assert TrimStart(typed) == typed;
    assert typed[..|typed| - 1] == "Passw0rd";
    TrimOfTrimmed("Passw0rd");
    assert TrimEnd("Passw0rd") == "Passw0rd";
  }

  /** A confirmation that, once trimmed, differs from the password input
      blocks registration, whatever the other fields hold. */
  lemma MismatchBlocksRegistration(name: Field, email: Field, password: Field, confirm: Field)
    requires confirm.id == "confirmPassword" && confirm.inputType != "email"
    requires Trim(confirm.value) != password.value
    ensures !RegisterAccepted(name, email, password, confirm)
  {
  }

  /** The sample login passes validation. */
  lemma SampleLoginAccepted()
    ensures LoginAccepted(Field("user@example.com", "email", "email"),
                          Field("Passw0rd", "password", "password"))
  {
    SampleEmailAcceptable(Some("Passw0rd"));
    SamplePasswordAcceptable(Some("Passw0rd"));
  }

  lemma SampleEmailAcceptable(page: Option<string>)
    ensures Acceptable(Field("user@example.com", "email", "email"), page)
  {
    var address := "user@example.com";
    assert IsTrimmed(address);
    TrimOfTrimmed(address);
    SampleAddressMatches();
  }

  lemma SamplePasswordAcceptable(page: Option<string>)
    ensures Acceptable(Field("Passw0rd", "password", "password"), page)
  {
    SamplePasswordTrimmed();
    SamplePasswordPassesGate();
  }

  lemma SamplePasswordTrimmed()
    ensures Trim("Passw0rd") == "Passw0rd"
  {
    var secret := "Passw0rd";
    assert IsTrimmed(secret);
    TrimOfTrimmed(secret);
  }

  lemma SamplePasswordPassesGate()
    ensures ValidatePassword("Passw0rd")
  {
    var secret := "Passw0rd";
    assert IsAsciiUpper(secret[0]) && IsAsciiDigit(secret[5]);
  }

  // ---------------------------------------------------------------------
  // The submission workflow

  datatype Kind = Success | Error | Info

  /** A message shown by `showNotification`. */
  datatype Notification = Notification(message: string, kind: Kind)

  datatype Form = LoginForm | RegisterForm

  /** The remote call a handler is awaiting, with what its continuation
      still needs. */
  datatype Pending = NoCall | LoginCall(email: string, remember: bool) | RegisterCall

  const UserEmailKey := "userEmail"
  const RememberKey := "rememberLogin"
  const DashboardPage := "index.html"
  const LoginPage := "login.html"
  const BusyLabel := "Processing..."
  const TermsMessage := "Please accept the terms and conditions"
  const LoginSucceeded := "Login successful! Redirecting..."
  const LoginFailed := "Login failed. Please check your credentials."
  const RegisterSucceeded := "Account created successfully! Please sign in."
  const RegisterFailed := "Registration failed. Please try again."

  /** The label a submit button gets back once its form is idle again. */
  function IdleLabel(form: Form): string {
    match form
    case LoginForm => "Sign In"
    case RegisterForm => "Create Account"
  }

  /** The store after a successful login: `userEmail` holds the address as
      submitted, `rememberLogin` is set to `"true"` only when asked for, and
      no other key changes. */
  function StoreLogin(storage: map<string, string>, email: string, remember: bool): (r: map<string, string>)
    ensures UserEmailKey in r && r[UserEmailKey] == email
    ensures remember ==> RememberKey in r && r[RememberKey] == "true"
    ensures !remember ==> (RememberKey in r <==> RememberKey in storage)
    ensures !remember && RememberKey in storage ==> r[RememberKey] == storage[RememberKey]
    ensures forall k :: k != UserEmailKey && k != RememberKey ==>
              (k in r <==> k in storage) && (k in storage ==> r[k] == storage[k])
  {
    var remembered := if remember then storage[RememberKey := "true"] else storage;
    remembered[UserEmailKey := email]
  }

  class AuthManager {
    /** The page's submit button: `disabled`, and its label. */
    var buttonDisabled: bool
    var buttonLabel: string
    /** `localStorage` */
    var storage: map<string, string>
    /** Every notification shown so far, oldest first. */
    var notifications: seq<Notification>
    /** The page a scheduled navigation goes to, once one is scheduled. */
    var redirect: Option<string>
    /** The remote call in flight, if any. */
    var pending: Pending
    /** How many remote calls the page has issued. */
    ghost var calls: nat

    /** The button is disabled and busy exactly while a call is in flight. */
    ghost predicate Valid()
      reads this
    {
      && (buttonDisabled <==> !pending.NoCall?)
      && (buttonDisabled ==> buttonLabel == BusyLabel)
    }

    /** `showNotification` removes the notification on screen before adding
        its own, so only the latest one is visible. */
    function Visible(): Option<Notification>
      reads this
    {
      if notifications == [] then None else Some(notifications[|notifications| - 1])
    }

    /** A freshly loaded page over the store left by earlier visits. */
    constructor (idleLabel: string, stored: map<string, string>)
      ensures Valid() && !buttonDisabled && buttonLabel == idleLabel && storage == stored
      ensures notifications == [] && redirect == None && pending == NoCall && calls == 0
    {
      buttonDisabled := false;
      buttonLabel := idleLabel;
      storage := stored;
      notifications := [];
      redirect := None;
      pending := NoCall;
      calls := 0;
    }

    /** `showNotification` */
    method ShowNotification(message: string, kind: Kind)
      modifies this`notifications
      ensures notifications == old(notifications) + [Notification(message, kind)]
      ensures Visible() == Some(Notification(message, kind))
    {
      notifications := notifications + [Notification(message, kind)];
    }

    /** `setButtonLoading` */
    method SetButtonLoading(form: Form, loading: bool)
      modifies this`buttonDisabled, this`buttonLabel
      ensures buttonDisabled == loading
      ensures buttonLabel == if loading then BusyLabel else IdleLabel(form)
    {
      if loading {
        buttonDisabled := true;
        buttonLabel := BusyLabel;
      } else {
        buttonDisabled := false;
        buttonLabel := IdleLabel(form);
      }
    }

    /** `validateRegisterForm`: all four fields and the terms box are
        checked without stopping early; an unticked box adds exactly one
        error notification, whatever the fields hold. */
    method ValidateRegisterForm(name: Field, email: Field, password: Field, confirm: Field, terms: bool)
      returns (isValid: bool)
      requires name.id == "name" && email.id == "email"
      requires password.id == "password" && confirm.id == "confirmPassword"
      modifies this`notifications
      ensures isValid <==> RegisterAccepted(name, email, password, confirm) && terms
      ensures notifications == old(notifications) + (if terms then [] else [Notification(TermsMessage, Error)])
    {
      isValid := true;
      var page := Some(password.value);
      var ok := CheckPresentField(name, page);
      if !ok {
        isValid := false;
      }
      ok := CheckPresentField(email, page);
      if !ok {
        isValid := false;
      }
      ok := CheckPresentField(password, page);
      if !ok {
        isValid := false;
      }
      ok := CheckPresentField(confirm, page);
      if !ok {
        isValid := false;
      }
      if !terms {
        ShowNotification(TermsMessage, Error);
        isValid := false;
      }
    }

    /** `handleLogin` up to its `await`: validate, then disable the button
        and issue the call. The page only fires `submit` while its submit
        button is enabled. */
    method SubmitLogin(email: Field, password: Field, remember: bool) returns (sent: bool)
      requires Valid() && !buttonDisabled
      requires email.id == "email" && password.id == "password"
      modifies this`buttonDisabled, this`buttonLabel, this`pending, this`calls
      ensures Valid()
      ensures sent <==> LoginAccepted(email, password)
      ensures !sent ==> !buttonDisabled && buttonLabel == old(buttonLabel) && pending == NoCall && calls == old(calls)
      ensures sent ==> buttonDisabled && buttonLabel == BusyLabel && calls == old(calls) + 1
      ensures sent ==> pending == LoginCall(email.value, remember)
    {
      sent := ValidateLoginForm(email, password);
      if sent {
        SetButtonLoading(LoginForm, true);
        pending := LoginCall(email.value, remember);
        calls := calls + 1;
      }
    }

    /** `handleLogin` after its `await`: on success store the session and
        schedule the dashboard; on failure only notify. The button is
        re-enabled either way (`finally`). */
    method SettleLogin(success: bool)
      requires Valid() && pending.LoginCall?
      modifies this
      ensures Valid() && !buttonDisabled && buttonLabel == IdleLabel(LoginForm)
      ensures pending == NoCall && calls == old(calls)
      ensures storage == if success then StoreLogin(old(storage), old(pending.email), old(pending.remember))
                         else old(storage)
      ensures notifications == old(notifications) + [if success then Notification(LoginSucceeded, Success)
                                                     else Notification(LoginFailed, Error)]
      ensures redirect == if success then Some(DashboardPage) else old(redirect)
    {
      var call := pending;
      if success {
        if call.remember {
          storage := storage[RememberKey := "true"];
        }
        storage := storage[UserEmailKey := call.email];
        ShowNotification(LoginSucceeded, Success);
        redirect := Some(DashboardPage);
      } else {
        ShowNotification(LoginFailed, Error);
      }
      pending := NoCall;
      SetButtonLoading(LoginForm, false);
    }

    /** `handleLogin`, with the remote call's outcome given. A rejected
        form changes nothing; an accepted one issues exactly one call,
        shows exactly one notification and leaves the button enabled. */
    method HandleLogin(email: Field, password: Field, remember: bool, success: bool)
      requires Valid() && !buttonDisabled
      requires email.id == "email" && password.id == "password"
      modifies this
      ensures Valid() && !buttonDisabled && pending == NoCall
      ensures !LoginAccepted(email, password) ==>
                && storage == old(storage) && notifications == old(notifications)
                && redirect == old(redirect) && buttonLabel == old(buttonLabel) && calls == old(calls)
      ensures LoginAccepted(email, password) ==>
                && calls == old(calls) + 1 && buttonLabel == IdleLabel(LoginForm)
                && storage == (if success then StoreLogin(old(storage), email.value, remember) else old(storage))
                && notifications == old(notifications) + [if success then Notification(LoginSucceeded, Success)
                                                          else Notification(LoginFailed, Error)]
                && redirect == (if success then Some(DashboardPage) else old(redirect))
    {
      var sent := SubmitLogin(email, password, remember);
      if sent {
        SettleLogin(success);
      }
    }

    /** `handleRegister` up to its `await`. A rejected form may still have
        added the terms notification; nothing else changes. */
    method SubmitRegister(name: Field, email: Field, password: Field, confirm: Field, terms: bool)
      returns (sent: bool)
      requires Valid() && !buttonDisabled
      requires name.id == "name" && email.id == "email"
      requires password.id == "password" && confirm.id == "confirmPassword"
      modifies this`buttonDisabled, this`buttonLabel, this`pending, this`calls, this`notifications
      ensures Valid()
      ensures sent <==> RegisterAccepted(name, email, password, confirm) && terms
      ensures notifications == old(notifications) + (if terms then [] else [Notification(TermsMessage, Error)])
      ensures !sent ==> !buttonDisabled && buttonLabel == old(buttonLabel) && pending == NoCall && calls == old(calls)
      ensures sent ==> buttonDisabled && buttonLabel == BusyLabel && pending == RegisterCall
      ensures sent ==> calls == old(calls) + 1
    {
      sent := ValidateRegisterForm(name, email, password, confirm, terms);
      if sent {
        SetButtonLoading(RegisterForm, true);
        pending := RegisterCall;
        calls := calls + 1;
      }
    }

    /** `handleRegister` after its `await`: notify, and on success schedule
        the login page. The store is never touched. */
    method SettleRegister(success: bool)
      requires Valid() && pending.RegisterCall?
      modifies this`buttonDisabled, this`buttonLabel, this`pending, this`notifications, this`redirect
      ensures Valid() && !buttonDisabled && buttonLabel == IdleLabel(RegisterForm)
      ensures pending == NoCall
      ensures notifications == old(notifications) + [if success then Notification(RegisterSucceeded, Success)
                                                     else Notification(RegisterFailed, Error)]
      ensures redirect == if success then Some(LoginPage) else old(redirect)
    {
      if success {
        ShowNotification(RegisterSucceeded, Success);
        redirect := Some(LoginPage);
      } else {
        ShowNotification(RegisterFailed, Error);
      }
      pending := NoCall;
      SetButtonLoading(RegisterForm, false);
    }

    /** `handleRegister`, with the remote call's outcome given. */
    method HandleRegister(name: Field, email: Field, password: Field, confirm: Field, terms: bool, success: bool)
      requires Valid() && !buttonDisabled
      requires name.id == "name" && email.id == "email"
      requires password.id == "password" && confirm.id == "confirmPassword"
      modifies this`buttonDisabled, this`buttonLabel, this`pending, this`calls, this`notifications, this`redirect
      ensures Valid() && !buttonDisabled && pending == NoCall
      ensures !(RegisterAccepted(name, email, password, confirm) && terms) ==>
                && notifications == old(notifications) + (if terms then [] else [Notification(TermsMessage, Error)])
                && redirect == old(redirect) && buttonLabel == old(buttonLabel) && calls == old(calls)
      ensures RegisterAccepted(name, email, password, confirm) && terms ==>
                && calls == old(calls) + 1 && buttonLabel == IdleLabel(RegisterForm)
                && notifications == old(notifications) + [if success then Notification(RegisterSucceeded, Success)
                                                          else Notification(RegisterFailed, Error)]
                && redirect == (if success then Some(LoginPage) else old(redirect))
    {
      var sent := SubmitRegister(name, email, password, confirm, terms);
      if sent {
        assert old(notifications) + [] == old(notifications);
        SettleRegister(success);
      }
    }
  }
}
