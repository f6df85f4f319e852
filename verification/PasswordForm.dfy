/**
 * The change-password form of the settings page
 * (src/components/Configuration.tsx): field edits, client-side validation,
 * the request it sends, and the alert and loading state once the request
 * settles. The HTTP call itself is the `Outcome` parameter.
 */
module PasswordForm {
  import opened Wrappers
  import opened JsValue
  import opened Session
  import UserDisplay
  import LoginForm

  datatype FieldName = CurrentPassword | NewPassword | ConfirmPassword

  datatype Passwords = Passwords(current: string, proposed: string, confirm: string)

  const EmptyPasswords: Passwords := Passwords("", "", "")

  /** The alert's `type`: `null`, 'success', 'error' or 'info'. */
  datatype AlertKind = NoAlert | SuccessAlert | ErrorAlert | InfoAlert

  /** The message is whatever value the code put there; a server may send a non-string. */
  datatype Alert = Alert(kind: AlertKind, message: Value)

  const Cleared: Alert := Alert(NoAlert, Str(""))

  datatype Form = Form(passwords: Passwords, alert: Alert, loading: bool)

  const InitialForm: Form := Form(EmptyPasswords, Cleared, false)

  const MinLength: nat := 8
  const MismatchMessage: string := "Las contraseñas nuevas no coinciden"
  const TooShortMessage: string := "La contraseña debe tener al menos 8 caracteres"
  const SuccessMessage: string := "Contraseña actualizada correctamente"
  const FailureMessage: string := "Error al cambiar la contraseña"

  /** The storage key the settings page reads its bearer token from. */
  const JwtKey: string := "jwt"

  function FieldValue(p: Passwords, name: FieldName): string {
    match name
    case CurrentPassword => p.current
    case NewPassword => p.proposed
    case ConfirmPassword => p.confirm
  }

  /** `handlePasswordChange`: `{ ...passwordForm, [name]: value }`. */
  function HandleChange(f: Form, name: FieldName, value: string): (r: Form)
    ensures FieldValue(r.passwords, name) == value
    ensures forall other :: other != name ==> FieldValue(r.passwords, other) == FieldValue(f.passwords, other)
    ensures r.alert == f.alert && r.loading == f.loading
  {
    var p := f.passwords;
    var p' := match name
      case CurrentPassword => p.(current := value)
      case NewPassword => p.(proposed := value)
      case ConfirmPassword => p.(confirm := value);
    f.(passwords := p')
  }

  /** The client-side checks, in the order the handler makes them; `None` when both pass. */
  function Validate(p: Passwords): (r: Option<string>)
    ensures r.None? <==> p.proposed == p.confirm && |p.proposed| >= MinLength
    ensures p.proposed != p.confirm ==> r == Some(MismatchMessage)
    ensures p.proposed == p.confirm && |p.proposed| < MinLength ==> r == Some(TooShortMessage)
  {
    if p.proposed != p.confirm then Some(MismatchMessage)
    else if |p.proposed| < MinLength then Some(TooShortMessage)
    else None
  }

  /** The body and header of the change-password call. */
  datatype ChangeRequest = ChangeRequest(
    currentPassword: string,
    newPassword: string,
    userId: Option<int>,
    authorization: Option<string>)

  /** `token ? { Authorization: 'Bearer ' + token } : {}` for the token under `key`. */
  function BearerHeader(st: Store, key: string): (r: Option<string>)
    ensures r.Some? <==> Filled(st, key)
    ensures r.Some? ==> r.value == "Bearer " + st[key]
  {
    if Filled(st, key) then Some("Bearer " + st[key]) else None
  }

  /** What submitting does before the network: refuse with an error alert, or send a request. */
  datatype Submission = Refused(form: Form) | Sent(form: Form, request: ChangeRequest)

  /** `handlePasswordSubmit` up to the call, reading the bearer token under `key`. */
  function SubmitWith(f: Form, user: UserDisplay.UserData, st: Store, key: string): (r: Submission)
    ensures r.Refused? <==> f.passwords.proposed != f.passwords.confirm || |f.passwords.proposed| < MinLength
    ensures r.Refused? ==>
      r.form.passwords == f.passwords && r.form.loading == f.loading &&
      r.form.alert.kind == ErrorAlert && r.form.alert.message == Str(Validate(f.passwords).value)
    ensures r.Sent? ==>
      r.form == Form(f.passwords, Cleared, true) &&
      r.request == ChangeRequest(f.passwords.current, f.passwords.proposed, user.id, BearerHeader(st, key))
  {
    match Validate(f.passwords)
    case Some(message) => Refused(f.(alert := Alert(ErrorAlert, Str(message))))
    case None =>
      Sent(Form(f.passwords, Cleared, true),
           ChangeRequest(f.passwords.current, f.passwords.proposed, user.id, BearerHeader(st, key)))
  }

  /** The submit handler as written: the token is looked up under `jwt`. */
  function SubmitAsWritten(f: Form, user: UserDisplay.UserData, st: Store): Submission {
    SubmitWith(f, user, st, JwtKey)
  }

  /** The submit handler with the token looked up where the login flow stores it. */
  function Submit(f: Form, user: UserDisplay.UserData, st: Store): Submission {
    SubmitWith(f, user, st, TokenKey)
  }

  /** How the call settled: resolved, or rejected with the error's `response` (maybe undefined). */
  datatype Outcome = Succeeded | Failed(response: Value)

  /** `error.response?.data?.message`. */
  function ServerMessage(response: Value): Value {
    if Nullish(response) then Undefined
    else
      var data := Get(response, "data");
      if Nullish(data) then Undefined else Get(data, "message")
  }

  /** The rest of the handler: alert, form reset on success, and `loading` back to false in `finally`. */
  function Finish(f: Form, o: Outcome): (r: Form)
    ensures !r.loading
    ensures o.Succeeded? ==> r.passwords == EmptyPasswords && r.alert == Alert(SuccessAlert, Str(SuccessMessage))
    ensures o.Failed? ==> r.passwords == f.passwords && r.alert.kind == ErrorAlert && Truthy(r.alert.message)
    ensures o.Failed? && Truthy(ServerMessage(o.response)) ==> r.alert.message == ServerMessage(o.response)
    ensures o.Failed? && !Truthy(ServerMessage(o.response)) ==> r.alert.message == Str(FailureMessage)
  {
    match o
    case Succeeded => Form(EmptyPasswords, Alert(SuccessAlert, Str(SuccessMessage)), false)
    case Failed(response) =>
      var m := ServerMessage(response);
      f.(alert := Alert(ErrorAlert, if Truthy(m) then m else Str(FailureMessage)), loading := false)
  }

  /** The `Alert` component renders only when the alert has a type. */
  predicate AlertShown(a: Alert) {
    a.kind != NoAlert
  }

  /** A successful change leaves a cleared, idle form showing the success alert. */
  lemma SubmitThenSucceed(f: Form, user: UserDisplay.UserData, st: Store)
    requires Submit(f, user, st).Sent?
    ensures Finish(Submit(f, user, st).form, Succeeded) == Form(EmptyPasswords, Alert(SuccessAlert, Str(SuccessMessage)), false)
    ensures AlertShown(Finish(Submit(f, user, st).form, Succeeded).alert)
  {
  }

  /** A failed change keeps what the user typed, so they can retry, and always shows an error. */
  lemma SubmitThenFail(f: Form, user: UserDisplay.UserData, st: Store, response: Value)
    requires Submit(f, user, st).Sent?
    ensures Finish(Submit(f, user, st).form, Failed(response)).passwords == f.passwords
    ensures AlertShown(Finish(Submit(f, user, st).form, Failed(response)).alert)
    ensures Submit(Finish(Submit(f, user, st).form, Failed(response)), user, st).Sent?
  {
  }

  /** Submitting a refused form again refuses it again with the same alert. */
  lemma RefusalIsStable(f: Form, user: UserDisplay.UserData, st: Store)
    requires Submit(f, user, st).Refused?
    ensures Submit(Submit(f, user, st).form, user, st) == Submit(f, user, st)
  {
  }

  /**
   * As written, the token is read from `jwt`, which the login screen never
   * writes: after a successful login into a store without that key, a valid
   * change request goes out with no Authorization header.
   */
  lemma AsWrittenSendsNoToken(st: Store, f: Form, user: UserDisplay.UserData, form: LoginForm.Form, body: Value)
    requires JwtKey !in st && !Nullish(body)
    requires f.passwords.proposed == f.passwords.confirm && |f.passwords.proposed| >= MinLength
    ensures var after := LoginForm.Login(form, st, LoginForm.Received(true, Some(body))).store;
      SubmitAsWritten(f, user, after).Sent? && SubmitAsWritten(f, user, after).request.authorization.None?
  {
    var after := LoginForm.Login(form, st, LoginForm.Received(true, Some(body))).store;
    assert JwtKey !in after;
  }

  /** Reading the token where the login screen stored it, the request carries that token. */
  lemma SubmitSendsLoginToken(st: Store, f: Form, user: UserDisplay.UserData, form: LoginForm.Form, body: Value, token: string)
    requires Get(body, "token") == Str(token) && token != "" && !Nullish(body)
    requires f.passwords.proposed == f.passwords.confirm && |f.passwords.proposed| >= MinLength
    ensures var after := LoginForm.Login(form, st, LoginForm.Received(true, Some(body))).store;
      Submit(f, user, after).Sent? && Submit(f, user, after).request.authorization == Some("Bearer " + token)
  {
  }
}
