/**
 * The login screen of the main application (src/components/login.tsx):
 * the form state shared by its two modes, the login handler with its
 * storage writes and redirect, and the password-reset handler. The fetch
 * and the body parse are the `Reply` parameter.
 */
module LoginForm {
  import opened Wrappers
  import opened JsValue
  import opened Session

  /** The form state; `error` holds any message the form shows, the reset confirmation included. */
  datatype Form = Form(email: string, password: string, error: Option<string>, isLoading: bool, isResetMode: bool)

  const InitialForm: Form := Form("", "", None, false, false)

  datatype InputName = EmailInput | PasswordInput

  const LoginPath: string := "/home/2"
  const InvalidReply: string := "Respuesta no válida del servidor"
  const LoginFailed: string := "Error al iniciar sesión"
  const ResetFailed: string := "Error al restablecer la contraseña"
  const ResetSent: string := "Se han enviado instrucciones para restablecer la contraseña"

  /** `handleInputChange`: the named field takes the value and the message is cleared. */
  function InputChange(f: Form, name: InputName, value: string): (r: Form)
    ensures r.error.None?
    ensures name.EmailInput? ==> r.email == value && r.password == f.password
    ensures name.PasswordInput? ==> r.password == value && r.email == f.email
    ensures r.isLoading == f.isLoading && r.isResetMode == f.isResetMode
  {
    match name
    case EmailInput => f.(email := value, error := None)
    case PasswordInput => f.(password := value, error := None)
  }

  /** The message box renders only for a non-empty message. */
  predicate ShowsError(f: Form) {
    f.error.Some? && f.error.value != ""
  }

  /** The two links between the modes; both are disabled while a request is in flight. */
  function SetResetMode(f: Form, on: bool): (r: Form)
    ensures f.isLoading ==> r == f
    ensures !f.isLoading ==> r == f.(isResetMode := on)
  {
    if f.isLoading then f else f.(isResetMode := on)
  }

  /** Both handlers start by showing the spinner and clearing the message. */
  function Start(f: Form): (r: Form)
    ensures r.isLoading && r.error.None?
    ensures r.email == f.email && r.password == f.password && r.isResetMode == f.isResetMode
  {
    f.(isLoading := true, error := None)
  }

  /** How a request ended: the fetch rejected, or a response arrived whose body did or did not parse. */
  datatype Reply =
    | NetworkFailure(message: string)
    | Received(ok: bool, body: Option<Value>)

  /** The message of `new Error(x || fallback)`. */
  function ErrorText(x: Value, fallback: string): (r: string)
    ensures Truthy(x) ==> r == ToJsString(x)
    ensures !Truthy(x) ==> r == fallback
  {
    ToJsString(if Truthy(x) then x else Str(fallback))
  }

  datatype LoginResult = LoginResult(form: Form, store: Store, redirect: Option<string>)

  /** Whether the login handler reaches its storage writes. */
  predicate LoginSucceeds(reply: Reply) {
    reply.Received? && reply.ok && reply.body.Some? && !Nullish(reply.body.value)
  }

  /** The message `handleLogin` leaves in the form after a failure. */
  function LoginError(reply: Reply): string
    requires !LoginSucceeds(reply)
  {
    match reply
    case NetworkFailure(m) => m
    case Received(ok, body) =>
      match body
      case None => InvalidReply
      case Some(v) =>
        if ok then Read(v, "token").error.message
        else
          (match Read(v, "error")
           case Failure(e) => e.message
           case Success(err) => ErrorText(if Nullish(err) then Undefined else Get(err, "message"), LoginFailed))
  }

  /**
   * `handleLogin` after `Start`: an ok, parsed, non-null body stores
   * `String(token)` and the user snapshot, unchecked, and sends the browser
   * to the home page; anything else leaves the store alone and shows a
   * message. The spinner stops either way.
   */
  function Login(f: Form, st: Store, reply: Reply): (r: LoginResult)
    ensures !r.form.isLoading
    ensures r.form.email == f.email && r.form.password == f.password && r.form.isResetMode == f.isResetMode
    ensures r.redirect.Some? <==> LoginSucceeds(reply)
    ensures r.redirect.Some? ==> r.redirect.value == LoginPath && r.form.error == f.error
    ensures LoginSucceeds(reply) ==>
      r.store == st[TokenKey := ToJsString(Get(reply.body.value, "token"))][UserKey := StoredJson(Get(reply.body.value, "user"))]
    ensures !LoginSucceeds(reply) ==> r.store == st && r.form.error == Some(LoginError(reply))
  {
    if LoginSucceeds(reply) then
      var v := reply.body.value;
      var st' := st[TokenKey := ToJsString(Get(v, "token"))][UserKey := StoredJson(Get(v, "user"))];
      LoginResult(f.(isLoading := false), st', Some(LoginPath))
    else
      LoginResult(f.(isLoading := false, error := Some(LoginError(reply))), st, None)
  }

  /** A refused login shows the server's `error.message` when it sends one, and the fixed text otherwise. */
  lemma RefusedLoginMessage(f: Form, st: Store, body: Value)
    requires body.Obj?
    ensures var err := Get(body, "error");
      Login(f, st, Received(false, Some(body))).form.error ==
        Some(if !Nullish(err) && Truthy(Get(err, "message")) then ToJsString(Get(err, "message")) else LoginFailed)
  {
  }

  /** A successful login with a non-empty string token passes the route guard. */
  lemma LoginOpensSession(f: Form, st: Store, body: Value, token: string)
    requires Get(body, "token") == Str(token) && token != "" && !Nullish(body)
    ensures Guard(Login(f, st, Received(true, Some(body))).store).renderChildren
  {
  }

  /**
   * The token is not checked: an ok body without one stores the text
   * "undefined", which the route guard accepts as a session.
   */
  lemma LoginWithoutTokenOpensSession(f: Form, st: Store, body: Value)
    requires body.Obj? && Get(body, "token") == Undefined
    ensures var r := Login(f, st, Received(true, Some(body)));
      r.store[TokenKey] == "undefined" && Guard(r.store).renderChildren && r.redirect == Some(LoginPath)
  {
  }

  /**
   * `handleResetPassword` after `Start`: success puts the confirmation in
   * the message slot; a refusal shows the server's `message` or the fixed
   * text; a network or parse failure shows its own message.
   */
  function ResetPassword(f: Form, reply: Reply, parseError: string): (r: Form)
    ensures !r.isLoading && r.email == f.email && r.password == f.password && r.isResetMode == f.isResetMode
    ensures r.error.Some?
    ensures reply.Received? && reply.ok && reply.body.Some? ==> r.error == Some(ResetSent)
    ensures reply.Received? && !reply.ok && reply.body.Some? && reply.body.value.Obj? ==>
      r.error == Some(ErrorText(Get(reply.body.value, "message"), ResetFailed))
    ensures reply.NetworkFailure? ==> r.error == Some(reply.message)
    ensures reply.Received? && reply.body.None? ==> r.error == Some(parseError)
  {
    var message :=
      match reply
      case NetworkFailure(m) => m
      case Received(ok, body) =>
        match body
        case None => parseError
        case Some(v) =>
          if ok then ResetSent
          else
            match Read(v, "message")
            case Failure(e) => e.message
            case Success(m) => ErrorText(m, ResetFailed);
    f.(isLoading := false, error := Some(message))
  }
}
