/**
 * The login screen of the campus portal (elearning/src/components/login.tsx):
 * the same form state as the main login, but the work is delegated to the
 * optional `onLogin` / `onResetPassword` callbacks, whose outcome is a
 * parameter here.
 */
module PortalLogin {
  import opened Wrappers
  import LoginForm

  /** How an awaited callback ended: resolved, threw an `Error`, or threw something else. */
  datatype Outcome = Resolved | ThrewError(message: string) | ThrewOther

  const LoginFailed: string := "Error al iniciar sesión"
  const ResetFailed: string := "Error al restablecer la contraseña"

  /** The `try`/`catch`/`finally` both handlers share, after the spinner was started. */
  function Settle(f: LoginForm.Form, o: Outcome, fallback: string): (r: LoginForm.Form)
    ensures !r.isLoading
    ensures r.email == f.email && r.password == f.password && r.isResetMode == f.isResetMode
    ensures o.Resolved? ==> r.error == f.error
    ensures o.ThrewError? ==> r.error == Some(o.message)
    ensures o.ThrewOther? ==> r.error == Some(fallback)
  {
    match o
    case Resolved => f.(isLoading := false)
    case ThrewError(m) => f.(isLoading := false, error := Some(m))
    case ThrewOther => f.(isLoading := false, error := Some(fallback))
  }

  /**
   * `handleSubmit`: without an `onLogin` callback nothing happens; with
   * one, the spinner runs for the call and a failure leaves its message.
   */
  function Submit(f: LoginForm.Form, hasCallback: bool, o: Outcome): (r: LoginForm.Form)
    ensures !hasCallback ==> r == f
    ensures hasCallback ==> !r.isLoading && r.email == f.email && r.password == f.password
    ensures hasCallback && o.Resolved? ==> r.error.None?
    ensures hasCallback && !o.Resolved? ==> r.error.Some?
    ensures hasCallback && o.ThrewOther? ==> r.error == Some(LoginFailed)
  {
    if !hasCallback then f else Settle(LoginForm.Start(f), o, LoginFailed)
  }

  /** `handleResetPassword`: the same shape, with the reset callback and its fallback text. */
  function ResetPassword(f: LoginForm.Form, hasCallback: bool, o: Outcome): (r: LoginForm.Form)
    ensures !hasCallback ==> r == f
    ensures hasCallback ==> !r.isLoading && r.email == f.email && r.password == f.password
    ensures hasCallback && o.Resolved? ==> r.error.None?
    ensures hasCallback && !o.Resolved? ==> r.error.Some?
    ensures hasCallback && o.ThrewOther? ==> r.error == Some(ResetFailed)
  {
    if !hasCallback then f else Settle(LoginForm.Start(f), o, ResetFailed)
  }

  /** Submitting never leaves the spinner running, and a form that shows no spinner is not changed by a missing callback. */
  lemma SubmitSettles(f: LoginForm.Form, hasCallback: bool, o: Outcome)
    ensures !f.isLoading ==> !Submit(f, hasCallback, o).isLoading
    ensures hasCallback ==> Submit(Submit(f, hasCallback, o), hasCallback, o) == Submit(f, hasCallback, o)
  {
  }
}
