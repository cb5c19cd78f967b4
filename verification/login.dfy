/** The login screen (src/screen/login/ScreenLogin.tsx): both fields must be
    filled; the credentials are posted to `/api/usuario/login`, and only an
    answer with a truthy `status` logs the user in. */
module LoginScreen {
  import opened Wrappers
  import opened JsValue
  import ApiConfig
  import Dispatcher
  import ErrorClassifier
  import SignUpScreen

  const MissingFieldsMessage: string := "Por favor, complete todos los campos."
  const RejectedFallback: string := "Credenciales incorrectas"

  function Credentials(email: string, pw: string): Value
  {
    Obj(map["email" := Str(email), "pw" := Str(pw)])
  }

  function LoginCall(email: string, pw: string): Dispatcher.ApiCall
  {
    Dispatcher.ApiCall(Dispatcher.Post, ApiConfig.Login, Some(Credentials(email, pw)))
  }

  datatype Notice =
    | Quiet
    | Warning(message: string)
    | ApiError(alert: ErrorClassifier.Alert)

  /** The screen after `onLogin`: the request sent (if any), the app-wide
      logged-in flag, and what the user was told. */
  datatype Attempt = Attempt(sent: Option<Dispatcher.ApiCall>, loggedIn: bool, notice: Notice)

  /** `onLogin` with the app's current logged-in flag, given what
      `loginUser` resolved or threw (only consulted when something is
      sent). */
  function OnLogin(email: string, pw: string, loggedIn: bool, result: Result<Value>): (a: Attempt)
    ensures a.sent.Some? <==> email != [] && pw != []
    ensures a.sent.Some? ==> a.sent.value == LoginCall(email, pw)
    ensures a.sent.None? ==> a == Attempt(None, loggedIn, Warning(MissingFieldsMessage))
    ensures a.loggedIn <==>
              loggedIn || (a.sent.Some? && result.Success? && Truthy(result.value)
                           && Truthy(Get(result.value, "status")))
    ensures a.notice.ApiError? <==> a.sent.Some? && result.Failure?
    ensures a.notice.ApiError? ==> a.notice.alert == ErrorClassifier.HandleApiError(result.error)
    ensures a.sent.Some? && result.Success? && !(Truthy(result.value) && Truthy(Get(result.value, "status"))) ==>
              a.notice == Warning(TextOr(Get(result.value, "mensaje"), RejectedFallback))
  {
    if email == [] || pw == [] then Attempt(None, loggedIn, Warning(MissingFieldsMessage))
    else
      var sent := Some(LoginCall(email, pw));
      match result
      case Success(r) =>
        if Truthy(r) && Truthy(Get(r, "status")) then Attempt(sent, true, Quiet)
        else Attempt(sent, loggedIn, Warning(TextOr(Get(r, "mensaje"), RejectedFallback)))
      case Failure(e) => Attempt(sent, loggedIn, ApiError(ErrorClassifier.HandleApiError(e)))
  }

  /** Logging in never logs anyone out: the flag only goes from false to
      true. */
  lemma NeverLogsOut(email: string, pw: string, result: Result<Value>)
    ensures OnLogin(email, pw, true, result).loggedIn
  {
  }

  /** Account creation hands its credentials to this screen: pressing the
      success alert's button pre-fills both fields, so the next login
      passes the field check and posts exactly the e-mail and password
      the account was registered with. */
  lemma {:induction false} RegisteredCredentialsLogIn(form: SignUpScreen.Form, created: Value, answer: Result<Value>)
    requires SignUpScreen.OnCrearCuenta(form, Success(created)).notice.AccountCreated?
    ensures var n := SignUpScreen.OnCrearCuenta(form, Success(created)).notice;
            var user := SignUpScreen.NewUser(form);
            var a := OnLogin(n.registeredEmail, n.registeredPassword, false, answer);
            && a.sent.Some?
            && Get(a.sent.value.body.value, "email") == Get(user, "email")
            && Get(a.sent.value.body.value, "pw") == Get(user, "pw")
  {
    SignUpScreen.ReadyExactlyWhenValid(form);
  }
}
