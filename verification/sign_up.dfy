/** The account creation screen (src/screen/login/ScreenCrearCuenta.tsx):
    the form is checked in a fixed order, the first failing check is
    reported, and only a form passing all of them is sent to
    `/api/usuario/agregar`. */
module SignUpScreen {
  import opened Wrappers
  import opened JsValue
  import opened Text
  import ApiConfig
  import Dispatcher
  import ErrorClassifier

  datatype Form = Form(email: string, password: string, confirmPassword: string, nombre: string)

  const MinPasswordLength: nat := 6
  /** Every new account is created with this status. */
  const NewUserStatus: string := "activo"

  const MissingFieldsMessage: string := "Completa todos los campos."
  const MismatchMessage: string := "Las contraseñas no coinciden"
  const InvalidEmailMessage: string := "Introduce un correo electrónico válido"
  const ShortPasswordMessage: string := "La contraseña debe tener al menos 6 caracteres"
  const RejectedFallback: string := "Error al crear la cuenta"

  // ---------------------------------------------------------------------
  // The e-mail pattern `/\S+@\S+\.\S+/`, searched anywhere in the text

  /** No whitespace in `s[lo..hi]`. */
  predicate NonSpaceRun(s: string, lo: int, hi: int)
    requires 0 <= lo <= hi <= |s|
  {
    forall k :: lo <= k < hi ==> !IsSpace(s[k])
  }

  /** The pattern matches with its `@` at `at` and its `.` at `dot`: one
      non-space before the `@`, a non-empty non-space run between them, one
      non-space after the dot. Longer runs add nothing, as the pattern is
      not anchored. */
  predicate MatchAt(s: string, at: int, dot: int)
  {
    && 1 <= at && at + 2 <= dot && dot + 1 < |s|
    && s[at] == '@' && s[dot] == '.'
    && !IsSpace(s[at - 1]) && NonSpaceRun(s, at + 1, dot) && !IsSpace(s[dot + 1])
  }

  predicate EmailLike(s: string)
  {
    exists at, dot :: 0 <= at < |s| && 0 <= dot < |s| && MatchAt(s, at, dot)
  }

  /** `emailRegex.test(email)`, as a left-to-right scan: for each `@` with a
      non-space before it, walk the non-space run after it looking for a dot
      that is followed by one more non-space. */
  method TestEmail(s: string) returns (found: bool)
    ensures found <==> EmailLike(s)
  {
    found := false;
    var at := 0;
    while at < |s| && !found
      invariant 0 <= at <= |s|
      invariant found ==> EmailLike(s)
      invariant !found ==> forall a, d :: 0 <= a < at && 0 <= d < |s| ==> !MatchAt(s, a, d)
    {
      if 1 <= at && s[at] == '@' && !IsSpace(s[at - 1]) {
        var j := at + 1;
        while j < |s| && !IsSpace(s[j]) && !found
          invariant at + 1 <= j <= |s|
          invariant NonSpaceRun(s, at + 1, j)
          invariant found ==> EmailLike(s)
          invariant !found ==> forall d :: 0 <= d < j ==> !MatchAt(s, at, d)
        {
          if s[j] == '.' && at + 2 <= j && j + 1 < |s| && !IsSpace(s[j + 1]) {
            assert MatchAt(s, at, j);
            found := true;
          }
          j := j + 1;
        }
        assert !found ==> forall d :: 0 <= d < |s| ==> !MatchAt(s, at, d);
      }
      at := at + 1;
    }
  }

  /** Two witnesses for the pattern, one for each way of failing it. */
  lemma EmailExamples()
    ensures EmailLike("ana@casa.mx")
    ensures !EmailLike("ana@casa")
  {
    assert MatchAt("ana@casa.mx", 3, 8);
    var s := "ana@casa";
    forall at, dot | 0 <= at < |s| && 0 <= dot < |s|
      ensures !MatchAt(s, at, dot)
    {
      assert s[dot] == '.' ==> false;
    }
  }

  // ---------------------------------------------------------------------
  // Validation

  datatype Verdict =
    | MissingFields
    | PasswordMismatch
    | InvalidEmail
    | ShortPassword
    | Ready(user: Value)

  /** The body sent to the server: `{nombre, email, pw, status: "activo"}`. */
  function NewUser(form: Form): Value
  {
    Obj(map["nombre" := Str(form.nombre), "email" := Str(form.email),
            "pw" := Str(form.password), "status" := Str(NewUserStatus)])
  }

  /** The checks in the order the screen makes them. */
  function Validate(form: Form): (v: Verdict)
    ensures v == MissingFields <==>
              form.email == [] || form.password == [] || form.confirmPassword == [] || form.nombre == []
    ensures v == PasswordMismatch <==>
              v != MissingFields && form.password != form.confirmPassword
    ensures v == InvalidEmail <==>
              v != MissingFields && form.password == form.confirmPassword && !EmailLike(form.email)
    ensures v == ShortPassword <==>
              v != MissingFields && form.password == form.confirmPassword && EmailLike(form.email)
              && Utf16Length(form.password) < MinPasswordLength
    ensures v.Ready? ==> v.user == NewUser(form)
  {
    if form.email == [] || form.password == [] || form.confirmPassword == [] || form.nombre == [] then MissingFields
    else if form.password != form.confirmPassword then PasswordMismatch
    else if !EmailLike(form.email) then InvalidEmail
    else if Utf16Length(form.password) < MinPasswordLength then ShortPassword
    else Ready(NewUser(form))
  }

  /** A form is sent exactly when every field is filled, the passwords
      agree, the e-mail has the pattern and the password is at least six
      UTF-16 code units long; the request carries the form's own values. */
  lemma {:induction false} ReadyExactlyWhenValid(form: Form)
    ensures Validate(form).Ready? <==>
              && form.nombre != [] && form.email != []
              && form.password == form.confirmPassword
              && EmailLike(form.email) && Utf16Length(form.password) >= MinPasswordLength
    ensures Validate(form).Ready? ==>
              var user := Validate(form).user;
              && Get(user, "email") == Str(form.email) && Get(user, "pw") == Str(form.password)
              && Get(user, "nombre") == Str(form.nombre) && Get(user, "status") == Str(NewUserStatus)
  {
    if form.password == form.confirmPassword && Utf16Length(form.password) >= MinPasswordLength {
      assert form.password != [];
    }
  }

  /** Three emoji outside the Basic Multilingual Plane make a long enough
      password: each is a surrogate pair, so the length is six. */
  lemma {:induction false} ThreeEmojiPassword()
    ensures Utf16Length("\U{1F600}\U{1F600}\U{1F600}") == MinPasswordLength
  {
    var e := "\U{1F600}\U{1F600}\U{1F600}";
    assert e[1..] == "\U{1F600}\U{1F600}" && e[1..][1..] == "\U{1F600}";
    assert "\U{1F600}"[1..] == [];
  }

  function Message(v: Verdict): string
    requires !v.Ready?
  {
    match v
    case MissingFields => MissingFieldsMessage
    case PasswordMismatch => MismatchMessage
    case InvalidEmail => InvalidEmailMessage
    case ShortPassword => ShortPasswordMessage
  }

  // ---------------------------------------------------------------------
  // Submitting

  function RegisterCall(user: Value): Dispatcher.ApiCall
  {
    Dispatcher.ApiCall(Dispatcher.Post, ApiConfig.Register, Some(user))
  }

  /** What the user is told: a validation or server message, the success
      alert whose button opens the login screen pre-filled with the new
      credentials, or the `handleApiError` alert. */
  datatype Notice =
    | Warning(message: string)
    | AccountCreated(message: string, registeredEmail: string, registeredPassword: string)
    | ApiError(alert: ErrorClassifier.Alert)

  datatype Submitted = Submitted(sent: Option<Dispatcher.ApiCall>, notice: Notice)

  function CreatedMessage(nombre: string): string
  {
    "La cuenta para " + nombre + " ha sido creada exitosamente."
  }

  /** `onCrearCuenta`, given what `registerUser` resolved or threw (only
      consulted when the form is sent). */
  function OnCrearCuenta(form: Form, result: Result<Value>): (s: Submitted)
    ensures s.sent.Some? <==> Validate(form).Ready?
    ensures s.sent.Some? ==> s.sent.value == RegisterCall(NewUser(form))
    ensures !Validate(form).Ready? ==> s.notice == Warning(Message(Validate(form)))
    ensures s.notice.AccountCreated? <==>
              Validate(form).Ready? && result.Success? && Truthy(result.value)
              && Truthy(Get(result.value, "status"))
    ensures s.notice.AccountCreated? ==>
              && s.notice.message == CreatedMessage(form.nombre)
              && s.notice.registeredEmail == form.email && s.notice.registeredPassword == form.password
    ensures Validate(form).Ready? && result.Success? && !s.notice.AccountCreated? ==>
              s.notice == Warning(TextOr(Get(result.value, "mensaje"), RejectedFallback))
    ensures s.notice.ApiError? <==> Validate(form).Ready? && result.Failure?
    ensures s.notice.ApiError? ==> s.notice.alert == ErrorClassifier.HandleApiError(result.error)
  {
    match Validate(form)
    case Ready(user) =>
      var notice :=
        match result
        case Success(r) =>
          if Truthy(r) && Truthy(Get(r, "status")) then
            AccountCreated(CreatedMessage(form.nombre), form.email, form.password)
          else
            Warning(TextOr(Get(r, "mensaje"), RejectedFallback))
        case Failure(e) => ApiError(ErrorClassifier.HandleApiError(e));
      Submitted(Some(RegisterCall(user)), notice)
    case v => Submitted(None, Warning(Message(v)))
  }
}
