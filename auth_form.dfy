/**
 * The sign-in / sign-up page: its two schemas, the error map, the mode switch, the call
 * a valid submit makes, and the messages shown when that call fails. Whether a string is
 * an e-mail address is the schema library's own test, passed in as `isEmail`.
 */
module AuthForm {
  import opened Wrappers
  import Text
  import opened FieldErrors

  datatype Mode = Login | Signup

  const EmailInvalid := "Email inválido"
  const PasswordTooShort := "La contraseña debe tener al menos 6 caracteres"
  const NombreTooShort := "El nombre debe tener al menos 2 caracteres"
  const PasswordsDiffer := "Las contraseñas no coinciden"
  /** The schema library's default messages for the maximum lengths. */
  const EmailTooLong := "String must contain at most 255 character(s)"
  const PasswordTooLong := "String must contain at most 100 character(s)"
  const NombreTooLong := "String must contain at most 100 character(s)"
  const EmailMax := 255
  const PasswordMin := 6
  const PasswordMax := 100
  const NombreMin := 2
  const NombreMax := 100

  const AuthFields: set<string> := {"nombre", "email", "password", "confirmPassword"}

  function EmailIssues(email: string, isEmail: string -> bool): (issues: seq<Issue>)
    ensures forall k :: 0 <= k < |issues| ==> issues[k].path == "email"
  {
    (if !isEmail(email) then [Issue("email", EmailInvalid)] else [])
    + (if |email| > EmailMax then [Issue("email", EmailTooLong)] else [])
  }

  function PasswordIssues(password: string): (issues: seq<Issue>)
    ensures forall k :: 0 <= k < |issues| ==> issues[k].path == "password"
  {
    (if |password| < PasswordMin then [Issue("password", PasswordTooShort)] else [])
    + (if |password| > PasswordMax then [Issue("password", PasswordTooLong)] else [])
  }

  function NombreIssues(nombre: string): (issues: seq<Issue>)
    ensures forall k :: 0 <= k < |issues| ==> issues[k].path == "nombre"
  {
    (if |nombre| < NombreMin then [Issue("nombre", NombreTooShort)] else [])
    + (if |nombre| > NombreMax then [Issue("nombre", NombreTooLong)] else [])
  }

  /** The refinement; it runs after the field checks, so its issue comes last. */
  function ConfirmIssues(password: string, confirmPassword: string): (issues: seq<Issue>)
    ensures forall k :: 0 <= k < |issues| ==> issues[k].path == "confirmPassword"
  {
    if password != confirmPassword then [Issue("confirmPassword", PasswordsDiffer)] else []
  }

  /** `loginSchema`'s issues. */
  function LoginIssues(email: string, password: string, isEmail: string -> bool): (issues: seq<Issue>)
    ensures issues == [] <==>
              isEmail(email) && |email| <= EmailMax && PasswordMin <= |password| <= PasswordMax
    ensures forall k :: 0 <= k < |issues| ==> issues[k].path == "email" || issues[k].path == "password"
  {
    EmailIssues(email, isEmail) + PasswordIssues(password)
  }

  /** `signupSchema`'s issues. */
  function SignupIssues(nombre: string, email: string, password: string, confirmPassword: string,
                        isEmail: string -> bool): (issues: seq<Issue>)
    ensures issues == [] <==>
              NombreMin <= |nombre| <= NombreMax && isEmail(email) && |email| <= EmailMax
              && PasswordMin <= |password| <= PasswordMax && password == confirmPassword
  {
    NombreIssues(nombre) + EmailIssues(email, isEmail) + PasswordIssues(password)
    + ConfirmIssues(password, confirmPassword)
  }

  function Issues(mode: Mode, nombre: string, email: string, password: string, confirmPassword: string,
                  isEmail: string -> bool): seq<Issue>
  {
    match mode
    case Login => LoginIssues(email, password, isEmail)
    case Signup => SignupIssues(nombre, email, password, confirmPassword, isEmail)
  }

  /** Signing in never reports the name or the confirmation, whatever they hold. */
  lemma LoginReportsOnlyItsFields(email: string, password: string, isEmail: string -> bool)
    ensures var e := ErrorMap(LoginIssues(email, password, isEmail), AuthFields);
            "nombre" !in e && "confirmPassword" !in e
            && ("email" in e <==> !isEmail(email) || |email| > EmailMax)
            && ("password" in e <==> !(PasswordMin <= |password| <= PasswordMax))
  {
    var all := LoginIssues(email, password, isEmail);
    LoginEmailErrors(email, password, isEmail);
    LoginPasswordErrors(email, password, isEmail);
    AbsentField(all, AuthFields, "nombre");
    AbsentField(all, AuthFields, "confirmPassword");
  }

  lemma LoginEmailErrors(email: string, password: string, isEmail: string -> bool)
    ensures var e := ErrorMap(LoginIssues(email, password, isEmail), AuthFields);
            "email" in e <==> !isEmail(email) || |email| > EmailMax
  {
    var m, p := EmailIssues(email, isEmail), PasswordIssues(password);
    assert LoginIssues(email, password, isEmail) == [] + m + p;
    FieldBlock([], m, p, AuthFields, "email");
  }

  lemma LoginPasswordErrors(email: string, password: string, isEmail: string -> bool)
    ensures var e := ErrorMap(LoginIssues(email, password, isEmail), AuthFields);
            "password" in e <==> !(PasswordMin <= |password| <= PasswordMax)
  {
    var m, p := EmailIssues(email, isEmail), PasswordIssues(password);
    assert LoginIssues(email, password, isEmail) == m + p + [];
    FieldBlock(m, p, [], AuthFields, "password");
  }

  /** A mismatched confirmation is reported under `confirmPassword` with its own message,
      whatever else fails. */
  lemma MismatchReportedUnderConfirm(nombre: string, email: string, password: string, confirmPassword: string,
                                     isEmail: string -> bool)
    ensures var e := ErrorMap(SignupIssues(nombre, email, password, confirmPassword, isEmail), AuthFields);
            ("confirmPassword" in e <==> password != confirmPassword)
            && (password != confirmPassword ==> e["confirmPassword"] == PasswordsDiffer)
  {
    var pre := NombreIssues(nombre) + EmailIssues(email, isEmail) + PasswordIssues(password);
    var c := ConfirmIssues(password, confirmPassword);
    forall k | 0 <= k < |pre| ensures pre[k].path != "confirmPassword" {
      var n, m := NombreIssues(nombre), EmailIssues(email, isEmail);
      if k < |n| { assert pre[k] == n[k]; }
      else if k < |n| + |m| { assert pre[k] == m[k - |n|]; }
      else { assert pre[k] == PasswordIssues(password)[k - |n| - |m|]; }
    }
    FieldBlock(pre, c, [], AuthFields, "confirmPassword");
    assert pre + c + [] == pre + c;
  }

  /** A password outside 6–100 characters is reported with the rule it breaks. */
  lemma PasswordMessages(email: string, password: string, isEmail: string -> bool)
    ensures var e := ErrorMap(LoginIssues(email, password, isEmail), AuthFields);
            (|password| < PasswordMin ==> e["password"] == PasswordTooShort)
            && (|password| > PasswordMax ==> e["password"] == PasswordTooLong)
  {
    var m, p := EmailIssues(email, isEmail), PasswordIssues(password);
    FieldBlock(m, p, [], AuthFields, "password");
    assert m + p + [] == m + p;
  }

  // ---------------------------------------------------------------- failures

  const InvalidCredentials := "Invalid login credentials"
  const AlreadyRegistered := "User already registered"
  const InvalidCredentialsText := "Credenciales incorrectas. Verifica tu email y contraseña."
  const AlreadyRegisteredText := "Este correo ya está registrado. Intenta iniciar sesión."

  /** The description of the failed sign-in notice. */
  function LoginErrorText(message: string): (text: string)
    ensures message == InvalidCredentials ==> text == InvalidCredentialsText
    ensures message != InvalidCredentials ==> text == message
  {
    if message == InvalidCredentials then InvalidCredentialsText else message
  }

  /** The description of the failed sign-up notice: any message that mentions an existing
      user is replaced. */
  function SignupErrorText(message: string): (text: string)
    ensures Text.Contains(message, AlreadyRegistered) ==> text == AlreadyRegisteredText
    ensures !Text.Contains(message, AlreadyRegistered) ==> text == message
  {
    if Text.Contains(message, AlreadyRegistered) then AlreadyRegisteredText else message
  }

  /** A message that merely contains the sign-in phrase is passed through unchanged, while
      the sign-up rule rewrites any message containing its phrase. */
  lemma LoginMatchIsExact(extra: string)
    requires |extra| > 0
    ensures LoginErrorText(InvalidCredentials + extra) == InvalidCredentials + extra
    ensures SignupErrorText("Auth: " + AlreadyRegistered) == AlreadyRegisteredText
  {
    assert |InvalidCredentials + extra| > |InvalidCredentials|;
    assert Text.OccursAt("Auth: " + AlreadyRegistered, AlreadyRegistered, 6);
  }

  /** The call a valid submit makes. */
  datatype AuthCall = SignIn(email: string, password: string)
                    | SignUp(email: string, password: string, nombre: string)

  /** What the page shows after the call: the notice and whether it goes home. */
  datatype Notice = Notice(title: string, description: string, destructive: bool)

  function AfterCall(mode: Mode, error: Option<string>): (r: (Notice, bool))
    ensures r.1 <==> error.None?
    ensures r.0.destructive <==> error.Some?
    ensures error.Some? && mode.Login? ==> r.0.description == LoginErrorText(error.value)
    ensures error.Some? && mode.Signup? ==> r.0.description == SignupErrorText(error.value)
  {
    match (mode, error)
    case (Login, Some(m)) => (Notice("Error al iniciar sesión", LoginErrorText(m), true), false)
    case (Login, None) => (Notice("Bienvenido", "Has iniciado sesión correctamente", false), true)
    case (Signup, Some(m)) => (Notice("Error al registrarse", SignupErrorText(m), true), false)
    case (Signup, None) => (Notice("Registro exitoso", "Tu cuenta ha sido creada. Bienvenido!", false), true)
  }

  class AuthPage {
    var mode: Mode
    var nombre: string
    var email: string
    var password: string
    var confirmPassword: string
    var errors: map<string, string>

    constructor()
      ensures mode == Login && nombre == "" && email == "" && password == "" && confirmPassword == ""
      ensures errors == map[]
    {
      mode := Login;
      nombre := "";
      email := "";
      password := "";
      confirmPassword := "";
      errors := map[];
    }

    /** Typing into one of the inputs. */
    method SetFields(n: string, e: string, p: string, c: string)
      modifies this
      ensures nombre == n && email == e && password == p && confirmPassword == c
      ensures mode == old(mode) && errors == old(errors)
    {
      nombre, email, password, confirmPassword := n, e, p, c;
    }

    /** `toggleMode`: switch, clear the errors, the name and the confirmation; the e-mail
        and password are kept. */
    method ToggleMode()
      modifies this
      ensures mode == (if old(mode) == Login then Signup else Login)
      ensures errors == map[] && nombre == "" && confirmPassword == ""
      ensures email == old(email) && password == old(password)
    {
      mode := if mode == Login then Signup else Login;
      errors := map[];
      nombre := "";
      confirmPassword := "";
    }

    /** `validateForm` for the current mode. */
    method Validate(isEmail: string -> bool) returns (ok: bool)
      modifies this
      ensures ok <==> Issues(mode, nombre, email, password, confirmPassword, isEmail) == []
      ensures errors == ErrorMap(Issues(mode, nombre, email, password, confirmPassword, isEmail), AuthFields)
      ensures mode == old(mode) && nombre == old(nombre) && email == old(email)
      ensures password == old(password) && confirmPassword == old(confirmPassword)
    {
      var issues := Issues(mode, nombre, email, password, confirmPassword, isEmail);
      if issues == [] {
        errors := map[];
        ok := true;
      } else {
        errors := CollectErrors(issues, AuthFields);
        ok := false;
      }
    }

    /** `handleSubmit` up to the call: nothing is called unless the form validates. */
    method HandleSubmit(isEmail: string -> bool) returns (call: Option<AuthCall>)
      modifies this
      ensures errors == ErrorMap(Issues(mode, nombre, email, password, confirmPassword, isEmail), AuthFields)
      ensures call.Some? <==> Issues(mode, nombre, email, password, confirmPassword, isEmail) == []
      ensures call.Some? && mode == Login ==> call.value == SignIn(email, password)
      ensures call.Some? && mode == Signup ==> call.value == SignUp(email, password, nombre)
      ensures mode == old(mode) && nombre == old(nombre) && email == old(email)
      ensures password == old(password) && confirmPassword == old(confirmPassword)
    {
      var ok := Validate(isEmail);
      if !ok {
        return None;
      }
      if mode == Login {
        call := Some(SignIn(email, password));
      } else {
        call := Some(SignUp(email, password, nombre));
      }
    }
  }
}
