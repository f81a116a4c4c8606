/** The sign-in page (src/pages/Auth.tsx): a login mode and a signup mode,
    their schemas, the mapping of backend errors to messages, and the switch
    to login mode when the automatic login after signup fails. Whether the
    email matches zod's email pattern is an input (`emailValid`). */
module Auth {
  import opened Wrappers
  import opened Text

  const HomePath: string := "/"
  const EmailText: string := "Email noto'g'ri formatda"
  const PasswordText: string := "Parol kamida 6 ta belgi bo'lishi kerak"
  const NameTooShortText: string := "Ism kamida 2 ta belgi bo'lishi kerak"
  /** zod's default message for `.max(100)` on a string. */
  const NameTooLongText: string := "String must contain at most 100 character(s)"
  const BadCredentialsText: string := "Email yoki parol noto'g'ri"
  const AlreadyRegisteredText: string := "Bu email allaqachon ro'yxatdan o'tgan"
  const RegisteredPleaseLoginText: string := "Ro'yxatdan o'tdingiz! Iltimos, kiring."
  const GenericErrorText: string := "Xatolik yuz berdi. Qayta urinib ko'ring."

  /** The issues of `loginSchema`, email first. */
  function LoginIssues(emailValid: bool, password: string): seq<string> {
    (if emailValid then [] else [EmailText]) + (if |password| < 6 then [PasswordText] else [])
  }

  /** The issues of `signupSchema`: the login fields, then the full name,
      whose length is checked without trimming. */
  function SignupIssues(emailValid: bool, password: string, fullName: string): seq<string> {
    LoginIssues(emailValid, password)
    + (if |fullName| < 2 then [NameTooShortText] else [])
    + (if |fullName| > 100 then [NameTooLongText] else [])
  }

  /** Login passes exactly for a well-formed email and a password of at
      least 6 characters; signup also needs a name of 2 to 100 characters,
      where white space counts; the email's message comes first. */
  lemma IssuesSpec(emailValid: bool, password: string, fullName: string)
    ensures LoginIssues(emailValid, password) == [] <==> emailValid && |password| >= 6
    ensures SignupIssues(emailValid, password, fullName) == [] <==>
      emailValid && |password| >= 6 && 2 <= |fullName| <= 100
    ensures !emailValid ==> SignupIssues(emailValid, password, fullName)[0] == EmailText
    ensures emailValid && |password| < 6 ==> SignupIssues(emailValid, password, fullName)[0] == PasswordText
  {
  }

  /** Line 50: only a message containing "Invalid login credentials" is translated. */
  function LoginErrorText(message: string): string {
    if Contains(message, "Invalid login credentials") then BadCredentialsText else message
  }

  /** Line 80: only a message containing "already registered" is translated. */
  function SignupErrorText(message: string): string {
    if Contains(message, "already registered") then AlreadyRegisteredText else message
  }

  /** The translation happens exactly when the phrase occurs somewhere in
      the backend's message; any other message is shown as it came. */
  lemma ErrorTextSpec(message: string)
    ensures LoginErrorText(message) == BadCredentialsText <==>
      (exists i :: OccursAt(message, "Invalid login credentials", i)) || message == BadCredentialsText
    ensures !(exists i :: OccursAt(message, "Invalid login credentials", i)) ==> LoginErrorText(message) == message
    ensures SignupErrorText(message) == AlreadyRegisteredText <==>
      (exists i :: OccursAt(message, "already registered", i)) || message == AlreadyRegisteredText
    ensures !(exists i :: OccursAt(message, "already registered", i)) ==> SignupErrorText(message) == message
  {
    ContainsIffOccurs(message, "Invalid login credentials");
    ContainsIffOccurs(message, "already registered");
  }

  /** The answer of an awaited auth call: no error, an `{ error }`, or a
      thrown exception (caught by the handler's `catch`). */
  datatype AuthReply = AuthOk | AuthError(message: string) | AuthThrew

  /** The auth calls, in the order they are issued. */
  datatype AuthCall = SignIn(email: string, password: string) | SignUp(email: string, password: string, fullName: string)

  /** The page's state. */
  class AuthPage {
    var isLogin: bool
    var loading: bool
    var error: Option<string>
    var email: string
    var password: string
    var fullName: string
    var navigatedTo: Option<string>
    var calls: seq<AuthCall>

    constructor ()
      ensures isLogin && !loading && error == None && navigatedTo == None && calls == []
      ensures email == [] && password == [] && fullName == []
    {
      isLogin := true;
      loading := false;
      error := None;
      email := [];
      password := [];
      fullName := [];
      navigatedTo := None;
      calls := [];
    }

    /** What login mode does: the first schema issue and no call, or the
        sign-in call, then home on success and the mapped message on an
        error. */
    twostate predicate LoginOutcome(emailValid: bool, signIn: AuthReply)
      reads this
    {
      && !loading && isLogin == old(isLogin)
      && (LoginIssues(emailValid, password) != [] ==>
            && error == Some(LoginIssues(emailValid, password)[0])
            && calls == old(calls) && navigatedTo == old(navigatedTo))
      && (LoginIssues(emailValid, password) == [] ==>
            && calls == old(calls) + [SignIn(email, password)]
            && match signIn
               case AuthOk => error == None && navigatedTo == Some(HomePath)
               case AuthError(m) => error == Some(LoginErrorText(m)) && navigatedTo == old(navigatedTo)
               case AuthThrew => error == Some(GenericErrorText) && navigatedTo == old(navigatedTo))
    }

    /** What signup mode does: the first schema issue and no call; or the
        signup call, whose error is mapped; or the signup and the automatic
        login, whose failure switches to login mode with a message. An
        exception anywhere shows the generic message. */
    twostate predicate SignupOutcome(emailValid: bool, signUp: AuthReply, signIn: AuthReply)
      reads this
    {
      && !loading
      && (SignupIssues(emailValid, password, fullName) != [] ==>
            && error == Some(SignupIssues(emailValid, password, fullName)[0])
            && calls == old(calls) && navigatedTo == old(navigatedTo) && isLogin == old(isLogin))
      && (SignupIssues(emailValid, password, fullName) == [] && !signUp.AuthOk? ==>
            && calls == old(calls) + [SignUp(email, password, fullName)]
            && navigatedTo == old(navigatedTo) && isLogin == old(isLogin)
            && error == Some(if signUp.AuthError? then SignupErrorText(signUp.message) else GenericErrorText))
      && (SignupIssues(emailValid, password, fullName) == [] && signUp.AuthOk? ==>
            && calls == old(calls) + [SignUp(email, password, fullName), SignIn(email, password)]
            && match signIn
               case AuthOk => error == None && navigatedTo == Some(HomePath) && isLogin == old(isLogin)
               case AuthError(_) =>
                 error == Some(RegisteredPleaseLoginText) && isLogin && navigatedTo == old(navigatedTo)
               case AuthThrew =>
                 error == Some(GenericErrorText) && isLogin == old(isLogin) && navigatedTo == old(navigatedTo))
    }

    /** Login mode of `handleSubmit`; the sign-in answer is an input. */
    method SubmitLogin(emailValid: bool, signIn: AuthReply)
      requires isLogin
      modifies this`loading, this`error, this`navigatedTo, this`calls
      ensures LoginOutcome(emailValid, signIn)
    {
      error := None;
      loading := true;
      var issues := LoginIssues(emailValid, password);
      if issues != [] {
        error := Some(issues[0]);
        loading := false;
        return;
      }
      calls := calls + [SignIn(email, password)];
      match signIn {
        case AuthThrew =>
          error := Some(GenericErrorText);
        case AuthError(m) =>
          error := Some(LoginErrorText(m));
        case AuthOk =>
          navigatedTo := Some(HomePath);
      }
      loading := false;
    }

    /** Signup mode of `handleSubmit`: the signup, then the automatic login. */
    method SubmitSignup(emailValid: bool, signUp: AuthReply, signIn: AuthReply)
      requires !isLogin
      modifies this`isLogin, this`loading, this`error, this`navigatedTo, this`calls
      ensures SignupOutcome(emailValid, signUp, signIn)
    {
      error := None;
      loading := true;
      var issues := SignupIssues(emailValid, password, fullName);
      if issues != [] {
        error := Some(issues[0]);
        loading := false;
        return;
      }
      calls := calls + [SignUp(email, password, fullName)];
      if signUp.AuthThrew? {
        error := Some(GenericErrorText);
        loading := false;
        return;
      }
      if signUp.AuthError? {
        error := Some(SignupErrorText(signUp.message));
        loading := false;
        return;
      }
      calls := calls + [SignIn(email, password)];
      match signIn {
        case AuthThrew =>
          error := Some(GenericErrorText);
        case AuthError(_) =>
          error := Some(RegisteredPleaseLoginText);
          isLogin := true;
        case AuthOk =>
          navigatedTo := Some(HomePath);
      }
      loading := false;
    }

    /** `handleSubmit`: the mode decides which half runs. Either way the
        spinner stops, signup mode is only ever left for login mode, and the
        page only ever navigates home, with no message. */
    method HandleSubmit(emailValid: bool, signUp: AuthReply, signIn: AuthReply)
      modifies this`isLogin, this`loading, this`error, this`navigatedTo, this`calls
      ensures old(isLogin) ==> LoginOutcome(emailValid, signIn)
      ensures !old(isLogin) ==> SignupOutcome(emailValid, signUp, signIn)
      ensures !loading && (old(isLogin) ==> isLogin)
      ensures navigatedTo != old(navigatedTo) ==> navigatedTo == Some(HomePath) && error == None
    {
      if isLogin {
        SubmitLogin(emailValid, signIn);
      } else {
        SubmitSignup(emailValid, signUp, signIn);
      }
    }

    /** The mode button: flips the mode and clears the message. */
    method Toggle()
      modifies this`isLogin, this`error
      ensures isLogin == !old(isLogin) && error == None
    {
      isLogin := !isLogin;
      error := None;
    }
  }
}
