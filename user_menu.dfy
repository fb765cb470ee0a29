/** The sign-in modal of apps/movie-app/src/components/UserMenu.tsx: a form with four modes
    (`login`, `register`, `magic-link`, `check-email`), its fields, its error line and its
    submitting flag. The authentication provider's calls are not modelled: `handleSubmit`
    is split at its one `await` into the part that runs before the call and the part that
    runs on the provider's answer, which is an input. */
module SignInModal {
  import opened Wrappers

  datatype AuthMode = Login | Register | MagicLink | CheckEmail

  /** The provider call `handleSubmit` awaits. */
  datatype AuthCall =
    | SignInWithMagicLink(email: string)
    | SignUp(email: string, password: string)
    | SignIn(email: string, password: string)

  /** The provider's `{ error }`: `None` for `error: null`, else the error's message. */
  datatype AuthResult = AuthResult(error: Option<string>)

  /** The modal's React state. */
  datatype Form = Form(
    showLoginModal: bool,
    mode: AuthMode,
    email: string,
    password: string,
    error: string,
    submitting: bool)

  const ShortPasswordError: string := "Password must be at least 6 characters"
  const MinPasswordLength: nat := 6

  /** The initial state: modal closed, login mode, empty fields. */
  const InitialForm: Form := Form(false, Login, "", "", "", false)

  /** `s.length`: JavaScript counts UTF-16 code units, two for a character outside the Basic
      Multilingual Plane. */
  function Utf16Length(s: string): nat
  {
    if |s| == 0 then 0 else (if s[0] as int >= 0x1_0000 then 2 else 1) + Utf16Length(s[1..])
  }

  /** A password of at least six characters is never too short; one of fewer may still pass
      when it holds characters that count twice. */
  lemma {:induction false} Utf16LengthBounds(s: string)
    ensures |s| <= Utf16Length(s) <= 2 * |s|
  {
    if |s| > 0 {
      Utf16LengthBounds(s[1..]);
    }
  }

  /** `resetForm`: back to login mode with empty fields; the modal stays as it is. */
  function Reset(f: Form): (r: Form)
    ensures r == InitialForm.(showLoginModal := f.showLoginModal)
  {
    f.(mode := Login, email := "", password := "", error := "", submitting := false)
  }

  /** `closeModal`: the modal closes and the form is reset. */
  function Closed(f: Form): (r: Form)
    ensures r == InitialForm
  {
    Reset(f.(showLoginModal := false))
  }

  /** The part of `handleSubmit` up to its `await` (lines 41-62, 69): the state it leaves and
      the provider call it then waits for, if any. */
  function StartSubmit(f: Form): (r: (Form, Option<AuthCall>))
  {
    if f.email == "" then (f, None)
    else
      var busy := f.(submitting := true, error := "");
      match f.mode
      case MagicLink => (busy, Some(SignInWithMagicLink(f.email)))
      case Register =>
        if Utf16Length(f.password) < MinPasswordLength then
          (busy.(error := ShortPasswordError, submitting := false), None)
        else (busy, Some(SignUp(f.email, f.password)))
      case _ => (busy, Some(SignIn(f.email, f.password)))
  }

  /** The part of `handleSubmit` after its `await` (lines 51-55, 63-67, 70-79), applied to the
      state at the time the provider answers. */
  function FinishSubmit(f: Form, call: AuthCall, result: AuthResult): (r: Form)
    ensures !r.submitting
  {
    if result.error.None? then
      if call.SignIn? then Closed(f)
      else f.(mode := CheckEmail, submitting := false)
    else f.(error := result.error.value, submitting := false)
  }

  /** `handleSubmit` when nothing else happens while the call is awaited: the final state and
      the call made. */
  function SubmitOutcome(f: Form, result: AuthResult): (r: (Form, Option<AuthCall>))
  {
    var (busy, call) := StartSubmit(f);
    if call.None? then (busy, None) else (FinishSubmit(busy, call.value, result), call)
  }

  /** With no email the submit does nothing at all. */
  lemma EmptyEmailIgnored(f: Form, result: AuthResult)
    requires f.email == ""
    ensures StartSubmit(f) == (f, None)
    ensures SubmitOutcome(f, result) == (f, None)
  {
  }

  /** The call follows the mode and carries the form's fields: a magic link for `magic-link`,
      a sign-up for `register` with a password of six code units or more, a password sign-in
      in every other mode. While it is awaited the form is submitting with no error shown,
      so the disabled submit button stops a second submission. */
  lemma SubmitCallFollowsMode(f: Form)
    requires f.email != ""
    ensures var (busy, call) := StartSubmit(f);
      && (call.Some? ==> busy == f.(submitting := true, error := ""))
      && (f.mode == MagicLink ==> call == Some(SignInWithMagicLink(f.email)))
      && (f.mode == Register ==>
            (call.Some? <==> Utf16Length(f.password) >= MinPasswordLength)
            && (call.Some? ==> call.value == SignUp(f.email, f.password)))
      && (f.mode == Login || f.mode == CheckEmail ==> call == Some(SignIn(f.email, f.password)))
  {
  }

  /** Registering with a password shorter than six code units shows the length error, calls
      nothing, stays in `register` and is not submitting; the fields are kept. */
  lemma ShortPasswordRejected(f: Form, result: AuthResult)
    requires f.email != "" && f.mode == Register && Utf16Length(f.password) < MinPasswordLength
    ensures SubmitOutcome(f, result) == (f.(error := ShortPasswordError, submitting := false), None)
  {
  }

  /** A magic link or a registration the provider accepts moves the form to `check-email`,
      keeps the modal open and the email shown, and ends submitting. */
  lemma AcceptedLinkOrSignUpChecksEmail(f: Form)
    requires f.email != "" && (f.mode == MagicLink || (f.mode == Register && Utf16Length(f.password) >= MinPasswordLength))
    ensures var (after, call) := SubmitOutcome(f, AuthResult(None));
      && call.Some? && !call.value.SignIn?
      && after == f.(mode := CheckEmail, error := "", submitting := false)
  {
  }

  /** An accepted password sign-in closes the modal and resets the form. */
  lemma AcceptedSignInCloses(f: Form)
    requires f.email != "" && (f.mode == Login || f.mode == CheckEmail)
    ensures SubmitOutcome(f, AuthResult(None)) == (InitialForm, Some(SignIn(f.email, f.password)))
  {
  }

  /** A rejected call keeps the mode and the fields, shows the provider's message and ends
      submitting. */
  lemma RejectedCallShowsError(f: Form, message: string)
    requires f.email != ""
    requires !(f.mode == Register && Utf16Length(f.password) < MinPasswordLength)
    ensures var (after, call) := SubmitOutcome(f, AuthResult(Some(message)));
      && call.Some?
      && after == f.(error := message, submitting := false)
  {
  }

  /** Every submission with an email ends with `submitting` false, whatever the mode, the
      password and the provider's answer. */
  lemma SubmitAlwaysSettles(f: Form, result: AuthResult)
    requires f.email != ""
    ensures !SubmitOutcome(f, result).0.submitting
  {
  }

  /** The answer is applied to the state at the time it arrives: a magic link sent, then the
      modal closed while waiting, leaves a closed modal in `check-email` mode with the email
      already cleared, and that is what the modal shows when it is opened again. */
  lemma LateAnswerAfterClose(f: Form)
    requires f.email != "" && f.mode == MagicLink
    ensures var (busy, call) := StartSubmit(f);
      && call.Some?
      && FinishSubmit(Closed(busy), call.value, AuthResult(None)) == InitialForm.(mode := CheckEmail)
  {
  }

  /** The buttons that switch between modes. */
  datatype ModeButton =
    | MagicLinkButton       // "Sign in with Magic Link", shown in login
    | SignUpButton          // "Sign up", shown in login
    | SignInButton          // "Sign in", shown in register
    | PasswordLoginButton   // "Back to password login", shown in magic-link
    | BackToSignInButton    // "Back to sign in", shown in check-email

  /** The mode-switch buttons the open modal shows in each mode. */
  function ButtonsShown(mode: AuthMode): set<ModeButton>
  {
    match mode
    case Login => {MagicLinkButton, SignUpButton}
    case Register => {SignInButton}
    case MagicLink => {PasswordLoginButton}
    case CheckEmail => {BackToSignInButton}
  }

  /** What a mode-switch button does (lines 171, 244, 252, 265, 280). */
  function Press(f: Form, button: ModeButton): (r: Form)
    ensures r.showLoginModal == f.showLoginModal
  {
    match button
    case MagicLinkButton => f.(mode := MagicLink)
    case SignUpButton => f.(mode := Register, error := "")
    case SignInButton => f.(mode := Login, error := "")
    case PasswordLoginButton => f.(mode := Login, error := "")
    case BackToSignInButton => Reset(f)
  }

  /** The mode machine: from login to magic-link or register, from register back to login,
      from magic-link back to login, and from check-email back to a reset login form. A switch
      to login or register clears the error; the switch to magic-link keeps it; the email is
      kept by every switch but the reset. */
  lemma ModeTransitions(f: Form, button: ModeButton)
    requires button in ButtonsShown(f.mode)
    ensures var r := Press(f, button);
      && (f.mode == Login ==> r.mode == MagicLink || r.mode == Register)
      && (f.mode == Register || f.mode == MagicLink ==> r.mode == Login)
      && (f.mode == CheckEmail ==> r == Reset(f))
      && (r.mode == Login || r.mode == Register ==> r.error == "")
      && (r.mode == MagicLink ==> r.error == f.error)
      && (f.mode != CheckEmail ==> r.email == f.email && r.password == f.password)
  {
  }

  /** Check-email is entered only through an accepted magic link or sign-up: no button leads
      there and a submission that lands there made one of those two calls. */
  lemma CheckEmailOnlyAfterAcceptedCall(f: Form, button: ModeButton, result: AuthResult)
    requires f.mode != CheckEmail
    ensures Press(f, button).mode != CheckEmail
    ensures var (after, call) := SubmitOutcome(f, result);
      after.mode == CheckEmail ==>
        call.Some? && !call.value.SignIn? && result.error.None?
  {
  }

  /** The modal's state as the component holds it, one field per `useState`. */
  class UserMenu {
    var showLoginModal: bool
    var mode: AuthMode
    var email: string
    var password: string
    var error: string
    var submitting: bool

    function State(): Form
      reads this
    {
      Form(showLoginModal, mode, email, password, error, submitting)
    }

    constructor ()
      ensures State() == InitialForm
    {
      showLoginModal := false;
      mode := Login;
      email := "";
      password := "";
      error := "";
      submitting := false;
    }

    /** The "Sign In" button: open the modal. */
    method OpenModal()
      modifies this`showLoginModal
      ensures State() == old(State()).(showLoginModal := true)
    {
      showLoginModal := true;
    }

    /** The email input's `onChange`. */
    method SetEmail(text: string)
      modifies this`email
      ensures State() == old(State()).(email := text)
    {
      email := text;
    }

    /** The password input's `onChange`. */
    method SetPassword(text: string)
      modifies this`password
      ensures State() == old(State()).(password := text)
    {
      password := text;
    }

    method ResetForm()
      modifies this`mode, this`email, this`password, this`error, this`submitting
      ensures State() == Reset(old(State()))
    {
      mode := Login;
      email := "";
      password := "";
      error := "";
      submitting := false;
    }

    method CloseModal()
      modifies this
      ensures State() == Closed(old(State()))
    {
      showLoginModal := false;
      ResetForm();
    }

    /** A mode-switch button. */
    method PressButton(button: ModeButton)
      modifies this
      ensures State() == Press(old(State()), button)
    {
      match button
      case MagicLinkButton =>
        mode := MagicLink;
      case SignUpButton =>
        mode := Register;
        error := "";
      case SignInButton =>
        mode := Login;
        error := "";
      case PasswordLoginButton =>
        mode := Login;
        error := "";
      case BackToSignInButton =>
        ResetForm();
    }

    /** `handleSubmit` up to its `await`: returns the provider call to wait for, if any. */
    method SubmitBegin() returns (call: Option<AuthCall>)
      modifies this
      ensures (State(), call) == StartSubmit(old(State()))
    {
      if email == "" {
        return None;
      }
      submitting := true;
      error := "";
      if mode == MagicLink {
        call := Some(SignInWithMagicLink(email));
      } else if mode == Register {
        if Utf16Length(password) < MinPasswordLength {
          error := ShortPasswordError;
          submitting := false;
          return None;
        }
        call := Some(SignUp(email, password));
      } else {
        call := Some(SignIn(email, password));
      }
    }

    /** `handleSubmit` after its `await`, on the provider's answer to `call`. */
    method SubmitEnd(call: AuthCall, result: AuthResult)
      modifies this
      ensures State() == FinishSubmit(old(State()), call, result)
    {
      if result.error.None? {
        if call.SignIn? {
          CloseModal();
        } else {
          mode := CheckEmail;
          submitting := false;
        }
        return;
      }
      error := result.error.value;
      submitting := false;
    }

    /** The whole `handleSubmit`, answered by `result` with nothing happening meanwhile. */
    method HandleSubmit(result: AuthResult) returns (call: Option<AuthCall>)
      modifies this
      ensures (State(), call) == SubmitOutcome(old(State()), result)
    {
      call := SubmitBegin();
      if call.Some? {
        SubmitEnd(call.value, result);
      }
    }
  }
}
