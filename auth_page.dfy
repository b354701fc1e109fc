/** The sign-in page: which of the three forms is shown, and the e-mail carried between them. */
module AuthPage {
  datatype Mode = SignIn | SignUp | Confirm

  /** The form rendered, with the e-mail it is given. */
  datatype Form = SignInForm(prefilledEmail: string) | SignUpForm | ConfirmCodeForm(email: string)

  class AuthPage {
    var mode: Mode
    var pendingEmail: string

    constructor()
      ensures mode == SignIn && pendingEmail == ""
    {
      mode := SignIn;
      pendingEmail := "";
    }

    /** Exactly one form is shown, chosen by the mode; the sign-in and confirm forms get the pending e-mail. */
    function Rendered(): (f: Form)
      reads this
      ensures f.SignInForm? <==> mode == SignIn
      ensures f.SignUpForm? <==> mode == SignUp
      ensures f.ConfirmCodeForm? <==> mode == Confirm
      ensures f.SignInForm? ==> f.prefilledEmail == pendingEmail
      ensures f.ConfirmCodeForm? ==> f.email == pendingEmail
    {
      match mode
      case SignIn => SignInForm(pendingEmail)
      case SignUp => SignUpForm
      case Confirm => ConfirmCodeForm(pendingEmail)
    }

    /** `handleSwitchToSignUp` */
    method SwitchToSignUp()
      modifies this
      ensures mode == SignUp && pendingEmail == old(pendingEmail)
    {
      mode := SignUp;
    }

    /** `handleSwitchToSignIn` */
    method SwitchToSignIn()
      modifies this
      ensures mode == SignIn && pendingEmail == old(pendingEmail)
    {
      mode := SignIn;
    }

    /** `handleSwitchToConfirm(email)`: remembers the e-mail just signed up. */
    method SwitchToConfirm(email: string)
      modifies this
      ensures mode == Confirm && pendingEmail == email
    {
      pendingEmail := email;
      mode := Confirm;
    }

    /** `handleBackToSignUp` */
    method BackToSignUp()
      modifies this
      ensures mode == SignUp && pendingEmail == old(pendingEmail)
    {
      mode := SignUp;
    }

    /** `handleConfirmSuccess`: back to sign-in, keeping the e-mail to prefill it. */
    method ConfirmSuccess()
      modifies this
      ensures mode == SignIn && pendingEmail == old(pendingEmail)
    {
      mode := SignIn;
    }

    /** `handleSuccess`: forgets the pending e-mail, whatever form is shown. */
    method Success()
      modifies this
      ensures mode == old(mode) && pendingEmail == ""
    {
      pendingEmail := "";
    }
  }

  /**
   * Signing up with an e-mail and confirming it leads to the sign-in form
   * prefilled with that e-mail, whatever form was shown before.
   */
  method SignUpAndConfirm(page: AuthPage, email: string) returns (shown: Form)
    modifies page
    ensures shown == SignInForm(email) && shown == page.Rendered()
  {
    page.SwitchToConfirm(email);
    assert page.Rendered() == ConfirmCodeForm(email);
    page.ConfirmSuccess();
    shown := page.Rendered();
  }
}
