/**
 * The login screen: its Login button, the "Forgot Password" dialog, and
 * what it does when `authState` changes.
 */
module LoginScreen {
  import opened Base
  import opened Text
  import opened Auth
  import opened Screen

  /** What a press of the Login button does. */
  datatype LoginPress = LoginRefused(toast: string) | CallLogin(username: string, password: string)

  /**
   * The Login button: a blank user name is refused first, a blank password
   * next; only then is `loginWithUsername` called, with the text as typed.
   */
  function OnLoginClick(username: string, password: string): (r: LoginPress)
    ensures IsBlank(username) ==> r == LoginRefused("Please enter your username")
    ensures !IsBlank(username) && IsBlank(password) ==> r == LoginRefused("Please enter your password")
    ensures r.CallLogin? <==> !IsBlank(username) && !IsBlank(password)
    ensures r.CallLogin? ==> r == CallLogin(username, password)
  {
    if IsBlank(username) then LoginRefused("Please enter your username")
    else if IsBlank(password) then LoginRefused("Please enter your password")
    else CallLogin(username, password)
  }

  /** What the dialog's "Reset Password" button does. */
  datatype ResetPress =
    | ResetRefused(toast: string)
    /** `sendPasswordResetEmail(email)` is called, the toast shown and the dialog closed. */
    | CallReset(email: string, toast: string)

  /**
   * The "Forgot Password" dialog: a blank e-mail is refused; otherwise the
   * request is sent and success is announced at once, before and whatever
   * its outcome.
   */
  function OnResetClick(email: string): (r: ResetPress)
    ensures r.CallReset? <==> !IsBlank(email)
    ensures r.CallReset? ==> r == CallReset(email, "Password reset email sent")
    ensures r.ResetRefused? ==> r.toast == "Please enter your email address"
  {
    if !IsBlank(email) then CallReset(email, "Password reset email sent")
    else ResetRefused("Please enter your email address")
  }

  /**
   * The screen's toast does not depend on the reset's outcome, while the
   * view model's message does: an unknown address still reads as sent.
   */
  lemma ResetToastIgnoresOutcome(email: string)
    requires !IsBlank(email)
    ensures OnResetClick(email).toast == "Password reset email sent"
    ensures ResetMessage(ResetInvalidUser) != "Password reset email sent."
  {
  }

  /**
   * The reaction to `authState`: the dashboard on `Authenticated`, the
   * error as a toast on `AuthenticationFailed` when there is one, and
   * nothing otherwise.
   */
  function OnAuthState(state: AuthState, errorMessage: Option<string>): (r: Reaction)
    ensures r == NavigateTo("dashboard") <==> state == Authenticated
    ensures r.ShowToast? <==> state == AuthenticationFailed && errorMessage.Some?
    ensures r.ShowToast? ==> r.message == errorMessage.value
    ensures r.NavigateTo? ==> r.route == "dashboard"
  {
    if state == Authenticated then NavigateTo("dashboard")
    else if state == AuthenticationFailed && errorMessage.Some? then ShowToast(errorMessage.value)
    else NoReaction
  }

  /** Every failed sign-in is reported with its message; a failed user query without a message is silent. */
  lemma FailedLoginFeedback(signIn: SignInOutcome)
    requires signIn != SignedIn
    ensures OnAuthState(AuthenticationFailed, Some(SignInError(signIn))) == ShowToast(SignInError(signIn))
    ensures OnAuthState(AuthenticationFailed, None) == NoReaction
  {
  }
}
