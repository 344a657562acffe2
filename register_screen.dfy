/** The registration screen: its Register button and its reaction to `authState`. */
module RegisterScreen {
  import opened Base
  import opened Text
  import opened Auth
  import opened Screen

  /** The minimum password length the screen asks for. */
  const MinPasswordLength: nat := 6

  /** What a press of the Register button does. */
  datatype RegisterPress =
    | RegisterRefused(toast: string)
    | CallRegister(username: string, email: string, password: string)

  /**
   * The Register button. `emailMatchesPattern` is the verdict of the
   * platform's e-mail address pattern on `email`. The checks run in order:
   * a blank name, then a blank or malformed address, then a password
   * shorter than six characters; `register` is called only past all three.
   */
  function OnRegisterClick(username: string, email: string, password: string, emailMatchesPattern: bool)
    : (r: RegisterPress)
    ensures IsBlank(username) ==> r == RegisterRefused("Please enter a username")
    ensures !IsBlank(username) && (IsBlank(email) || !emailMatchesPattern) ==>
              r == RegisterRefused("Please enter a valid email address")
    ensures !IsBlank(username) && !IsBlank(email) && emailMatchesPattern && |password| < MinPasswordLength ==>
              r == RegisterRefused("Password must be at least 6 characters")
    ensures r.CallRegister? <==>
              !IsBlank(username) && !IsBlank(email) && emailMatchesPattern && |password| >= MinPasswordLength
    ensures r.CallRegister? ==> r == CallRegister(username, email, password)
  {
    if IsBlank(username) then RegisterRefused("Please enter a username")
    else if IsBlank(email) || !emailMatchesPattern then RegisterRefused("Please enter a valid email address")
    else if |password| < MinPasswordLength then RegisterRefused("Password must be at least 6 characters")
    else CallRegister(username, email, password)
  }

  /** The password check counts characters: a password of six spaces is blank and still passes. */
  lemma SixSpacesPass(username: string, email: string)
    requires !IsBlank(username) && !IsBlank(email)
    ensures IsBlank("      ")
    ensures OnRegisterClick(username, email, "      ", true) == CallRegister(username, email, "      ")
  {
  }

  /**
   * The reaction to `authState`: the dashboard on `Registered`, the error
   * as a toast on `RegistrationFailed` when there is one, and nothing
   * otherwise.
   */
  function OnAuthState(state: AuthState, errorMessage: Option<string>): (r: Reaction)
    ensures r == NavigateTo("dashboard") <==> state == Registered
    ensures r.ShowToast? <==> state == RegistrationFailed && errorMessage.Some?
    ensures r.ShowToast? ==> r.message == errorMessage.value
    ensures r.NavigateTo? ==> r.route == "dashboard"
  {
    if state == Registered then NavigateTo("dashboard")
    else if state == RegistrationFailed && errorMessage.Some? then ShowToast(errorMessage.value)
    else NoReaction
  }

  /** Every failed account creation is reported, since its message is never null. */
  lemma FailedCreationFeedback(create: CreateOutcome)
    requires !create.Created?
    ensures CreateError(create).Some?
    ensures OnAuthState(RegistrationFailed, CreateError(create)) == ShowToast(CreateError(create).value)
  {
  }
}
