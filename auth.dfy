/**
 * Sign-in, registration, sign-out, password reset and the user-name lookup,
 * as the `AuthViewModel` walks them: each operation assigns `authState`,
 * `errorMessage` and `username` along a fixed path chosen by the outcomes of
 * the remote calls, which are passed in.
 */
module Auth {
  import opened Base

  /** `AuthState`. */
  datatype AuthState =
    | Idle
    | Authenticating
    | Authenticated
    | AuthenticationFailed
    | Registering
    | Registered
    | RegistrationFailed

  /** A record of the "users" collection. */
  datatype User = User(id: string, username: string, email: string)

  /** The result of the query `whereEqualTo("username", ...)` on "users". */
  datatype UserQuery =
    | QueryFailed(message: Option<string>)
    | QueryResult(matches: seq<User>)

  /** How `signInWithEmailAndPassword` completes. */
  datatype SignInOutcome = SignedIn | InvalidCredentials | InvalidUser | OtherSignInError

  /** How `createUserWithEmailAndPassword` completes; `uid` is the new current user's id. */
  datatype CreateOutcome =
    | Created(uid: Option<string>)
    | WeakPassword(reason: Option<string>)
    | InvalidEmail
    | OtherCreateError(localizedMessage: Option<string>)

  /** How a document write completes. */
  datatype WriteOutcome = Written | WriteFailed(message: Option<string>)

  /** How `sendPasswordResetEmail` completes. */
  datatype ResetOutcome = ResetSent | ResetInvalidUser | OtherResetError(localizedMessage: Option<string>)

  /** How reading `users/<id>` completes; `username` is its "username" field. */
  datatype FetchOutcome = FetchFailed | DocumentMissing | DocumentFound(username: Option<string>)

  /** A call the view model makes on the authentication or document service. */
  datatype BackendCall =
    | QueryUsername(username: string)
    | SignIn(email: string, password: string)
    | CreateAccount(email: string, password: string)
    | WriteUser(id: string, user: User)
    | SignOut
    | SendReset(email: string)
    | FetchUser(id: string)

  /** The error text of a failed sign-in. */
  function SignInError(outcome: SignInOutcome): (r: string)
    requires outcome != SignedIn
    ensures r == "No account found with this email." <==> outcome == InvalidUser
    ensures outcome != InvalidUser ==> r == "Incorrect password. Please try again."
  {
    if outcome == InvalidUser then "No account found with this email."
    else "Incorrect password. Please try again."
  }

  /** The error text of a failed account creation; never null, since every case has a fallback text. */
  function CreateError(outcome: CreateOutcome): (r: Option<string>)
    requires !outcome.Created?
    ensures outcome.WeakPassword? ==> r == Some("Weak password: " + TemplateText(outcome.reason))
    ensures outcome.InvalidEmail? ==> r == Some("Invalid email address.")
    ensures outcome.OtherCreateError? ==> r == Some(outcome.localizedMessage.GetOr("Registration failed."))
  {
    match outcome
    case WeakPassword(reason) => Some("Weak password: " + TemplateText(reason))
    case InvalidEmail => Some("Invalid email address.")
    case OtherCreateError(message) => Some(message.GetOr("Registration failed."))
  }

  /** The message a password-reset request leaves in `errorMessage`. */
  function ResetMessage(outcome: ResetOutcome): (r: string)
    ensures outcome.ResetSent? ==> r == "Password reset email sent."
    ensures outcome.ResetInvalidUser? ==> r == "No user found with this email."
    ensures outcome.OtherResetError? ==> r == outcome.localizedMessage.GetOr("Failed to send password reset email.")
  {
    match outcome
    case ResetSent => "Password reset email sent."
    case ResetInvalidUser => "No user found with this email."
    case OtherResetError(message) => message.GetOr("Failed to send password reset email.")
  }

  /** The user name a fetch settles on. */
  function FetchedUsername(outcome: FetchOutcome): (r: string)
    ensures outcome.DocumentFound? && outcome.username.Some? ==> r == outcome.username.value
    ensures !(outcome.DocumentFound? && outcome.username.Some?) ==> r == "Unknown User"
  {
    match outcome
    case DocumentFound(name) => name.GetOr("Unknown User")
    case _ => "Unknown User"
  }

  /**
   * The moves `authState` can make: every operation starts from any state
   * with `Idle`, `Authenticating` or `Registering`, and the outcome states
   * only follow the matching in-progress state.
   */
  predicate Step(from: AuthState, to: AuthState) {
    match to
    case Idle | Authenticating | Registering => true
    case Authenticated | AuthenticationFailed => from == Authenticating
    case Registered | RegistrationFailed => from == Registering
  }

  /** A history of `authState` values, starting from `Idle`, made of moves. */
  predicate ValidTrace(states: seq<AuthState>) {
    && states != []
    && states[0] == Idle
    && forall i :: 0 < i < |states| ==> Step(states[i - 1], states[i])
  }

  lemma ExtendTrace(states: seq<AuthState>, next: AuthState)
    requires ValidTrace(states) && Step(states[|states| - 1], next)
    ensures ValidTrace(states + [next])
  {
  }

  /**
   * In any history, the user is never reported signed in, nor registered,
   * without the matching in-progress state just before.
   */
  lemma OutcomesFollowProgress(states: seq<AuthState>, i: nat)
    requires ValidTrace(states) && i < |states|
    ensures states[i] in {Authenticated, AuthenticationFailed} ==> i > 0 && states[i - 1] == Authenticating
    ensures states[i] in {Registered, RegistrationFailed} ==> i > 0 && states[i - 1] == Registering
  {
  }

  /** `AuthViewModel`. */
  class AuthViewModel {
    var authState: AuthState
    var errorMessage: Option<string>
    var username: Option<string>
    /** Every value `authState` has been given, in order, starting with the initial `Idle`. */
    ghost var states: seq<AuthState>
    /** Every value `errorMessage` has been given after construction, in order. */
    ghost var messages: seq<Option<string>>
    /** Every remote call made, in order. */
    ghost var calls: seq<BackendCall>

    ghost predicate Valid()
      reads this
    {
      ValidTrace(states) && authState == states[|states| - 1]
    }

    method SetState(s: AuthState)
      requires Valid() && Step(authState, s)
      modifies this
      ensures Valid()
      ensures authState == s && states == old(states) + [s]
      ensures errorMessage == old(errorMessage) && username == old(username)
      ensures messages == old(messages) && calls == old(calls)
    {
      ExtendTrace(states, s);
      authState := s;
      states := states + [s];
    }

    method SetMessage(m: Option<string>)
      modifies this
      ensures errorMessage == m && messages == old(messages) + [m]
      ensures authState == old(authState) && username == old(username)
      ensures states == old(states) && calls == old(calls)
    {
      errorMessage := m;
      messages := messages + [m];
    }

    /**
     * The view model's `init`: no state, no error, no user name; with a user
     * already signed in, that user's name is fetched.
     */
    constructor(currentUser: Option<string>, fetch: FetchOutcome)
      ensures Valid()
      ensures authState == Idle && states == [Idle] && errorMessage == None && messages == []
      ensures currentUser.None? ==> username == None && calls == []
      ensures currentUser.Some? ==>
                username == Some(FetchedUsername(fetch)) && calls == [FetchUser(currentUser.value)]
    {
      authState := Idle;
      errorMessage := None;
      username := None;
      states := [Idle];
      messages := [];
      calls := [];
      new;
      if currentUser.Some? {
        FetchUsernameFromFirestore(currentUser.value, fetch);
      }
    }

    /**
     * `loginWithUsername` and `login`: the user record is looked up by name
     * and its e-mail is signed in with the password.
     */
    method LoginWithUsername(name: string, password: string, query: UserQuery, signIn: SignInOutcome)
      requires Valid()
      modifies this
      ensures Valid() && username == old(username)
      ensures states == old(states) + [Authenticating, authState]
      ensures messages == old(messages) + [None] + (if authState == Authenticated then [] else [errorMessage])
      ensures query.QueryFailed? ==>
                && authState == AuthenticationFailed && errorMessage == query.message
                && calls == old(calls) + [QueryUsername(name)]
      ensures query.QueryResult? && query.matches == [] ==>
                && authState == AuthenticationFailed && errorMessage == Some("Username not found.")
                && calls == old(calls) + [QueryUsername(name)]
      ensures query.QueryResult? && query.matches != [] && query.matches[0].email == "" ==>
                && authState == AuthenticationFailed && errorMessage == Some("Email not found for username.")
                && calls == old(calls) + [QueryUsername(name)]
      ensures query.QueryResult? && query.matches != [] && query.matches[0].email != "" ==>
                && calls == old(calls) + [QueryUsername(name), SignIn(query.matches[0].email, password)]
                && (signIn == SignedIn ==> authState == Authenticated && errorMessage == None)
                && (signIn != SignedIn ==> authState == AuthenticationFailed && errorMessage == Some(SignInError(signIn)))
    {
      SetState(Authenticating);
      SetMessage(None);
      calls := calls + [QueryUsername(name)];
      match query
      case QueryFailed(message) =>
        SetState(AuthenticationFailed);
        SetMessage(message);
      case QueryResult(matches) =>
        if matches == [] {
          SetState(AuthenticationFailed);
          SetMessage(Some("Username not found."));
        } else {
          var email := matches[0].email;
          if email != "" {
            Login(email, password, signIn);
          } else {
            SetState(AuthenticationFailed);
            SetMessage(Some("Email not found for username."));
          }
        }
    }

    /** `login`: the sign-in attempt and the state and message it ends in. */
    method Login(email: string, password: string, signIn: SignInOutcome)
      requires Valid() && authState == Authenticating
      modifies this
      ensures Valid() && username == old(username)
      ensures calls == old(calls) + [SignIn(email, password)]
      ensures states == old(states) + [authState]
      ensures signIn == SignedIn ==>
                authState == Authenticated && errorMessage == old(errorMessage) && messages == old(messages)
      ensures signIn != SignedIn ==>
                && authState == AuthenticationFailed && errorMessage == Some(SignInError(signIn))
                && messages == old(messages) + [errorMessage]
    {
      calls := calls + [SignIn(email, password)];
      if signIn == SignedIn {
        SetState(Authenticated);
      } else {
        SetState(AuthenticationFailed);
        SetMessage(Some(SignInError(signIn)));
      }
    }

    /**
     * `register`: the name must be unused; then the account is created and
     * the user record written under the new user's id. `Registered` is
     * reached only when both succeed.
     */
    method Register(name: string, email: string, password: string,
                    query: UserQuery, create: CreateOutcome, write: WriteOutcome)
      requires Valid()
      modifies this
      ensures Valid() && username == old(username)
      ensures states == old(states) + [Registering, authState]
      ensures messages == old(messages) + [None] + (if authState == Registered then [] else [errorMessage])
      ensures authState == Registered <==>
                query == QueryResult([]) && create.Created? && write == Written
      ensures query.QueryFailed? ==>
                && authState == RegistrationFailed && errorMessage == query.message
                && calls == old(calls) + [QueryUsername(name)]
      ensures query.QueryResult? && query.matches != [] ==>
                && authState == RegistrationFailed && errorMessage == Some("Username already exists.")
                && calls == old(calls) + [QueryUsername(name)]
      ensures query == QueryResult([]) && !create.Created? ==>
                && authState == RegistrationFailed && errorMessage == CreateError(create)
                && calls == old(calls) + [QueryUsername(name), CreateAccount(email, password)]
      ensures query == QueryResult([]) && create.Created? ==>
                var id := create.uid.GetOr("");
                && calls == old(calls) + [QueryUsername(name), CreateAccount(email, password), WriteUser(id, User(id, name, email))]
                && (write == Written ==> errorMessage == None)
                && (write.WriteFailed? ==> authState == RegistrationFailed && errorMessage == write.message)
    {
      SetState(Registering);
      SetMessage(None);
      calls := calls + [QueryUsername(name)];
      match query
      case QueryFailed(message) =>
        SetState(RegistrationFailed);
        SetMessage(message);
      case QueryResult(matches) =>
        if matches == [] {
          CreateAndStoreUser(name, email, password, create, write);
        } else {
          SetState(RegistrationFailed);
          SetMessage(Some("Username already exists."));
        }
    }

    /**
     * The second half of `register`, once the name is known to be unused:
     * the account is created and the user record is written under its id.
     */
    method CreateAndStoreUser(name: string, email: string, password: string, create: CreateOutcome, write: WriteOutcome)
      requires Valid() && authState == Registering
      modifies this
      ensures Valid() && username == old(username)
      ensures states == old(states) + [authState]
      ensures messages == old(messages) + (if authState == Registered then [] else [errorMessage])
      ensures authState == Registered <==> create.Created? && write == Written
      ensures !create.Created? ==>
                && authState == RegistrationFailed && errorMessage == CreateError(create)
                && calls == old(calls) + [CreateAccount(email, password)]
      ensures create.Created? ==>
                var id := create.uid.GetOr("");
                && calls == old(calls) + [CreateAccount(email, password), WriteUser(id, User(id, name, email))]
                && (write == Written ==> errorMessage == old(errorMessage))
                && (write.WriteFailed? ==> authState == RegistrationFailed && errorMessage == write.message)
    {
      calls := calls + [CreateAccount(email, password)];
      match create
      case Created(uid) =>
        var userId := uid.GetOr("");
        var user := User(userId, name, email);
        calls := calls + [WriteUser(userId, user)];
        match write {
          case Written =>
            SetState(Registered);
          case WriteFailed(message) =>
            SetState(RegistrationFailed);
            SetMessage(message);
        }
      case _ =>
        SetState(RegistrationFailed);
        SetMessage(CreateError(create));
    }

    /** `logout`: signs out and always returns to `Idle`; the message and the name are kept. */
    method Logout()
      requires Valid()
      modifies this
      ensures Valid()
      ensures authState == Idle && states == old(states) + [Idle]
      ensures errorMessage == old(errorMessage) && messages == old(messages) && username == old(username)
      ensures calls == old(calls) + [SignOut]
    {
      calls := calls + [SignOut];
      SetState(Idle);
    }

    /** `sendPasswordResetEmail`: only `errorMessage` changes, never `authState`. */
    method SendPasswordResetEmail(email: string, outcome: ResetOutcome)
      requires Valid()
      modifies this
      ensures Valid()
      ensures authState == old(authState) && states == old(states) && username == old(username)
      ensures errorMessage == Some(ResetMessage(outcome)) && messages == old(messages) + [errorMessage]
      ensures calls == old(calls) + [SendReset(email)]
    {
      calls := calls + [SendReset(email)];
      SetMessage(Some(ResetMessage(outcome)));
    }

    /** `fetchUsernameFromFirestore`: the stored name, or "Unknown User" on any failure. */
    method FetchUsernameFromFirestore(userId: string, outcome: FetchOutcome)
      modifies this
      ensures username == Some(FetchedUsername(outcome))
      ensures authState == old(authState) && states == old(states)
      ensures errorMessage == old(errorMessage) && messages == old(messages)
      ensures calls == old(calls) + [FetchUser(userId)]
    {
      calls := calls + [FetchUser(userId)];
      username := Some(FetchedUsername(outcome));
    }
  }
}
