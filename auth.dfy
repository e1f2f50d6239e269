/** The session state of `AuthViewModel` (QuoteValut/ViewModels/AuthViewModel.swift): whether a user
    is signed in, who, whether a sign-in is under way and the last error. Each call into the auth
    service is an outcome passed in by the caller; the credentials only travel to that service. */
module Auth {
  import opened Outcomes
  import opened Quotes

  /** `client.auth.session`, reduced to what the view model reads from it. */
  datatype Session = Session(userId: Uuid)

  /** The `do` block shared by `login` and `signup`: the sign-in (or sign-up) call, then the
      session read. The first call that throws decides the error; the session read only happens
      after the first call succeeded. */
  function SignInResult(call: Outcome<()>, session: Outcome<Session>): (r: Outcome<Uuid>)
    ensures r.Ok? <==> call.Ok? && session.Ok?
    ensures r.Ok? ==> r.payload == session.payload.userId
    ensures call.Err? ==> r == Err(call.msg)
    ensures call.Ok? && session.Err? ==> r == Err(session.msg)
  {
    match call
    case Err(m) => Err(m)
    case Ok(_) =>
      match session
      case Err(m) => Err(m)
      case Ok(s) => Ok(s.userId)
  }

  class AuthViewModel {
    var isAuthenticated: bool
    var isLoading: bool
    var errorMessage: Option<string>
    var userId: Option<Uuid>

    /** Signed in implies a known user. */
    predicate Valid()
      reads this
    {
      isAuthenticated ==> userId.Some?
    }

    /** The published initial values; the session check `init` starts in a `Task` is a separate
        `CheckSession` step. */
    constructor ()
      ensures Valid()
      ensures !isAuthenticated && !isLoading && errorMessage == None && userId == None
    {
      isAuthenticated := false;
      isLoading := false;
      errorMessage := None;
      userId := None;
    }

    /** `checkSession()`. */
    method CheckSession(session: Outcome<Session>)
      modifies this
      ensures Valid()
      ensures isAuthenticated <==> session.Ok?
      ensures userId == if session.Ok? then Some(session.payload.userId) else None
      ensures isLoading == old(isLoading) && errorMessage == old(errorMessage)
    {
      match session {
        case Ok(s) =>
          isAuthenticated := true;
          userId := Some(s.userId);
        case Err(_) =>
          isAuthenticated := false;
          userId := None;
      }
    }

    /** `login(email:password:)`; `signIn` is the outcome of `client.auth.signIn`, `session` that
        of the session read that follows it. */
    method Login(signIn: Outcome<()>, session: Outcome<Session>)
      modifies this
      ensures Valid()
      ensures !isLoading
      ensures isAuthenticated <==> SignInResult(signIn, session).Ok?
      // success: the session user, no error; failure: the error, the old user id kept
      ensures userId == match SignInResult(signIn, session)
        case Ok(u) => Some(u)
        case Err(_) => old(userId)
      ensures errorMessage == match SignInResult(signIn, session)
        case Ok(_) => None
        case Err(m) => Some(m)
    {
      isLoading := true;
      errorMessage := None;
      match SignInResult(signIn, session) {
        case Ok(u) =>
          userId := Some(u);
          isAuthenticated := true;
        case Err(m) =>
          errorMessage := Some(m);
          isAuthenticated := false;
      }
      isLoading := false;
    }

    /** `signup(email:password:)`: the transitions of `login`, with `signUp` the outcome of
        `client.auth.signUp`. */
    method Signup(signUp: Outcome<()>, session: Outcome<Session>)
      modifies this
      ensures Valid()
      ensures !isLoading
      ensures isAuthenticated <==> SignInResult(signUp, session).Ok?
      ensures userId == match SignInResult(signUp, session)
        case Ok(u) => Some(u)
        case Err(_) => old(userId)
      ensures errorMessage == match SignInResult(signUp, session)
        case Ok(_) => None
        case Err(m) => Some(m)
    {
      isLoading := true;
      errorMessage := None;
      match SignInResult(signUp, session) {
        case Ok(u) =>
          userId := Some(u);
          isAuthenticated := true;
        case Err(m) =>
          errorMessage := Some(m);
          isAuthenticated := false;
      }
      isLoading := false;
    }

    /** `logout()`: a confirmed sign-out forgets the user; a failed one changes nothing. */
    method Logout(signOut: Outcome<()>)
      requires Valid()
      modifies this
      ensures Valid()
      ensures signOut.Ok? ==> !isAuthenticated && userId == None
      ensures signOut.Err? ==> isAuthenticated == old(isAuthenticated) && userId == old(userId)
      ensures isLoading == old(isLoading) && errorMessage == old(errorMessage)
    {
      if signOut.Ok? {
        isAuthenticated := false;
        userId := None;
      }
    }
  }
}
