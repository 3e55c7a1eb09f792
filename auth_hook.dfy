/**
 * The authentication state held by the `useAuth` hook: the current user, the
 * authenticated flag and the loading flag, changed by each handler. What the
 * awaited calls return (or that they threw) is passed in.
 */
module AuthHook {
  import opened Wrappers
  import opened Auth

  /** What an awaited `authLogin` / `authSignup` call produced. */
  datatype CallOutcome = Returned(result: AuthResult) | Raised

  /** What an awaited `getCurrentUser` call produced. */
  datatype Fetch = Fetched(user: Option<User>) | FetchFailed

  const LoginHookError: string := "An error occurred during login"
  const SignupHookError: string := "An error occurred during signup"

  /** The result a handler returns for an outcome: the call's own result, or its error message. */
  function HandlerResult(outcome: CallOutcome, errorMessage: string): (r: AuthResult)
    ensures outcome.Returned? ==> r == outcome.result
    ensures outcome.Raised? ==> !r.success && r.message == Some(errorMessage)
  {
    match outcome
    case Returned(result) => result
    case Raised => Failure(errorMessage)
  }

  /** The user a finished login or signup installs, if any. */
  function InstalledUser(outcome: CallOutcome): (u: Option<User>)
    ensures u.Some? <==> outcome.Returned? && outcome.result.success && outcome.result.user.Some?
    ensures u.Some? ==> u == outcome.result.user
  {
    if outcome.Returned? && outcome.result.success then outcome.result.user else None
  }

  /** A successful `login` of the user store always carries a user, so the hook installs it. */
  lemma StoreLoginInstalls(r: AuthResult)
    requires r.success ==> r.user.Some?
    ensures InstalledUser(Returned(r)).Some? <==> r.success
  {
  }

  class AuthState {
    var user: Option<User>
    var isAuthenticated: bool
    var isLoading: bool

    /** `isAuthenticated` means exactly that a user is present. */
    predicate Valid()
      reads this
    {
      isAuthenticated == user.Some?
    }

    /** The initial state: no user, not authenticated, loading. */
    constructor ()
      ensures Valid() && user == None && !isAuthenticated && isLoading
    {
      user := None;
      isAuthenticated := false;
      isLoading := true;
    }

    /** Installs a whole new state, as `setAuthState({...})` does. */
    method Set(u: Option<User>, loading: bool)
      modifies this
      ensures Valid() && user == u && isLoading == loading
    {
      user := u;
      isAuthenticated := u.Some?;
      isLoading := loading;
    }

    /** `loadUser` and `refreshAuth`: the fetched user, or no user after an error; loading ends. */
    method Reload(fetch: Fetch)
      modifies this
      ensures Valid() && !isLoading
      ensures user == if fetch.Fetched? then fetch.user else None
    {
      match fetch
      case Fetched(u) => Set(u, false);
      case FetchFailed => Set(None, false);
    }

    /** `setAuthState(prev => ({ ...prev, isLoading: true }))` at the start of login and signup. */
    method BeginRequest()
      requires Valid()
      modifies this`isLoading
      ensures Valid() && isLoading && user == old(user)
    {
      isLoading := true;
    }

    /** The rest of login and signup: install a returned user, otherwise keep the user; loading ends. */
    method FinishRequest(outcome: CallOutcome, errorMessage: string) returns (r: AuthResult)
      requires Valid()
      modifies this
      ensures Valid() && !isLoading
      ensures user == if InstalledUser(outcome).Some? then InstalledUser(outcome) else old(user)
      ensures r == HandlerResult(outcome, errorMessage)
    {
      match outcome
      case Raised =>
        isLoading := false;
        r := Failure(errorMessage);
      case Returned(result) =>
        if result.success && result.user.Some? {
          Set(result.user, false);
        } else {
          isLoading := false;
        }
        r := result;
    }

    /** The hook's `login`. */
    method Login(outcome: CallOutcome) returns (r: AuthResult)
      requires Valid()
      modifies this
      ensures Valid() && !isLoading
      ensures user == if InstalledUser(outcome).Some? then InstalledUser(outcome) else old(user)
      ensures r == HandlerResult(outcome, LoginHookError)
    {
      BeginRequest();
      r := FinishRequest(outcome, LoginHookError);
    }

    /** The hook's `signup`. */
    method Signup(outcome: CallOutcome) returns (r: AuthResult)
      requires Valid()
      modifies this
      ensures Valid() && !isLoading
      ensures user == if InstalledUser(outcome).Some? then InstalledUser(outcome) else old(user)
      ensures r == HandlerResult(outcome, SignupHookError)
    {
      BeginRequest();
      r := FinishRequest(outcome, SignupHookError);
    }

    /** The hook's `logout`: signed out when `authLogout` succeeds, the state untouched when it throws. */
    method Logout(outcome: Outcome<string>)
      requires Valid()
      modifies this
      ensures Valid()
      ensures outcome.Pass? ==> user == None && !isAuthenticated && !isLoading
      ensures outcome.Fail? ==> user == old(user) && isAuthenticated == old(isAuthenticated) && isLoading == old(isLoading)
    {
      if outcome.Pass? {
        Set(None, false);
      }
    }
  }
}
