/**
 * `client/src/contexts/AuthContext.jsx`: the session state, that is the
 * `token` kept in localStorage and the `user` and `loading` React state, and
 * the mount effect, `login`, `register` and `logout` that update it. Each
 * asynchronous step is one sequential step whose server outcome is a
 * parameter.
 */
module Session {
  import opened Base
  import opened Js
  import PrivateRoute
  import AuthMiddleware

  /** A `user` object the server sends. */
  datatype Account = Account(id: int, username: Value, email: Value)

  /** The body of the profile response: with a `user` key, or a bare object read as the user. */
  datatype ProfileData = WithUser(user: Account) | Bare(account: Account)

  /** The body of a login or register response. */
  datatype AuthData = AuthData(token: string, user: Option<Account>)

  datatype State = State(token: Option<string>, user: Option<Account>, loading: bool)

  /** The state before the mount effect: no user yet, loading. */
  function Initial(token: Option<string>): State {
    State(token, None, true)
  }

  /** `data.user || data` */
  function ProfileUser(data: ProfileData): Account {
    match data
    case WithUser(u) => u
    case Bare(a) => a
  }

  /** `if (token)`: `getItem` gives `null` or a string, and the empty string is falsy. */
  predicate HasToken(s: State) {
    s.token.Some? && s.token.value != ""
  }

  /**
   * The mount effect once it has settled. Without a token, loading ends and
   * nothing else changes; with one, a profile gives the user, and a failure
   * removes the token and clears the user. Loading ends in every case.
   */
  function Mounted(s: State, fetched: Result<ProfileData>): (r: State)
    ensures !r.loading
    ensures !HasToken(s) ==> r == s.(loading := false)
    ensures HasToken(s) && fetched.Ok? ==> r == State(s.token, Some(ProfileUser(fetched.value)), false)
    ensures HasToken(s) && fetched.Error? ==> r == State(None, None, false)
  {
    if !HasToken(s) then s.(loading := false)
    else if fetched.Ok? then s.(user := Some(ProfileUser(fetched.value)), loading := false)
    else s.(token := None, user := None, loading := false)
  }

  /** A successful `login` or `register`: the token is stored first, then the user is set. */
  function SignedIn(s: State, data: AuthData): (r: State)
    ensures r.token == Some(data.token) && r.user == data.user && r.loading == s.loading
  {
    s.(token := Some(data.token), user := data.user)
  }

  /** `logout`: the token is removed and the user cleared. */
  function LoggedOut(s: State): (r: State)
    ensures r.token.None? && r.user.None? && r.loading == s.loading
  {
    s.(token := None, user := None)
  }

  /** Logging out twice is logging out once. */
  lemma LogoutIdempotent(s: State)
    ensures LoggedOut(LoggedOut(s)) == LoggedOut(s)
  {
  }

  /** Logging out undoes every sign-in: a login followed by a logout leaves no token and no user. */
  lemma LoginThenLogout(s: State, data: AuthData)
    ensures LoggedOut(SignedIn(s, data)) == LoggedOut(s)
  {
  }

  /** Mounting without a token leaves the protected routes redirecting to the login page. */
  lemma NoTokenRedirects(token: Option<string>, fetched: Result<ProfileData>)
    requires token.None? || token == Some("")
    ensures PrivateRoute.Render(Mounted(Initial(token), fetched).loading, Mounted(Initial(token), fetched).user)
      == PrivateRoute.Redirect("/login", true)
  {
  }

  /** Before the mount effect settles, protected routes show the placeholder whatever is stored. */
  lemma InitialShowsPlaceholder(token: Option<string>)
    ensures PrivateRoute.Render(Initial(token).loading, Initial(token).user) == PrivateRoute.LoadingPlaceholder
  {
  }

  /** After mounting, a sign-in that returns a user opens the protected routes, and a logout closes them. */
  lemma SignInOpensRoutes(s: State, fetched: Result<ProfileData>, data: AuthData)
    requires data.user.Some?
    ensures var m := Mounted(s, fetched);
      && PrivateRoute.Render(SignedIn(m, data).loading, SignedIn(m, data).user) == PrivateRoute.Children
      && PrivateRoute.Render(LoggedOut(SignedIn(m, data)).loading, LoggedOut(SignedIn(m, data)).user)
         == PrivateRoute.Redirect("/login", true)
  {
  }

  /** The profile request's header, `Bearer ${token}`. */
  function AuthorizationHeader(token: string): string {
    "Bearer " + token
  }

  /** The middleware takes back exactly the stored token from that header, when the token has no space. */
  lemma HeaderCarriesToken(token: string)
    requires ' ' !in token
    ensures AuthMiddleware.ExtractToken(Some(AuthorizationHeader(token))) == Some(token)
  {
    assert ' ' !in "Bearer";
    AuthMiddleware.AnySchemeAccepted("Bearer", token);
    assert "Bearer" + " " + token == AuthorizationHeader(token);
  }

  class AuthProvider {
    /** localStorage's `token` entry. */
    var token: Option<string>
    var user: Option<Account>
    var loading: bool

    function CurrentState(): State
      reads this
    {
      State(token, user, loading)
    }

    /** The provider as first rendered, over whatever localStorage holds. */
    constructor (stored: Option<string>)
      ensures CurrentState() == Initial(stored)
    {
      token := stored;
      user := None;
      loading := true;
    }

    /**
     * The mount effect, with `fetched` the outcome of `fetchUserProfile`:
     * returns the header the profile was fetched with, `None` when no fetch
     * was made.
     */
    method Mount(fetched: Result<ProfileData>) returns (request: Option<string>)
      modifies this
      ensures CurrentState() == Mounted(old(CurrentState()), fetched)
      ensures request.Some? <==> HasToken(old(CurrentState()))
      ensures request.Some? ==> request.value == AuthorizationHeader(old(token).value)
    {
      if token.Some? && token.value != "" {
        request := Some(AuthorizationHeader(token.value));
        match fetched {
          case Ok(data) =>
            user := Some(ProfileUser(data));
          case Error(_) =>
            token := None;
            user := None;
        }
        loading := false;
      } else {
        request := None;
        loading := false;
      }
    }

    /**
     * `login`, with `response` the outcome of `loginUser`: a success stores
     * the token and sets the user; a failure is rethrown (`failed`) and
     * changes nothing.
     */
    method Login(response: Result<AuthData>) returns (failed: bool)
      modifies this
      ensures failed <==> response.Error?
      ensures response.Error? ==> CurrentState() == old(CurrentState())
      ensures response.Ok? ==> CurrentState() == SignedIn(old(CurrentState()), response.value)
    {
      if response.Error? {
        return true;
      }
      var data := response.value;
      token := Some(data.token);
      user := data.user;
      failed := false;
    }

    /** `register`: the same steps as `login`, with `registerUser`. */
    method Register(response: Result<AuthData>) returns (failed: bool)
      modifies this
      ensures failed <==> response.Error?
      ensures response.Error? ==> CurrentState() == old(CurrentState())
      ensures response.Ok? ==> CurrentState() == SignedIn(old(CurrentState()), response.value)
    {
      if response.Error? {
        return true;
      }
      var data := response.value;
      token := Some(data.token);
      user := data.user;
      failed := false;
    }

    method Logout()
      modifies this
      ensures CurrentState() == LoggedOut(old(CurrentState()))
    {
      token := None;
      user := None;
    }
  }
}
