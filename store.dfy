/**
 * The client's global store: the authentication, workspace, channel and
 * theme slices and the socket, the actions that replace them, the message
 * shown when a login or registration fails, and the part of the state that
 * is persisted between sessions.
 */
module Store {
  import opened Wrappers
  import opened Json
  import Auth

  /** The user object the server returned; profile updates merge fields into it. */
  type User = Object

  datatype AuthStatus = AuthStatus(isAuthenticated: bool, isLoading: bool)
  datatype AuthState = AuthState(currentUser: Option<User>, authToken: Option<string>, status: AuthStatus,
                                 errorMessage: Option<string>)

  datatype Workspace = Workspace(workspaceId: string, name: string, ownerUserId: string)
  datatype WorkspaceState = WorkspaceState(selectedWorkspaceId: Option<string>, workspaces: seq<Workspace>)

  datatype Channel = Channel(channelId: string, name: string, workspaceId: string, isPrivate: bool)
  datatype ChannelState = ChannelState(selectedChannelId: Option<string>, channels: seq<Channel>)

  datatype Theme = Light | Dark

  /** A socket opened with the given token as its `auth.token`. */
  datatype Socket = Socket(token: string)

  /** The store's data; the actions are below. */
  datatype State = State(auth: AuthState, workspace: WorkspaceState, channel: ChannelState, theme: Theme,
                         socket: Option<Socket>)

  /** The initial state: nobody signed in, the session still being checked, light theme. */
  const Initial := State(AuthState(None, None, AuthStatus(false, true), None),
                         WorkspaceState(None, []), ChannelState(None, []), Light, None)

  // ---------------------------------------------------------------------
  // login_user and register_user
  // ---------------------------------------------------------------------

  /** The `data` of a successful `/auth/login` or `/auth/register` answer. */
  datatype Session = Session(user: User, authToken: string)

  /**
   * What the HTTP client rejects with: a network error `code`, the
   * response's status and `data.message` when there was a response, and the
   * error's own `message`.
   */
  datatype RequestError = RequestError(code: Option<string>, responseStatus: Option<int>,
                                       responseMessage: Option<string>, message: string)

  const ConnectMessage := "Unable to connect to server. Please check your connection and try again."
  const UnavailableMessage := "Server is temporarily unavailable. Please try again in a moment."
  const LoginFailed := "Login failed"
  const RegistrationFailed := "Registration failed"

  predicate NetworkFailure(e: RequestError) {
    e.code == Some("ECONNABORTED") || e.code == Some("ERR_NETWORK")
  }

  /** `error.response?.data?.message` is truthy. */
  predicate HasServerMessage(e: RequestError) {
    e.responseMessage.Some? && e.responseMessage.value != []
  }

  /**
   * The message shown for a failed request: a connection problem first,
   * then a 502, then the server's own message, then the error's message,
   * and the action's fallback when there is none of these.
   */
  function FailureMessage(e: RequestError, fallback: string): (m: string)
    ensures NetworkFailure(e) ==> m == ConnectMessage
    ensures !NetworkFailure(e) && e.responseStatus == Some(502) ==> m == UnavailableMessage
  {
    if NetworkFailure(e) then ConnectMessage
    else if e.responseStatus == Some(502) then UnavailableMessage
    else if HasServerMessage(e) then e.responseMessage.value
    else if e.message != [] then e.message
    else fallback
  }

  /**
   * The server's message is shown exactly when there is no connection
   * problem and no 502, and the fallback exactly when no message of any
   * kind is available; the shown message is never empty.
   */
  lemma FailureMessagePrecedence(e: RequestError, fallback: string)
    requires fallback != []
    ensures FailureMessage(e, fallback) != []
    ensures !NetworkFailure(e) && e.responseStatus != Some(502) && HasServerMessage(e) ==>
      FailureMessage(e, fallback) == e.responseMessage.value
    ensures !NetworkFailure(e) && e.responseStatus != Some(502) && !HasServerMessage(e) ==>
      FailureMessage(e, fallback) == (if e.message != [] then e.message else fallback)
  {
  }

  /** The first `set` of a login or registration: loading, no error, everything else kept. */
  function StartAuth(s: State): (r: State)
    ensures r.auth.status.isLoading && r.auth.errorMessage.None?
    ensures r.auth.currentUser == s.auth.currentUser && r.auth.authToken == s.auth.authToken
    ensures r.auth.status.isAuthenticated == s.auth.status.isAuthenticated
    ensures r.workspace == s.workspace && r.channel == s.channel && r.theme == s.theme && r.socket == s.socket
  {
    s.(auth := s.auth.(status := s.auth.status.(isLoading := true), errorMessage := None))
  }

  /**
   * The answer of a login or registration: a session signs the user in and
   * opens a socket with its token; a failure only ends loading and shows its
   * message.
   */
  function FinishAuth(s: State, outcome: Result<Session, RequestError>, fallback: string): (r: State)
    ensures outcome.Success? ==>
      r.auth == AuthState(Some(outcome.value.user), Some(outcome.value.authToken), AuthStatus(true, false), None) &&
      r.socket == Some(Socket(outcome.value.authToken))
    ensures outcome.Failure? ==>
      r.auth.currentUser == s.auth.currentUser && r.auth.authToken == s.auth.authToken &&
      r.auth.status == s.auth.status.(isLoading := false) &&
      r.auth.errorMessage == Some(FailureMessage(outcome.error, fallback)) && r.socket == s.socket
    ensures r.workspace == s.workspace && r.channel == s.channel && r.theme == s.theme
  {
    match outcome
    case Success(session) =>
      s.(auth := AuthState(Some(session.user), Some(session.authToken), AuthStatus(true, false), None),
         socket := Some(Socket(session.authToken)))
    case Failure(e) =>
      s.(auth := s.auth.(errorMessage := Some(FailureMessage(e, fallback)),
                         status := s.auth.status.(isLoading := false)))
  }

  /** The body `register_user` posts: the three fields and the role `user`. */
  function RegisterBody(email: string, password: string, name: string): (body: Object)
    ensures body.Keys == {"email", "password", "name", "role"}
    ensures body["email"] == Str(email) && body["password"] == Str(password) && body["name"] == Str(name)
    ensures body["role"] == Str("user")
  {
    map["email" := Str(email), "password" := Str(password), "name" := Str(name), "role" := Str("user")]
  }

  /** The body `login_user` posts. */
  function LoginBody(email: string, password: string): (body: Object)
    ensures body.Keys == {"email", "password"}
    ensures body["email"] == Str(email) && body["password"] == Str(password)
  {
    map["email" := Str(email), "password" := Str(password)]
  }

  /**
   * With non-empty fields the bodies the store posts pass the server's field
   * guards, and the registration asks for the role `user`.
   */
  lemma BodiesPassServerGuards(email: string, password: string, name: string)
    requires email != [] && password != [] && name != []
    ensures Auth.RegisterFieldsPresent(RegisterBody(email, password, name))
    ensures Auth.RoleOf(RegisterBody(email, password, name)) == Some(Str("user"))
    ensures Auth.LoginFieldsPresent(LoginBody(email, password))
  {
  }

  /** A failed request changes nothing that is persisted, and a successful one persists its session. */
  lemma AuthOutcomePersisted(s: State, outcome: Result<Session, RequestError>, fallback: string)
    ensures outcome.Failure? ==> Partialize(FinishAuth(StartAuth(s), outcome, fallback)) == Partialize(s)
    ensures outcome.Success? ==>
      (Partialize(FinishAuth(StartAuth(s), outcome, fallback)) ==
       Partialize(s).(currentUser := Some(outcome.value.user), authToken := Some(outcome.value.authToken),
                      isAuthenticated := true))
  {
  }

  // ---------------------------------------------------------------------
  // initialize_auth
  // ---------------------------------------------------------------------

  /** `!auth_token`: no token, or the empty one. */
  predicate NoToken(a: AuthState) {
    a.authToken.None? || a.authToken.value == []
  }

  const DefaultWorkspace := "workspace1"

  /**
   * Start-up: without a token loading just ends; otherwise `/auth/verify`
   * decides: the user it returns is signed in with the stored token, the
   * default workspace is selected and a socket opened; a failure signs out.
   */
  function InitializeAuth(s: State, verify: Result<User, RequestError>): (r: State)
    ensures NoToken(s.auth) ==> r == s.(auth := s.auth.(status := s.auth.status.(isLoading := false)))
    ensures !NoToken(s.auth) && verify.Success? ==>
      r.auth == AuthState(Some(verify.value), s.auth.authToken, AuthStatus(true, false), None) &&
      r.workspace == WorkspaceState(Some(DefaultWorkspace), []) &&
      r.socket == Some(Socket(s.auth.authToken.value)) && r.channel == s.channel && r.theme == s.theme
    ensures !NoToken(s.auth) && verify.Failure? ==>
      r == s.(auth := AuthState(None, None, AuthStatus(false, false), None))
  {
    if NoToken(s.auth) then s.(auth := s.auth.(status := s.auth.status.(isLoading := false)))
    else match verify
      case Success(user) =>
        s.(auth := AuthState(Some(user), s.auth.authToken, AuthStatus(true, false), None),
           workspace := WorkspaceState(Some(DefaultWorkspace), []),
           socket := Some(Socket(s.auth.authToken.value)))
      case Failure(_) => s.(auth := AuthState(None, None, AuthStatus(false, false), None))
  }

  /** However it ends, start-up leaves the store not loading; it signs in only with a token. */
  lemma InitializeAuthSettles(s: State, verify: Result<User, RequestError>)
    ensures !InitializeAuth(s, verify).auth.status.isLoading
    ensures InitializeAuth(s, verify).auth.status.isAuthenticated ==>
      (!NoToken(s.auth) && verify.Success?) || (NoToken(s.auth) && s.auth.status.isAuthenticated)
    ensures NoToken(s.auth) ==> forall v :: InitializeAuth(s, v) == InitializeAuth(s, verify)
  {
  }

  // ---------------------------------------------------------------------
  // the small actions
  // ---------------------------------------------------------------------

  /** `clear_auth_error`: only the error message goes. */
  function ClearAuthError(s: State): (r: State)
    ensures r.auth.errorMessage.None?
    ensures r.(auth := r.auth.(errorMessage := s.auth.errorMessage)) == s
  {
    s.(auth := s.auth.(errorMessage := None))
  }

  /** `{ ...user, ...data }`: the user's fields with `data`'s on top; no user stays no user. */
  function MergeProfile(user: Option<User>, data: Object): (r: Option<User>)
    ensures r.None? <==> user.None?
    ensures r.Some? ==> r.value.Keys == user.value.Keys + data.Keys
    ensures r.Some? ==> forall k :: k in data ==> r.value[k] == data[k]
    ensures r.Some? ==> forall k :: k in user.value && k !in data ==> r.value[k] == user.value[k]
  {
    if user.None? then None else Some(user.value + data)
  }

  /** `update_user_profile`: only the current user changes. */
  function UpdateUserProfile(s: State, data: Object): (r: State)
    ensures r.auth.currentUser == MergeProfile(s.auth.currentUser, data)
    ensures r.(auth := r.auth.(currentUser := s.auth.currentUser)) == s
  {
    s.(auth := s.auth.(currentUser := MergeProfile(s.auth.currentUser, data)))
  }

  /** Applying the same profile update twice is applying it once; an empty update changes nothing. */
  lemma UpdateUserProfileIdempotent(s: State, data: Object)
    ensures UpdateUserProfile(UpdateUserProfile(s, data), data) == UpdateUserProfile(s, data)
    ensures UpdateUserProfile(s, map[]) == s
  {
    if s.auth.currentUser.Some? {
      var u := s.auth.currentUser.value;
      assert u + data + data == u + data;
      assert u + map[] == u;
    }
  }

  /** `join_workspace`: only the selected workspace changes. */
  function JoinWorkspace(s: State, workspaceId: string): (r: State)
    ensures r.workspace.selectedWorkspaceId == Some(workspaceId)
    ensures r.(workspace := r.workspace.(selectedWorkspaceId := s.workspace.selectedWorkspaceId)) == s
  {
    s.(workspace := s.workspace.(selectedWorkspaceId := Some(workspaceId)))
  }

  /** Joining a second workspace overrides the first. */
  lemma JoinWorkspaceLastWins(s: State, a: string, b: string)
    ensures JoinWorkspace(JoinWorkspace(s, a), b) == JoinWorkspace(s, b)
  {
  }

  function Toggled(t: Theme): (u: Theme)
    ensures u != t
  {
    if t == Light then Dark else Light
  }

  /** `switch_theme`: only the theme changes, to the other one. */
  function SwitchTheme(s: State): (r: State)
    ensures r.theme != s.theme
    ensures r.(theme := s.theme) == s
  {
    s.(theme := Toggled(s.theme))
  }

  /** Switching the theme twice restores the state. */
  lemma SwitchThemeTwice(s: State)
    ensures SwitchTheme(SwitchTheme(s)) == s
  {
  }

  // ---------------------------------------------------------------------
  // partialize
  // ---------------------------------------------------------------------

  /** What `partialize` writes to storage. */
  datatype Persisted = Persisted(currentUser: Option<User>, authToken: Option<string>, isAuthenticated: bool,
                                 workspace: WorkspaceState, channel: ChannelState, theme: Theme)

  function Partialize(s: State): Persisted {
    Persisted(s.auth.currentUser, s.auth.authToken, s.auth.status.isAuthenticated, s.workspace, s.channel, s.theme)
  }

  /**
   * Two states persist alike exactly when they differ at most in whether
   * they are loading, in the error message and in the socket.
   */
  lemma PartializeForgetsTransient(s: State, t: State)
    ensures Partialize(s) == Partialize(t) <==>
      s.(auth := s.auth.(status := s.auth.status.(isLoading := t.auth.status.isLoading),
                         errorMessage := t.auth.errorMessage),
         socket := t.socket) == t
  {
  }

  /** Starting a request and clearing the error are invisible to storage. */
  lemma TransientActionsNotPersisted(s: State)
    ensures Partialize(StartAuth(s)) == Partialize(s)
    ensures Partialize(ClearAuthError(s)) == Partialize(s)
  {
  }

  // ---------------------------------------------------------------------
  // the store
  // ---------------------------------------------------------------------

  /** The store object: one field per top-level key of the state. */
  class AppStore {
    var auth: AuthState
    var workspace: WorkspaceState
    var channel: ChannelState
    var theme: Theme
    var socket: Option<Socket>

    function Snapshot(): State
      reads this
    {
      State(auth, workspace, channel, theme, socket)
    }

    constructor ()
      ensures Snapshot() == Initial
    {
      auth := Initial.auth;
      workspace := Initial.workspace;
      channel := Initial.channel;
      theme := Initial.theme;
      socket := Initial.socket;
    }

    method Set(s: State)
      modifies this
      ensures Snapshot() == s
    {
      auth, workspace, channel, theme, socket := s.auth, s.workspace, s.channel, s.theme, s.socket;
    }

    /**
     * `login_user`: the request starts, then its answer is applied.
     * `outcome` is what `POST /auth/login` with `LoginBody(email, password)` returned.
     */
    method LoginUser(email: string, password: string, outcome: Result<Session, RequestError>)
      modifies this
      ensures Snapshot() == FinishAuth(StartAuth(old(Snapshot())), outcome, LoginFailed)
    {
      auth := auth.(status := auth.status.(isLoading := true), errorMessage := None);
      CompleteAuth(outcome, LoginFailed);
    }

    /** `register_user`, answered by `POST /auth/register` with `RegisterBody(email, password, name)`. */
    method RegisterUser(email: string, password: string, name: string, outcome: Result<Session, RequestError>)
      modifies this
      ensures Snapshot() == FinishAuth(StartAuth(old(Snapshot())), outcome, RegistrationFailed)
    {
      auth := auth.(status := auth.status.(isLoading := true), errorMessage := None);
      CompleteAuth(outcome, RegistrationFailed);
    }

    /** The `try`/`catch` after the request. */
    method CompleteAuth(outcome: Result<Session, RequestError>, fallback: string)
      modifies this
      ensures Snapshot() == FinishAuth(old(Snapshot()), outcome, fallback)
    {
      if outcome.Success? {
        var session := outcome.value;
        auth := AuthState(Some(session.user), Some(session.authToken), AuthStatus(true, false), None);
        socket := Some(Socket(session.authToken));
      } else {
        var errorMessage := FailureMessage(outcome.error, fallback);
        auth := auth.(errorMessage := Some(errorMessage), status := auth.status.(isLoading := false));
      }
    }

    /** `initialize_auth`; `verify` is what `GET /auth/verify` returned, when it is asked. */
    method InitializeAuthAction(verify: Result<User, RequestError>)
      modifies this
      ensures Snapshot() == InitializeAuth(old(Snapshot()), verify)
    {
      if auth.authToken.None? || auth.authToken.value == [] {
        auth := auth.(status := auth.status.(isLoading := false));
        return;
      }
      if verify.Success? {
        auth := AuthState(Some(verify.value), auth.authToken, AuthStatus(true, false), None);
        workspace := WorkspaceState(Some(DefaultWorkspace), []);
        socket := Some(Socket(auth.authToken.value));
      } else {
        auth := AuthState(None, None, AuthStatus(false, false), None);
      }
    }

    method ClearAuthErrorAction()
      modifies this
      ensures Snapshot() == ClearAuthError(old(Snapshot()))
    {
      auth := auth.(errorMessage := None);
    }

    method UpdateUserProfileAction(data: Object)
      modifies this
      ensures Snapshot() == UpdateUserProfile(old(Snapshot()), data)
    {
      auth := auth.(currentUser := MergeProfile(auth.currentUser, data));
    }

    method JoinWorkspaceAction(workspaceId: string)
      modifies this
      ensures Snapshot() == JoinWorkspace(old(Snapshot()), workspaceId)
    {
      workspace := workspace.(selectedWorkspaceId := Some(workspaceId));
    }

    method SwitchThemeAction()
      modifies this
      ensures Snapshot() == SwitchTheme(old(Snapshot()))
    {
      theme := if theme == Light then Dark else Light;
    }
  }
}
