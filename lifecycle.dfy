/**
 * The session lifecycle of the console as a state machine over its two
 * process-wide registries: the user registry (session token -> user session)
 * and the window registry (window id -> connection). Each endpoint of the
 * user controller, and each private helper it calls, is one step function
 * from a registry state to the next; the class in module Controller runs the
 * same steps imperatively and is proved to agree with them.
 */
module Lifecycle {
  import opened Sessions

  /** What an endpoint answers; the two failures stand for the UserException messages. */
  datatype Response =
    | LoggedIn                                          // "Logged in."
    | LoginSucceeded(userId: string, windowId: string)  // "Login succeeded", cookie and windowID payload
    | LogoutSucceeded                                   // "Logout succeeded"
    | WindowOpened(windowId: string)                    // "Open new window OK."
    | WindowClosed                                      // "Close window OK."
    | PleaseLoginFirst                                  // UserException "Please login first."
    | LoginFailed                                       // UserException "Login failed."
  {
    predicate Failed() { PleaseLoginFirst? || LoginFailed? }
  }

  /** The two registries. */
  datatype Registries = Registries(users: map<string, UserSession>, windows: map<string, Connection>)

  /** The registries after an endpoint ran, and what it answered. */
  datatype Outcome = Outcome(state: Registries, response: Response)

  // ---------------------------------------------------------------------------
  // Ownership and the invariants that tie the two registries together
  // ---------------------------------------------------------------------------

  /** The live user session under `token` lists `windowId`. */
  ghost predicate Owns(s: Registries, token: string, windowId: string) {
    token in s.users && windowId in s.users[token].windowIds
  }

  /** Some live user session lists `windowId`. */
  ghost predicate Listed(s: Registries, windowId: string) {
    exists token :: Owns(s, token, windowId)
  }

  /** A newly generated window id: neither registered nor listed by anyone. */
  ghost predicate FreshWindow(s: Registries, windowId: string) {
    windowId !in s.windows && !Listed(s, windowId)
  }

  /** A session other than `token`'s lists `windowId`. */
  ghost predicate ForeignWindow(s: Registries, token: string, windowId: string) {
    exists other :: other != token && Owns(s, other, windowId)
  }

  /**
   * The invariant every endpoint keeps: tokens are non-empty and key the session
   * that carries them, no session lists a window twice, no window is listed by two
   * sessions, and every open connection belongs to some logged-in user.
   */
  ghost predicate Valid(s: Registries) {
    && "" !in s.users
    && (forall t :: t in s.users ==> s.users[t].id == t)
    && (forall t :: t in s.users ==> Distinct(s.users[t].windowIds))
    && (forall t, t', w :: Owns(s, t, w) && Owns(s, t', w) ==> t == t')
    && (forall w :: w in s.windows ==> Listed(s, w))
  }

  /** Every window id a live user lists resolves in the window registry. */
  ghost predicate Consistent(s: Registries) {
    forall t, w :: Owns(s, t, w) ==> w in s.windows
  }

  /** The window ids owned by the session under `token` (none for an unknown token). */
  function Owned(s: Registries, token: string): set<string> {
    if token in s.users then Elements(s.users[token].windowIds) else {}
  }

  // ---------------------------------------------------------------------------
  // The private helpers of the controller
  // ---------------------------------------------------------------------------

  /**
   * createWindow: asks the connector for a connection with the given credentials;
   * the new window (with the id generated for it) owns exactly that connection.
   * No connection means "Login failed.".
   */
  function CreateWindow(open: Credentials -> Option<Connection>, credentials: Credentials, windowId: string): (r: Option<WindowSession>)
    ensures r.Some? <==> open(credentials).Some?
    ensures r.Some? ==> r.value.id == windowId && r.value.connection == open(credentials).value
  {
    match open(credentials)
    case None => None
    case Some(connection) => Some(WindowSession(windowId, connection))
  }

  /** setSession: lists the window in the session, registers the session under its id and the window's connection under the window id. */
  function SetSession(s: Registries, session: UserSession, window: WindowSession): (r: Registries)
    ensures r.users.Keys == s.users.Keys + {session.id}
    ensures r.users[session.id] == session.(windowIds := session.windowIds + [window.id])
    ensures forall t :: t in s.users && t != session.id ==> r.users[t] == s.users[t]
    ensures r.windows.Keys == s.windows.Keys + {window.id} && r.windows[window.id] == window.connection
    ensures forall w :: w in s.windows && w != window.id ==> r.windows[w] == s.windows[w]
  {
    var listed := session.(windowIds := session.windowIds + [window.id]);
    Registries(s.users[listed.id := listed], s.windows[window.id := window.connection])
  }

  /** removeSession: unregisters every window the session lists, then the session itself. */
  function RemoveSession(s: Registries, token: string): (r: Registries)
    ensures r.users.Keys == s.users.Keys - {token}
    ensures forall t :: t in r.users ==> r.users[t] == s.users[t]
    ensures forall w :: w in Owned(s, token) ==> w !in r.windows
    ensures forall w :: w in s.windows && w !in Owned(s, token) ==> w in r.windows
    ensures forall w :: w in r.windows ==> w in s.windows && r.windows[w] == s.windows[w]
  {
    Registries(s.users - {token}, s.windows - Owned(s, token))
  }

  /** setWindow: appends the window to the resolved session's list and registers its connection. */
  function SetWindow(s: Registries, token: string, window: WindowSession): (r: Registries)
    requires token in s.users
    ensures r.users.Keys == s.users.Keys
    ensures r.users[token] == s.users[token].(windowIds := s.users[token].windowIds + [window.id])
    ensures forall t :: t in s.users && t != token ==> r.users[t] == s.users[t]
    ensures r.windows.Keys == s.windows.Keys + {window.id} && r.windows[window.id] == window.connection
    ensures forall w :: w in s.windows && w != window.id ==> r.windows[w] == s.windows[w]
  {
    var session := s.users[token];
    Registries(s.users[token := session.(windowIds := session.windowIds + [window.id])],
               s.windows[window.id := window.connection])
  }

  /** removeWindow: drops the id from the resolved session's list and unregisters it, whoever owns it. */
  function RemoveWindow(s: Registries, token: string, windowId: string): (r: Registries)
    requires token in s.users
    ensures r.users.Keys == s.users.Keys
    ensures r.users[token] == s.users[token].(windowIds := DelWindowId(s.users[token].windowIds, windowId))
    ensures multiset(r.users[token].windowIds) == multiset(s.users[token].windowIds) - multiset{windowId}
    ensures forall t :: t in s.users && t != token ==> r.users[t] == s.users[t]
    ensures r.windows.Keys == s.windows.Keys - {windowId}
    ensures forall w :: w in r.windows ==> r.windows[w] == s.windows[w]
  {
    var session := s.users[token];
    Registries(s.users[token := session.(windowIds := DelWindowId(session.windowIds, windowId))],
               s.windows - {windowId})
  }

  // ---------------------------------------------------------------------------
  // The endpoints
  // ---------------------------------------------------------------------------

  /**
   * login: a non-empty token that resolves means "already logged in"; one that
   * does not is cleaned up and refused; with no token a connection is opened and
   * a new session owning one new window is registered.
   */
  function Login(s: Registries, body: Credentials, token: string, open: Credentials -> Option<Connection>,
                 userId: string, windowId: string): (o: Outcome)
    ensures o.response.Failed() || o.response.LoggedIn? ==> o.state == s
    ensures o.response == LoggedIn <==> token != "" && token in s.users
    ensures o.response == PleaseLoginFirst <==> token != "" && token !in s.users
    ensures o.response == LoginFailed <==> token == "" && open(body).None?
    ensures token == "" && open(body).Some? ==> o.response == LoginSucceeded(userId, windowId)
    ensures o.response.LoginSucceeded? ==>
      && o.response == LoginSucceeded(userId, windowId)
      && o.state.users == s.users[userId := UserSession(userId, body, [windowId])]
      && o.state.windows == s.windows[windowId := open(body).value]
  {
    if token != "" then
      if token in s.users then Outcome(s, LoggedIn)
      else Outcome(RemoveSession(s, token), PleaseLoginFirst)
    else
      match CreateWindow(open, body, windowId)
      case None => Outcome(s, LoginFailed)
      case Some(window) =>
        assert [] + [window.id] == [windowId];
        Outcome(SetSession(s, UserSession(userId, body, []), window), LoginSucceeded(userId, window.id))
  }

  /** exit: always succeeds; a non-empty token has its session and all its windows removed. */
  function Exit(s: Registries, token: string): (o: Outcome)
    ensures o.response == LogoutSucceeded
    ensures token == "" || token !in s.users ==> o.state == s
    ensures token != "" ==> token !in o.state.users && forall w :: w in Owned(s, token) ==> w !in o.state.windows
    ensures forall t :: t in o.state.users ==> t in s.users && o.state.users[t] == s.users[t]
    ensures forall t :: t in s.users && t != token ==> t in o.state.users
    ensures forall w :: w in o.state.windows ==> w in s.windows && o.state.windows[w] == s.windows[w]
    ensures forall w :: w in s.windows && w !in Owned(s, token) ==> w in o.state.windows
  {
    if token != "" then Outcome(RemoveSession(s, token), LogoutSucceeded)
    else Outcome(s, LogoutSucceeded)
  }

  /** addWindow: a resolved session gets one more window on a fresh connection made with its stored credentials. */
  function AddWindow(s: Registries, token: string, open: Credentials -> Option<Connection>, windowId: string): (o: Outcome)
    ensures o.response.Failed() ==> o.state == s
    ensures o.response == PleaseLoginFirst <==> token !in s.users
    ensures o.response == LoginFailed <==> token in s.users && open(s.users[token].credentials).None?
    ensures token in s.users && open(s.users[token].credentials).Some? ==> o.response == WindowOpened(windowId)
    ensures o.response.WindowOpened? ==>
      && token in s.users
      && o.response == WindowOpened(windowId)
      && o.state.users == s.users[token := s.users[token].(windowIds := s.users[token].windowIds + [windowId])]
      && o.state.windows == s.windows[windowId := open(s.users[token].credentials).value]
  {
    if token !in s.users then Outcome(s, PleaseLoginFirst)
    else
      match CreateWindow(open, s.users[token].credentials, windowId)
      case None => Outcome(s, LoginFailed)
      case Some(window) => Outcome(SetWindow(s, token, window), WindowOpened(window.id))
  }

  /**
   * delWindow as the controller has it: a resolved session drops the id from its
   * list, and the id is unregistered, without checking that the session owns it.
   */
  function DelWindow(s: Registries, token: string, windowId: string): (o: Outcome)
    ensures o.response == PleaseLoginFirst <==> token !in s.users
    ensures o.response.Failed() ==> o.state == s
    ensures token in s.users ==>
      && o.response == WindowClosed
      && o.state.windows.Keys == s.windows.Keys - {windowId}
      && (forall w :: w in o.state.windows ==> o.state.windows[w] == s.windows[w])
      && o.state.users.Keys == s.users.Keys
      && o.state.users[token] == s.users[token].(windowIds := DelWindowId(s.users[token].windowIds, windowId))
      && multiset(o.state.users[token].windowIds) == multiset(s.users[token].windowIds) - multiset{windowId}
      && (forall t :: t in s.users && t != token ==> o.state.users[t] == s.users[t])
  {
    if token !in s.users then Outcome(s, PleaseLoginFirst)
    else Outcome(RemoveWindow(s, token, windowId), WindowClosed)
  }

  /**
   * delWindow with the ownership check it lacks: a window the resolved session
   * does not list is left alone, like an id that is not registered at all.
   */
  function DelOwnWindow(s: Registries, token: string, windowId: string): (o: Outcome)
    ensures o.response == PleaseLoginFirst <==> token !in s.users
    ensures o.response.Failed() ==> o.state == s
    ensures token in s.users ==> o.response == WindowClosed
    ensures !Owns(s, token, windowId) ==> o.state == s
    ensures Owns(s, token, windowId) ==> windowId !in o.state.windows && o.state == DelWindow(s, token, windowId).state
  {
    if token !in s.users then Outcome(s, PleaseLoginFirst)
    else if windowId in s.users[token].windowIds then Outcome(RemoveWindow(s, token, windowId), WindowClosed)
    else Outcome(s, WindowClosed)
  }
}
