/**
 * The user controller as the console runs it: the two registries are fields
 * that its endpoints update in place, step by step. Every method is proved to
 * leave the registries exactly as the matching step function of Lifecycle
 * says. The endpoints also keep Lifecycle.Valid, and all but the unchecked
 * DelWindow keep Lifecycle.Consistent (DelWindow keeps it only when no other
 * session lists the window); the private helpers carry no invariant of their own.
 */
module Controller {
  import opened Sessions
  import Lifecycle
  import Invariants

  class UserController {
    /** The user registry: session token -> user session. */
    var users: map<string, UserSession>
    /** The window registry: window id -> connection. */
    var windows: map<string, Connection>

    ghost function State(): Lifecycle.Registries
      reads this
    {
      Lifecycle.Registries(users, windows)
    }

    ghost predicate Valid()
      reads this
    {
      Lifecycle.Valid(State())
    }

    ghost predicate Consistent()
      reads this
    {
      Lifecycle.Consistent(State())
    }

    /** Both registries start empty, as they are when the process starts. */
    constructor ()
      ensures users == map[] && windows == map[]
      ensures Valid() && Consistent()
    {
      users, windows := map[], map[];
    }

    /**
     * login: `token` is the userUUID cookie ("" when absent), `open` the connector,
     * `userId` and `windowId` the ids generated for the new sessions.
     */
    method Login(body: Credentials, token: string, open: Credentials -> Option<Connection>, userId: string, windowId: string)
      returns (response: Lifecycle.Response)
      requires Valid()
      requires userId != "" && userId !in users && Lifecycle.FreshWindow(State(), windowId)
      modifies this
      ensures Lifecycle.Outcome(State(), response) == Lifecycle.Login(old(State()), body, token, open, userId, windowId)
      ensures Valid() && (old(Consistent()) ==> Consistent())
    {
      Invariants.LoginPreservesInvariants(State(), body, token, open, userId, windowId);
      if token != "" {
        if token in users {
          return Lifecycle.LoggedIn;
        }
        RemoveSession(token);
        return Lifecycle.PleaseLoginFirst;
      }
      var window := Lifecycle.CreateWindow(open, body, windowId);
      if window.None? {
        return Lifecycle.LoginFailed;
      }
      SetSession(UserSession(userId, body, []), window.value);
      response := Lifecycle.LoginSucceeded(userId, window.value.id);
    }

    /** setSession: list the window in the session, then register both. */
    method SetSession(session: UserSession, window: WindowSession)
      modifies this
      ensures State() == Lifecycle.SetSession(old(State()), session, window)
    {
      var listed := session.(windowIds := session.windowIds + [window.id]);
      users := users[listed.id := listed];
      windows := windows[window.id := window.connection];
    }

    /** exit: always succeeds; a non-empty token is logged out with all its windows. */
    method Exit(token: string) returns (response: Lifecycle.Response)
      requires Valid()
      modifies this
      ensures Lifecycle.Outcome(State(), response) == Lifecycle.Exit(old(State()), token)
      ensures Valid() && (old(Consistent()) ==> Consistent())
    {
      Invariants.ExitPreservesInvariants(State(), token);
      if token != "" {
        RemoveSession(token);
      }
      response := Lifecycle.LogoutSucceeded;
    }

    /** removeSession: unregister the windows the session lists, one by one, then the session. */
    method RemoveSession(token: string)
      modifies this
      ensures State() == Lifecycle.RemoveSession(old(State()), token)
    {
      if token in users {
        var windowIds := users[token].windowIds;
        var i := 0;
        while i < |windowIds|
          invariant 0 <= i <= |windowIds|
          invariant users == old(users)
          invariant windows == old(windows) - Elements(windowIds[..i])
        {
          assert windowIds[..i + 1] == windowIds[..i] + [windowIds[i]];
          ElementsAppend(windowIds[..i], windowIds[i]);
          windows := windows - {windowIds[i]};
          i := i + 1;
        }
        assert windowIds[..i] == windowIds;
      }
      users := users - {token};
    }

    /** addWindow: `open` is the connector, `windowId` the id generated for the new window. */
    method AddWindow(token: string, open: Credentials -> Option<Connection>, windowId: string)
      returns (response: Lifecycle.Response)
      requires Valid() && Lifecycle.FreshWindow(State(), windowId)
      modifies this
      ensures Lifecycle.Outcome(State(), response) == Lifecycle.AddWindow(old(State()), token, open, windowId)
      ensures Valid() && (old(Consistent()) ==> Consistent())
    {
      Invariants.AddWindowPreservesInvariants(State(), token, open, windowId);
      if token !in users {
        return Lifecycle.PleaseLoginFirst;
      }
      var session := users[token];
      var window := Lifecycle.CreateWindow(open, session.credentials, windowId);
      if window.None? {
        return Lifecycle.LoginFailed;
      }
      SetWindow(token, window.value);
      response := Lifecycle.WindowOpened(window.value.id);
    }

    /** setWindow: append the window to the session's list and register it. */
    method SetWindow(token: string, window: WindowSession)
      requires token in users
      modifies this
      ensures State() == Lifecycle.SetWindow(old(State()), token, window)
    {
      var session := users[token];
      users := users[token := session.(windowIds := session.windowIds + [window.id])];
      windows := windows[window.id := window.connection];
    }

    /**
     * delWindow as the controller has it: no check that the window belongs to
     * the caller, so consistency is kept only when no other session lists it.
     */
    method DelWindow(token: string, windowId: string) returns (response: Lifecycle.Response)
      requires Valid()
      modifies this
      ensures Lifecycle.Outcome(State(), response) == Lifecycle.DelWindow(old(State()), token, windowId)
      ensures Valid()
      ensures old(Consistent()) && !Lifecycle.ForeignWindow(old(State()), token, windowId) ==> Consistent()
    {
      Invariants.DelWindowPreservesInvariants(State(), token, windowId);
      if token !in users {
        return Lifecycle.PleaseLoginFirst;
      }
      RemoveWindow(token, windowId);
      response := Lifecycle.WindowClosed;
    }

    /** delWindow with the ownership check: another session's window is left alone. */
    method DelOwnWindow(token: string, windowId: string) returns (response: Lifecycle.Response)
      requires Valid()
      modifies this
      ensures Lifecycle.Outcome(State(), response) == Lifecycle.DelOwnWindow(old(State()), token, windowId)
      ensures Valid() && (old(Consistent()) ==> Consistent())
    {
      Invariants.DelOwnWindowPreservesInvariants(State(), token, windowId);
      if token !in users {
        return Lifecycle.PleaseLoginFirst;
      }
      if windowId in users[token].windowIds {
        RemoveWindow(token, windowId);
      }
      response := Lifecycle.WindowClosed;
    }

    /** removeWindow: drop the id from the session's list, then unregister it. */
    method RemoveWindow(token: string, windowId: string)
      requires token in users
      modifies this
      ensures State() == Lifecycle.RemoveWindow(old(State()), token, windowId)
    {
      var session := users[token];
      users := users[token := session.(windowIds := DelWindowId(session.windowIds, windowId))];
      windows := windows - {windowId};
    }
  }
}
