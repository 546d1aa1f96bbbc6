/**
 * What the session lifecycle promises across steps: each endpoint keeps the
 * registries well formed, the cross-registry consistency survives every
 * endpoint except a delWindow aimed at another user's window, logout releases
 * exactly the windows the user owned, and closing a window just opened undoes the opening.
 */
module Invariants {
  import opened Sessions
  import opened Lifecycle

  // ---------------------------------------------------------------------------
  // Preservation of the invariants
  // ---------------------------------------------------------------------------

  /** A login keeps the registries well formed and consistent, whichever of its three outcomes it has. */
  lemma LoginPreservesInvariants(s: Registries, body: Credentials, token: string, open: Credentials -> Option<Connection>,
                                 userId: string, windowId: string)
    requires Valid(s)
    requires userId != "" && userId !in s.users && FreshWindow(s, windowId)
    ensures Valid(Login(s, body, token, open, userId, windowId).state)
    ensures Consistent(s) ==> Consistent(Login(s, body, token, open, userId, windowId).state)
  {
    var o := Login(s, body, token, open, userId, windowId);
    if o.response.LoginSucceeded? {
      var s' := o.state;
      forall t, w | Owns(s', t, w) ensures (t == userId && w == windowId) || (t != userId && Owns(s, t, w)) { }
      forall w | w in s'.windows ensures Listed(s', w) {
        if w == windowId {
          assert Owns(s', userId, windowId);
        } else {
          var t :| Owns(s, t, w);
          assert Owns(s', t, w);
        }
      }
    }
  }

  /** A logout keeps the registries well formed and consistent. */
  lemma ExitPreservesInvariants(s: Registries, token: string)
    requires Valid(s)
    ensures Valid(Exit(s, token).state)
    ensures Consistent(s) ==> Consistent(Exit(s, token).state)
  {
    var s' := Exit(s, token).state;
    if token != "" {
      forall t, w | Owns(s', t, w) ensures t != token && Owns(s, t, w) && w !in Owned(s, token) {
        assert Owns(s, t, w);
        if w in Owned(s, token) {
          assert Owns(s, token, w);
        }
      }
      forall w | w in s'.windows ensures Listed(s', w) {
        var t :| Owns(s, t, w);
        assert t != token;
        assert Owns(s', t, w);
      }
    }
  }

  /** Opening a window keeps the registries well formed and consistent. */
  lemma AddWindowPreservesInvariants(s: Registries, token: string, open: Credentials -> Option<Connection>, windowId: string)
    requires Valid(s) && FreshWindow(s, windowId)
    ensures Valid(AddWindow(s, token, open, windowId).state)
    ensures Consistent(s) ==> Consistent(AddWindow(s, token, open, windowId).state)
  {
    var o := AddWindow(s, token, open, windowId);
    if o.response.WindowOpened? {
      var s' := o.state;
      var ids := s.users[token].windowIds;
      assert !Owns(s, token, windowId);
      forall t, w | Owns(s', t, w) ensures (t == token && w == windowId) || Owns(s, t, w) {
        if t == token && w != windowId {
          assert w in ids + [windowId];
        }
      }
      assert Distinct(ids + [windowId]) by {
        var l := ids + [windowId];
        forall i, j | 0 <= i < j < |l| ensures l[i] != l[j] {
          assert l[i] == ids[i];
          if j < |ids| {
            assert l[j] == ids[j];
          }
        }
      }
      forall w | w in s'.windows ensures Listed(s', w) {
        if w == windowId {
          assert Owns(s', token, windowId);
        } else {
          var t :| Owns(s, t, w);
          assert Owns(s', t, w);
        }
      }
    }
  }

  /**
   * delWindow as written keeps the registries well formed, and keeps them
   * consistent as long as no other session lists the window being closed.
   */
  lemma DelWindowPreservesInvariants(s: Registries, token: string, windowId: string)
    requires Valid(s)
    ensures Valid(DelWindow(s, token, windowId).state)
    ensures Consistent(s) && !ForeignWindow(s, token, windowId) ==> Consistent(DelWindow(s, token, windowId).state)
  {
    if token in s.users {
      var s' := DelWindow(s, token, windowId).state;
      var ids := s.users[token].windowIds;
      DelWindowIdDistinct(ids, windowId);
      assert Elements(s'.users[token].windowIds) == Elements(ids) - {windowId};
      forall t, w | Owns(s', t, w) ensures Owns(s, t, w) && (t == token ==> w != windowId) {
        if t == token {
          assert w in Elements(s'.users[token].windowIds);
        }
      }
      forall w | w in s'.windows ensures Listed(s', w) {
        var t :| Owns(s, t, w);
        if t == token {
          assert w in Elements(ids) - {windowId};
        }
        assert Owns(s', t, w);
      }
      if Consistent(s) && !ForeignWindow(s, token, windowId) {
        forall t, w | Owns(s', t, w) ensures w in s'.windows {
          assert Owns(s, t, w);
          if t != token {
            assert !Owns(s, t, windowId);
          }
        }
      }
    }
  }

  /** delWindow with the ownership check keeps the registries well formed and consistent in every case. */
  lemma DelOwnWindowPreservesInvariants(s: Registries, token: string, windowId: string)
    requires Valid(s)
    ensures Valid(DelOwnWindow(s, token, windowId).state)
    ensures Consistent(s) ==> Consistent(DelOwnWindow(s, token, windowId).state)
  {
    if token in s.users && windowId in s.users[token].windowIds {
      DelWindowPreservesInvariants(s, token, windowId);
      assert Owns(s, token, windowId);
      assert !ForeignWindow(s, token, windowId);
    }
  }

  // ---------------------------------------------------------------------------
  // The missing ownership check of delWindow
  // ---------------------------------------------------------------------------

  /**
   * Two users, each with one window; the second closes the first one's window.
   * The registries start well formed and consistent, and afterwards the first
   * user still lists a window id that no longer resolves.
   */
  lemma DelWindowForeignBreaksConsistency(creds: Credentials)
    ensures var s := TwoUsers(creds);
            && Valid(s) && Consistent(s)
            && DelWindow(s, "u2", "w1").response == WindowClosed
            && Owns(DelWindow(s, "u2", "w1").state, "u1", "w1")
            && !Consistent(DelWindow(s, "u2", "w1").state)
  {
    var s := TwoUsers(creds);
    TwoUsersValid(creds);
    var s' := DelWindow(s, "u2", "w1").state;
    assert s'.users["u1"] == s.users["u1"];
    assert "w1" in s'.users["u1"].windowIds;
    assert Owns(s', "u1", "w1") && "w1" !in s'.windows;
  }

  /**
   * The same in general: on well-formed, consistent registries, closing a window
   * that another session lists always succeeds and always breaks consistency.
   */
  lemma DelWindowForeignAlwaysBreaksConsistency(s: Registries, token: string, windowId: string)
    requires Valid(s) && Consistent(s) && token in s.users && ForeignWindow(s, token, windowId)
    ensures DelWindow(s, token, windowId).response == WindowClosed
    ensures !Consistent(DelWindow(s, token, windowId).state)
  {
    var other :| other != token && Owns(s, other, windowId);
    assert DelWindow(s, token, windowId).state.users[other] == s.users[other];
    assert Owns(DelWindow(s, token, windowId).state, other, windowId);
  }

  /** User u1 owning window w1 and user u2 owning window w2. */
  function TwoUsers(creds: Credentials): Registries {
    Registries(map["u1" := UserSession("u1", creds, ["w1"]), "u2" := UserSession("u2", creds, ["w2"])],
               map["w1" := Connection(1), "w2" := Connection(2)])
  }

  lemma TwoUsersValid(creds: Credentials)
    ensures Valid(TwoUsers(creds)) && Consistent(TwoUsers(creds))
  {
    var s := TwoUsers(creds);
    assert s.users.Keys == {"u1", "u2"};
    assert Owns(s, "u1", "w1") && Owns(s, "u2", "w2");
    forall t, w | Owns(s, t, w) ensures (t == "u1" && w == "w1") || (t == "u2" && w == "w2") {
      assert t == "u1" || t == "u2";
    }
  }

  /**
   * Under the invariants, the unchecked delWindow and the checked one agree
   * exactly when no other session lists the window.
   */
  lemma DelWindowAgreesWhenNotForeign(s: Registries, token: string, windowId: string)
    requires Valid(s) && Consistent(s) && token in s.users
    ensures DelWindow(s, token, windowId) == DelOwnWindow(s, token, windowId) <==> !ForeignWindow(s, token, windowId)
  {
    var ids := s.users[token].windowIds;
    if ForeignWindow(s, token, windowId) {
      var other :| other != token && Owns(s, other, windowId);
      assert windowId in s.windows;
      assert windowId !in ids by {
        assert !Owns(s, token, windowId) by {
          assert Owns(s, other, windowId);
        }
      }
      assert windowId !in DelWindow(s, token, windowId).state.windows;
    } else if windowId !in ids {
      assert forall t :: !Owns(s, t, windowId);
      assert !Listed(s, windowId);
      assert windowId !in s.windows;
      assert s.users[token := s.users[token].(windowIds := ids)] == s.users;
      assert s.windows - {windowId} == s.windows;
    }
  }

  // ---------------------------------------------------------------------------
  // Logout
  // ---------------------------------------------------------------------------

  /** A second logout with the same token changes nothing. */
  lemma ExitIdempotent(s: Registries, token: string)
    ensures Exit(Exit(s, token).state, token) == Exit(s, token)
  {
  }

  /** On consistent registries a logout unregisters exactly the windows the user listed, no more and no fewer. */
  lemma ExitReleasesExactlyOwned(s: Registries, token: string)
    requires Valid(s) && Consistent(s)
    ensures s.windows.Keys - Exit(s, token).state.windows.Keys == Owned(s, token)
  {
    assert token == "" ==> token !in s.users;
    forall w | w in Owned(s, token) ensures w in s.windows {
      assert Owns(s, token, w);
    }
  }

  // ---------------------------------------------------------------------------
  // Opening and closing windows
  // ---------------------------------------------------------------------------

  /** Closing the window just opened gives back the registries as they were before it was opened. */
  lemma AddThenDelWindow(s: Registries, token: string, open: Credentials -> Option<Connection>, windowId: string)
    requires Valid(s) && FreshWindow(s, windowId)
    requires token in s.users && open(s.users[token].credentials).Some?
    ensures AddWindow(s, token, open, windowId).response == WindowOpened(windowId)
    ensures DelWindow(AddWindow(s, token, open, windowId).state, token, windowId) == Outcome(s, WindowClosed)
  {
    assert !Owns(s, token, windowId);
    var window := WindowSession(windowId, open(s.users[token].credentials).value);
    assert AddWindow(s, token, open, windowId) == Outcome(SetWindow(s, token, window), WindowOpened(windowId));
    SetThenRemoveWindow(s, token, window);
  }

  /** Removing a window just set for a session, whose id was neither listed nor registered, gives back the registries. */
  lemma SetThenRemoveWindow(s: Registries, token: string, window: WindowSession)
    requires token in s.users && window.id !in s.users[token].windowIds && window.id !in s.windows
    ensures RemoveWindow(SetWindow(s, token, window), token, window.id) == s
  {
    DelWindowIdAppended(s.users[token].windowIds, window.id);
    var r := RemoveWindow(SetWindow(s, token, window), token, window.id);
    assert r.users[token] == s.users[token];
    assert r.users == s.users;
    assert r.windows == s.windows;
  }

  /** A repeated delWindow is a no-op: the first one already removed the id from the list and the registry. */
  lemma DelWindowTwice(s: Registries, token: string, windowId: string)
    requires Valid(s)
    ensures var first := DelWindow(s, token, windowId);
            DelWindow(first.state, token, windowId) == first
  {
    if token in s.users {
      var ids := s.users[token].windowIds;
      DelWindowIdDistinct(ids, windowId);
      var ids' := DelWindowId(ids, windowId);
      assert windowId !in ids' by {
        assert windowId !in Elements(ids');
      }
      var first := RemoveWindow(s, token, windowId);
      assert DelWindow(s, token, windowId) == Outcome(first, WindowClosed);
      RemoveAbsentWindow(first, token, windowId);
    }
  }

  /** Removing a window id that is neither in the session's list nor registered changes nothing. */
  lemma RemoveAbsentWindow(s: Registries, token: string, windowId: string)
    requires token in s.users && windowId !in s.users[token].windowIds && windowId !in s.windows
    ensures RemoveWindow(s, token, windowId) == s
  {
    assert s.users[token := s.users[token].(windowIds := s.users[token].windowIds)] == s.users;
    assert s.windows - {windowId} == s.windows;
  }

  // ---------------------------------------------------------------------------
  // A whole session
  // ---------------------------------------------------------------------------

  /**
   * From empty registries: login gives user u and window w1, addWindow gives w2,
   * closing w1 leaves u owning only w2, and logout empties both registries.
   */
  lemma LoginOpenCloseLogout(body: Credentials, open: Credentials -> Option<Connection>, u: string, w1: string, w2: string)
    requires u != "" && w1 != w2 && open(body).Some?
    ensures var s0 := Registries(map[], map[]);
            var login := Login(s0, body, "", open, u, w1);
            var add := AddWindow(login.state, u, open, w2);
            var del := DelWindow(add.state, u, w1);
            var exit := Exit(del.state, u);
            && login.response == LoginSucceeded(u, w1)
            && add.response == WindowOpened(w2)
            && add.state.users[u].windowIds == [w1, w2]
            && del.response == WindowClosed
            && del.state.users[u].windowIds == [w2]
            && w1 !in del.state.windows && w2 in del.state.windows
            && exit.state == s0
  {
    var s0 := Registries(map[], map[]);
    var c := open(body).value;
    var login := Login(s0, body, "", open, u, w1);
    assert login.state == Registries(map[u := UserSession(u, body, [w1])], map[w1 := c]);
    var add := AddWindow(login.state, u, open, w2);
    AddSecondWindow(body, open, u, w1, w2);
    var del := DelWindow(add.state, u, w1);
    CloseFirstWindow(body, c, u, w1, w2);
    var exit := Exit(del.state, u);
    LogoutLastWindow(body, c, u, w2);
  }

  lemma AddSecondWindow(body: Credentials, open: Credentials -> Option<Connection>, u: string, w1: string, w2: string)
    requires w1 != w2 && open(body).Some?
    ensures var c := open(body).value;
            var add := AddWindow(Registries(map[u := UserSession(u, body, [w1])], map[w1 := c]), u, open, w2);
            add == Outcome(Registries(map[u := UserSession(u, body, [w1, w2])], map[w1 := c, w2 := c]), WindowOpened(w2))
  {
    assert [w1] + [w2] == [w1, w2];
  }

  lemma CloseFirstWindow(body: Credentials, c: Connection, u: string, w1: string, w2: string)
    requires w1 != w2
    ensures DelWindow(Registries(map[u := UserSession(u, body, [w1, w2])], map[w1 := c, w2 := c]), u, w1)
            == Outcome(Registries(map[u := UserSession(u, body, [w2])], map[w2 := c]), WindowClosed)
  {
    assert DelWindowId([w1, w2], w1) == [w2];
    assert map[w1 := c, w2 := c] - {w1} == map[w2 := c];
  }

  lemma LogoutLastWindow(body: Credentials, c: Connection, u: string, w2: string)
    requires u != ""
    ensures Exit(Registries(map[u := UserSession(u, body, [w2])], map[w2 := c]), u) == Outcome(Registries(map[], map[]), LogoutSucceeded)
  {
    assert Owned(Registries(map[u := UserSession(u, body, [w2])], map[w2 := c]), u) == {w2};
    assert map[w2 := c] - {w2} == map[];
  }
}
