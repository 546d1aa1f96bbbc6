/**
 * The entities the console's session layer keeps: a user session (the
 * connection parameters a user logged in with, plus the ordered list of
 * window ids it owns) and a window session (one live JDBC connection).
 */
module Sessions {

  datatype Option<T> = None | Some(value: T)

  /** A live JDBC connection handle; the console never looks inside it. */
  datatype Connection = Connection(handle: nat)

  /** What a login request body supplies and a user session keeps for reconnecting. */
  datatype Credentials = Credentials(userName: string, password: string, targetUrl: string, driver: string)

  /** A logged-in user: its registry key, its credentials and the windows it owns, in opening order. */
  datatype UserSession = UserSession(id: string, credentials: Credentials, windowIds: seq<string>)

  /** One window (query tab): its registry key and the connection it owns. */
  datatype WindowSession = WindowSession(id: string, connection: Connection)

  /** No window id is listed twice. */
  predicate Distinct(ids: seq<string>) {
    forall i, j :: 0 <= i < j < |ids| ==> ids[i] != ids[j]
  }

  /** The set of ids a list holds. */
  function Elements(ids: seq<string>): set<string> {
    set w | w in ids
  }

  /**
   * Removes a window id from a user's list the way java.util.List.remove(Object)
   * does: the first occurrence goes, the rest of the list keeps its order, and an
   * absent id leaves the list as it was.
   */
  function DelWindowId(ids: seq<string>, windowId: string): (r: seq<string>)
    ensures multiset(r) == multiset(ids) - multiset{windowId}
    ensures windowId !in ids ==> r == ids
  {
    if ids == [] then []
    else
      assert ids == [ids[0]] + ids[1..];
      if ids[0] == windowId then ids[1..]
      else [ids[0]] + DelWindowId(ids[1..], windowId)
  }

  /** On a list without repeats the removal is complete: the id is gone, every other id stays, and no repeat appears. */
  lemma {:induction false} DelWindowIdDistinct(ids: seq<string>, windowId: string)
    requires Distinct(ids)
    ensures Distinct(DelWindowId(ids, windowId))
    ensures Elements(DelWindowId(ids, windowId)) == Elements(ids) - {windowId}
  {
    if ids != [] {
      var head, tail := ids[0], ids[1..];
      assert ids == [head] + tail;
      DistinctTail(ids);
      if head != windowId {
        DelWindowIdDistinct(tail, windowId);
        var rest := DelWindowId(tail, windowId);
        assert head !in rest by {
          assert head !in Elements(rest);
        }
        DistinctCons(head, rest);
        ElementsCons(head, rest);
        ElementsCons(head, tail);
      }
    }
  }

  lemma DistinctTail(ids: seq<string>)
    requires Distinct(ids) && ids != []
    ensures Distinct(ids[1..]) && ids[0] !in ids[1..]
  {
  }

  lemma DistinctCons(head: string, rest: seq<string>)
    requires Distinct(rest) && head !in rest
    ensures Distinct([head] + rest)
  {
  }

  lemma ElementsCons(head: string, rest: seq<string>)
    ensures Elements([head] + rest) == {head} + Elements(rest)
  {
  }

  lemma ElementsAppend(ids: seq<string>, windowId: string)
    ensures Elements(ids + [windowId]) == Elements(ids) + {windowId}
  {
  }

  /**
   * The removal keeps the order of everything else: when `i` is the first index
   * holding the id, the result is the list with exactly that position cut out.
   */
  lemma {:induction false} DelWindowIdFirst(ids: seq<string>, windowId: string, i: nat)
    requires i < |ids| && ids[i] == windowId && windowId !in ids[..i]
    ensures DelWindowId(ids, windowId) == ids[..i] + ids[i + 1..]
  {
    if i > 0 {
      var tail := ids[1..];
      assert ids[0] != windowId by {
        assert ids[0] == ids[..i][0];
      }
      assert tail[..i - 1] == ids[1..i];
      assert tail[i - 1 + 1..] == ids[i + 1..];
      DelWindowIdFirst(tail, windowId, i - 1);
      assert DelWindowId(ids, windowId) == [ids[0]] + DelWindowId(tail, windowId);
      assert ids[..i] == [ids[0]] + ids[1..i];
    }
  }

  /** Removing the id just appended gives back the list as it was before the append. */
  lemma {:induction false} DelWindowIdAppended(ids: seq<string>, windowId: string)
    requires windowId !in ids
    ensures DelWindowId(ids + [windowId], windowId) == ids
  {
    if ids != [] {
      assert (ids + [windowId])[1..] == ids[1..] + [windowId];
      DelWindowIdAppended(ids[1..], windowId);
      assert ids == [ids[0]] + ids[1..];
    }
  }
}
