/** The terminal's sliding replay window over everything the shell has printed. */
module Terminal {
  import opened Common

  const REPLAY_LIMIT: nat := 512 * 1024

  datatype Attachment = Attachment(cursor: nat, output: Bytes)

  /** Where a reply to `attach(after)` starts in the full output. */
  function StartOf(base: nat, cursor: nat, after: nat): nat
    requires base <= cursor
  {
    if after < base then base else if after > cursor then cursor else after
  }

  /** Where a window that began at `base` begins once `total` bytes have been printed. */
  function Slide(base: nat, total: nat): nat
  {
    if total - base > REPLAY_LIMIT then total - REPLAY_LIMIT else base
  }

  class TerminalSession {
    var replay: Bytes
    var base: nat
    var cursor: nat
    ghost var printed: Bytes

    /** The window is output[base..cursor], never longer than the limit. */
    ghost predicate Valid()
      reads this
    {
      && cursor == |printed|
      && base == Slide(0, cursor)
      && replay == printed[base..]
    }

    constructor ()
      ensures Valid() && printed == []
    {
      replay, base, cursor, printed := [], 0, 0, [];
    }

    /** One read from the terminal; the cursor returned goes out with the live output event. */
    method Append(chunk: Bytes) returns (at: nat)
      requires Valid()
      modifies this
      ensures Valid()
      ensures printed == old(printed) + chunk && at == |printed|
      ensures base == Slide(old(base), |printed|) >= old(base)
      ensures |replay| == if |printed| <= 524_288 then |printed| else 524_288
    {
      printed := printed + chunk;
      replay := replay + chunk;
      cursor := cursor + |chunk|;
      at := cursor;
      assert replay == printed[base..];
      if |replay| > REPLAY_LIMIT {
        var drop := |replay| - REPLAY_LIMIT;
        assert replay[drop..] == printed[base + drop..];
        replay := replay[drop..];
        base := base + drop;
      }
    }

    /** The longest retained suffix after the given cursor; never out of range. */
    method Attach(after: nat) returns (a: Attachment)
      requires Valid()
      ensures a.cursor == |printed|
      ensures a.output == printed[StartOf(base, cursor, after)..]
      ensures after >= |printed| ==> a.output == []
      ensures base <= after <= |printed| ==> a.output == printed[after..]
      ensures after < base <= |printed| ==> a.output == printed[base..]
    {
      var start := after;
      if start < base {
        start := base;
      }
      if start > cursor {
        start := cursor;
      }
      assert printed[base..][start - base..] == printed[start..];
      a := Attachment(cursor, replay[start - base..]);
    }
  }

  /**
   * A reply to `attach(at)` completes what was printed before `at` to the whole output exactly when
   * `at` is at most the limit behind.
   */
  lemma ReattachExactly(printed: Bytes, at: nat)
    requires at <= |printed|
    ensures var base := Slide(0, |printed|);
            var reply := printed[StartOf(base, |printed|, at)..];
            && (printed[..at] + reply == printed <==> |printed| - at <= REPLAY_LIMIT)
            && |printed| - |printed[..at] + reply| == (if base <= at then 0 else base - at)
  {
  }

  // ---- The table of sessions ----

  const MAX_SESSIONS := 8

  /** Ids lead to distinct live objects, at most eight; nothing live has been shut, nothing is shut twice. */
  ghost predicate Sane(sessions: map<string, nat>, next: nat, closed: multiset<nat>)
  {
    && |sessions| <= MAX_SESSIONS
    && (forall id <- sessions :: sessions[id] < next && closed[sessions[id]] == 0)
    && (forall a, b :: a in sessions && b in sessions && a != b ==> sessions[a] != sessions[b])
    && (forall s: nat :: closed[s] <= 1 && (closed[s] > 0 ==> s < next))
  }

  lemma SaneAfterClose(sessions: map<string, nat>, next: nat, closed: multiset<nat>, id: string)
    requires Sane(sessions, next, closed) && id in sessions
    ensures Sane(sessions - {id}, next, closed + multiset{sessions[id]})
  {
    var sessions' := sessions - {id};
    assert sessions'.Keys == sessions.Keys - {id};
    assert forall k <- sessions' :: sessions'[k] == sessions[k] != sessions[id];
  }

  /** Session ids and the objects behind them; `closed` are the terminals that have been shut. */
  class TerminalManager {
    var enabled: bool
    var sessions: map<string, nat>
    var next: nat
    var closed: multiset<nat>

    ghost predicate Valid()
      reads this
    {
      Sane(sessions, next, closed)
    }

    constructor (enabled: bool)
      ensures Valid() && sessions == map[] && this.enabled == enabled
    {
      this.enabled := enabled;
      sessions, next, closed := map[], 0, multiset{};
    }

    method Open(id: string, starts: bool) returns (handle: Option<nat>)
      requires Valid()
      modifies this
      ensures Valid() && enabled == old(enabled) && closed == old(closed)
      ensures handle.Some? <==> old(enabled && id !in sessions && |sessions| < 8) && starts
      ensures handle.Some? ==> sessions == old(sessions)[id := handle.value] && handle.value == old(next)
      ensures handle.None? ==> sessions == old(sessions)
    {
      if !enabled || id in sessions || |sessions| >= MAX_SESSIONS || !starts {
        return None;
      }
      sessions := sessions[id := next];
      handle := Some(next);
      next := next + 1;
    }

    method Close(id: string) returns (found: bool)
      requires Valid()
      modifies this
      ensures Valid() && enabled == old(enabled) && next == old(next)
      ensures found == (id in old(sessions))
      ensures sessions == old(sessions) - {id}
      ensures closed == if found then old(closed) + multiset{old(sessions)[id]} else old(closed)
    {
      hide Sane;
      if id !in sessions {
        assert sessions.Keys == sessions.Keys - {id};
        return false;
      }
      SaneAfterClose(sessions, next, closed, id);
      var session := sessions[id];
      sessions := sessions - {id};
      closed := closed + multiset{session};
      return true;
    }

    /** The retention timer of an exited session: it acts on the object, so a successor under the same id stays. */
    method RemoveExited(id: string, session: nat) returns (removed: bool)
      requires Valid()
      modifies this
      ensures Valid() && enabled == old(enabled) && next == old(next)
      ensures removed == (id in old(sessions) && old(sessions)[id] == session)
      ensures sessions == if removed then old(sessions) - {id} else old(sessions)
      ensures closed == if removed then old(closed) + multiset{session} else old(closed)
    {
      hide Sane;
      if id in sessions && sessions[id] == session {
        SaneAfterClose(sessions, next, closed, id);
        sessions := sessions - {id};
        closed := closed + multiset{session};
        return true;
      }
      return false;
    }

    /** Closing every session that was there: all are shut, once each. */
    method CloseAll()
      requires Valid()
      modifies this
      ensures Valid() && sessions == map[] && enabled == old(enabled)
      ensures forall id <- old(sessions) :: closed[old(sessions)[id]] == 1
    {
      var ids := sessions.Keys;
      while ids != {}
        invariant Valid() && enabled == old(enabled)
        invariant ids <= sessions.Keys
        invariant sessions.Keys <= ids
        invariant forall id <- sessions :: id in old(sessions) && sessions[id] == old(sessions)[id]
        invariant forall id <- old(sessions) :: id !in ids ==> closed[old(sessions)[id]] == 1
        decreases ids
      {
        var id :| id in ids;
        var found := Close(id);
        ids := ids - {id};
      }
      assert sessions.Keys == {};
    }
  }
}
