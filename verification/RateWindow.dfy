/** The fixed-window byte limiter of one relay side (`allowBytes`). Times are nanoseconds. */
module RateWindow {
  import opened Common

  const SECOND := 1_000_000_000

  datatype Window = Window(startedAt: Option<nat>, bytes: nat)

  const FRESH_WINDOW := Window(None, 0)

  /** One call of the limiter: a size that asks to pass at a clock reading. */
  datatype Arrival = Arrival(at: nat, size: nat)

  function Opened(w: Window, now: nat): Window
  {
    if w.startedAt.None? || now - w.startedAt.value >= SECOND then Window(Some(now), 0) else w
  }

  /** The window after a call; a refused size is charged too. */
  function Charge(w: Window, a: Arrival): Window
  {
    var o := Opened(w, a.at);
    Window(o.startedAt, o.bytes + a.size)
  }

  predicate Allowed(limit: nat, w: Window, a: Arrival)
  {
    Charge(w, a).bytes <= limit
  }

  class RateLimiter {
    var startedAt: Option<nat>
    var bytes: nat

    function State(): Window
      reads this
    {
      Window(startedAt, bytes)
    }

    constructor ()
      ensures State() == FRESH_WINDOW
    {
      startedAt, bytes := None, 0;
    }

    method AllowBytes(limit: nat, now: nat, count: nat) returns (ok: bool)
      modifies this
      ensures State() == Charge(old(State()), Arrival(now, count))
      ensures ok == Allowed(limit, old(State()), Arrival(now, count))
    {
      if startedAt.None? || now - startedAt.value >= SECOND {
        startedAt, bytes := Some(now), 0;
      }
      bytes := bytes + count;
      ok := bytes <= limit;
    }
  }

  // ---- What a whole history of calls lets through ----

  function After(calls: seq<Arrival>): Window
  {
    if calls == [] then FRESH_WINDOW else Charge(After(calls[..|calls| - 1]), calls[|calls| - 1])
  }

  /** Bytes let through with a time stamp in [from, to). */
  function Passed(limit: nat, calls: seq<Arrival>, from: int, to: int): (n: nat)
  {
    if calls == [] then 0
    else
      var rest := calls[..|calls| - 1];
      var a := calls[|calls| - 1];
      Passed(limit, rest, from, to)
      + if Allowed(limit, After(rest), a) && from <= a.at < to then a.size else 0
  }

  function InSecond(limit: nat, calls: seq<Arrival>, from: int): nat
  {
    Passed(limit, calls, from, from + SECOND)
  }

  ghost predicate ClockOrdered(calls: seq<Arrival>)
  {
    forall i, j :: 0 <= i <= j < |calls| ==> calls[i].at <= calls[j].at
  }

  /** The current window never opened after the last call. */
  lemma {:induction false} WindowStart(calls: seq<Arrival>)
    requires ClockOrdered(calls) && calls != []
    ensures After(calls).startedAt.Some?
    ensures After(calls).startedAt.value <= calls[|calls| - 1].at < After(calls).startedAt.value + SECOND
  {
    if |calls| > 1 {
      WindowStart(calls[..|calls| - 1]);
    }
  }

  /**
   * The invariant behind the rate bound, for the span [from, from + 1s): while the window in
   * force opened before the span, the span only saw this window; while it opened inside,
   * the span saw one earlier window and this one; a window opened later adds nothing.
   */
  lemma {:induction false} SpanInvariant(limit: nat, calls: seq<Arrival>, from: int)
    requires ClockOrdered(calls)
    ensures var p := Passed(limit, calls, from, from + SECOND);
            var w := After(calls);
            && p <= 2 * limit
            && (calls != [] && calls[|calls| - 1].at < from ==> p == 0)
            && (w.startedAt.None? ==> p == 0)
            && (w.startedAt.Some? && w.startedAt.value < from ==> p <= limit && p <= w.bytes)
            && (w.startedAt.Some? && w.startedAt.value < from + SECOND ==> p <= limit + w.bytes)
  {
    if calls != [] {
      var rest := calls[..|calls| - 1];
      SpanInvariant(limit, rest, from);
      if rest != [] {
        WindowStart(rest);
        assert calls[|rest| - 1].at <= calls[|rest|].at;
      }
    }
  }

  /** At most twice the limit passes within any half-open second. */
  lemma AnySecondAtMostTwice(limit: nat, calls: seq<Arrival>, from: int)
    requires ClockOrdered(calls)
    ensures InSecond(limit, calls, from) <= 2 * limit
  {
    SpanInvariant(limit, calls, from);
  }

  /** The calls charged to the window in force: the longest suffix with the same opening time. */
  ghost predicate SameWindow(calls: seq<Arrival>, k: nat)
    requires k <= |calls|
  {
    forall i :: k < i <= |calls| ==> After(calls[..i]).startedAt == After(calls).startedAt
  }

  /** What passed among calls[k..]. */
  function PassedSince(limit: nat, calls: seq<Arrival>, k: nat): (n: nat)
    requires k <= |calls|
    decreases |calls|
  {
    if k == |calls| then 0
    else
      var rest := calls[..|calls| - 1];
      var a := calls[|calls| - 1];
      PassedSince(limit, rest, k) + if Allowed(limit, After(rest), a) then a.size else 0
  }

  /** Within one fixed window at most the limit passes, however the calls are sized and timed. */
  lemma {:induction false} OneWindowAtMostLimit(limit: nat, calls: seq<Arrival>, k: nat)
    requires k <= |calls| && SameWindow(calls, k) && ClockOrdered(calls)
    requires k == 0 || After(calls[..k]).startedAt != After(calls).startedAt
    ensures PassedSince(limit, calls, k) <= limit
    ensures k < |calls| ==> PassedSince(limit, calls, k) <= After(calls).bytes
  {
    if k < |calls| {
      var rest := calls[..|calls| - 1];
      assert calls[..|calls|] == calls;
      if k < |rest| {
        assert forall i :: k < i <= |rest| ==> rest[..i] == calls[..i];
        assert After(calls[..|rest|]).startedAt == After(calls).startedAt;
        assert rest[..k] == calls[..k];
        OneWindowAtMostLimit(limit, rest, k);
        WindowStart(rest);
        WindowStart(calls);
      } else {
        assert calls[..k] == rest;
        if rest != [] { WindowStart(rest); }
        assert PassedSince(limit, rest, k) == 0;
      }
    }
  }

  /** The k-th call of a history was let through. */
  ghost predicate LetThrough(limit: nat, calls: seq<Arrival>, k: nat)
  {
    k < |calls| && Allowed(limit, After(calls[..k]), calls[k])
  }

  /** Bytes of the first n calls with a time stamp in the second. */
  function SizesIn(calls: seq<Arrival>, n: nat, from: int): nat
    requires n <= |calls|
  {
    if n == 0 then 0
    else SizesIn(calls, n - 1, from) + (if from <= calls[n - 1].at < from + SECOND then calls[n - 1].size else 0)
  }

  lemma {:induction false} PassedGrows(limit: nat, calls: seq<Arrival>, n: nat, from: int, to: int)
    requires n <= |calls|
    ensures Passed(limit, calls[..n], from, to) <= Passed(limit, calls, from, to)
    decreases |calls|
  {
    if n == |calls| {
      assert calls[..n] == calls;
    } else {
      var rest := calls[..|calls| - 1];
      assert rest[..n] == calls[..n];
      PassedGrows(limit, rest, n, from, to);
    }
  }

  /** If the first n calls were all let through, their bytes in any second are bounded like everything that passed. */
  lemma {:induction false} LetThroughIsPassed(limit: nat, calls: seq<Arrival>, n: nat, from: int)
    requires n <= |calls| && forall k :: 0 <= k < n ==> LetThrough(limit, calls, k)
    ensures SizesIn(calls, n, from) == Passed(limit, calls[..n], from, from + SECOND)
  {
    if n > 0 {
      LetThroughIsPassed(limit, calls, n - 1, from);
      assert calls[..n][..n - 1] == calls[..n - 1];
      assert LetThrough(limit, calls, n - 1);
    }
  }

  /** Once a call is refused, every later one in the same window is refused too: refused sizes are charged. */
  lemma RefusalLasts(limit: nat, w: Window, a: Arrival, b: Arrival)
    requires !Allowed(limit, w, a) && Charge(w, a).startedAt.Some? && b.at - Charge(w, a).startedAt.value < SECOND
    ensures !Allowed(limit, Charge(w, a), b)
  {
  }

  /** The factor two is met: a full window just before its end, then a full one. */
  lemma TwiceIsReached(limit: nat)
    ensures exists calls: seq<Arrival>, from: int :: ClockOrdered(calls) && InSecond(limit, calls, from) == 2 * limit
  {
    var c0 := [Arrival(0, 0)];
    var c1 := c0 + [Arrival(SECOND - 1, limit)];
    var c2 := c1 + [Arrival(SECOND, limit)];
    assert c2[..2] == c1 && c1[..1] == c0 && c0[..0] == [];
    assert Passed(limit, c0, 1, 1 + SECOND) == 0;
    assert Passed(limit, c1, 1, 1 + SECOND) == limit;
    assert InSecond(limit, c2, 1) == 2 * limit;
    assert ClockOrdered(c2);
  }
}
