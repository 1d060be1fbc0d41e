/**
 * The dashboard's terminal (`TerminalStore`) against an agent's session: live events that may be
 * late or lost, attach requests in flight, and exactly when the client ends up with the output.
 */
module TerminalClient {
  import opened Common
  import opened Terminal

  /** A stretch of the printed output on its way to the client; an exit notice is an empty stretch. */
  datatype Stretch = Stretch(from: nat, to: nat)

  /** The answer to an attach request made at cursor `requested`. */
  datatype Reply = Reply(requested: nat, part: Stretch)

  /** `origin` says which printed byte each byte of `output` is. */
  datatype View = View(output: Bytes, origin: seq<nat>, cursor: nat)

  function Range(from: nat, to: nat): (r: seq<nat>)
    ensures |r| == (if from <= to then to - from else 0)
    ensures forall i :: 0 <= i < |r| ==> r[i] == from + i
  {
    if from <= to then seq(to - from, i requires 0 <= i => from + i) else []
  }

  function Add(v: View, data: Bytes, from: nat, to: nat): View
  {
    View(v.output + data, v.origin + Range(from, to), to)
  }

  /** Any event ahead of the cursor is appended, whether or not it starts there. */
  function Receive(v: View, data: Bytes, part: Stretch): View
  {
    if part.to <= v.cursor then v else Add(v, data, part.from, part.to)
  }

  /** A reply counts only if the cursor has not moved since the request. */
  function Attached(v: View, data: Bytes, r: Reply): View
  {
    if v.cursor != r.requested then v
    else Add(v, data, r.part.from, r.part.to).(cursor := if r.part.to > v.cursor then r.part.to else v.cursor)
  }

  /** The stored session that the two callbacks update. */
  class TerminalStore {
    var output: Bytes
    var cursor: nat
    ghost var origin: seq<nat>

    ghost function State(): View
      reads this
    {
      View(output, origin, cursor)
    }

    constructor ()
      ensures State() == View([], [], 0)
    {
      output, cursor, origin := [], 0, [];
    }

    method ReceiveEvent(data: Bytes, eventCursor: nat)
      requires |data| <= eventCursor
      modifies this
      ensures State() == Receive(old(State()), data, Stretch(eventCursor - |data|, eventCursor))
    {
      if eventCursor <= cursor {
        return;
      }
      origin := origin + Range(eventCursor - |data|, eventCursor);
      output := output + data;
      cursor := eventCursor;
    }

    method ReceiveAttached(requested: nat, data: Bytes, replyCursor: nat)
      requires |data| <= replyCursor
      modifies this
      ensures State() == Attached(old(State()), data, Reply(requested, Stretch(replyCursor - |data|, replyCursor)))
    {
      if cursor == requested {
        origin := origin + Range(replyCursor - |data|, replyCursor);
        output := output + data;
        cursor := if cursor < replyCursor then replyCursor else cursor;
      }
    }
  }

  // ---- Client, agent and what is between them ----

  /** `events` are all live events in the order of their emission; those before `next` were delivered or lost. */
  datatype World = World(
    printed: Bytes,
    events: seq<Stretch>,
    next: nat,
    asks: multiset<nat>,
    replies: multiset<Reply>,
    view: View)

  const START := World([], [], 0, multiset{}, multiset{}, View([], [], 0))

  datatype Step =
    | Print(chunk: Bytes)
    | Deliver(k: nat)
    | Ask
    | Answer(requested: nat)
    | Arrive(reply: Reply)

  predicate Enabled(w: World, step: Step)
  {
    match step
    case Deliver(k) => w.next <= k < |w.events|
    case Answer(requested) => requested in w.asks
    case Arrive(reply) => reply in w.replies
    case _ => true
  }

  function Data(printed: Bytes, s: Stretch): (d: Bytes)
    ensures s.from <= s.to <= |printed| ==> |d| == s.to - s.from
  {
    if s.from <= s.to <= |printed| then printed[s.from..s.to] else []
  }

  /** The agent emits after it has unlocked, so an event may reach the client any time after its append. */
  function Apply(w: World, step: Step): World
    requires Enabled(w, step)
  {
    match step
    case Print(chunk) =>
      w.(printed := w.printed + chunk,
         events := w.events + [Stretch(|w.printed|, |w.printed| + |chunk|)])
    case Deliver(k) => w.(next := k + 1, view := Receive(w.view, Data(w.printed, w.events[k]), w.events[k]))
    case Ask => w.(asks := w.asks + multiset{w.view.cursor})
    case Answer(requested) =>
      var total := |w.printed|;
      w.(asks := w.asks - multiset{requested},
         replies := w.replies + multiset{Reply(requested, Stretch(StartOf(Slide(0, total), total, requested), total))})
    case Arrive(r) => w.(replies := w.replies - multiset{r}, view := Attached(w.view, Data(w.printed, r.part), r))
  }

  // ---- Invariant ----

  function EndOf(events: seq<Stretch>): nat
  {
    if events == [] then 0 else events[|events| - 1].to
  }

  function StartAt(events: seq<Stretch>, k: nat): nat
    requires k < |events|
  {
    if k == 0 then 0 else events[k - 1].to
  }

  /** The events follow each other without gap or overlap. */
  ghost predicate Chained(events: seq<Stretch>)
  {
    forall k :: 0 <= k < |events| ==> StartAt(events, k) == events[k].from <= events[k].to
  }

  /** The ends of the events are where the output can be cut. */
  ghost predicate IsCut(events: seq<Stretch>, p: nat)
  {
    p == 0 || exists k :: 0 <= k < |events| && events[k].to == p
  }

  ghost predicate ReplySane(events: seq<Stretch>, r: Reply)
  {
    && r.requested <= r.part.from <= r.part.to <= EndOf(events) && IsCut(events, r.part.to)
    && (r.part.from == r.requested <==> r.part.to - r.requested <= REPLAY_LIMIT)
  }

  /** Each byte of the output is the printed byte it stands for. */
  ghost predicate Genuine(printed: Bytes, v: View)
  {
    && |v.output| == |v.origin| <= v.cursor <= |printed|
    && forall i :: 0 <= i < |v.origin| ==> v.origin[i] < |printed| && v.output[i] == printed[v.origin[i]]
  }

  ghost predicate WorldInv(w: World)
  {
    && Chained(w.events) && |w.printed| == EndOf(w.events)
    && Genuine(w.printed, w.view)
    && IsCut(w.events, w.view.cursor)
    && (forall c <- w.asks :: c <= |w.printed|)
    && (forall r <- w.replies :: ReplySane(w.events, r))
  }

  lemma {:induction false} EventsAscend(events: seq<Stretch>, j: nat, k: nat)
    requires Chained(events) && j < k < |events|
    ensures events[j].to <= events[k].from
    decreases k
  {
    assert StartAt(events, k) == events[k].from;
    if j < k - 1 {
      EventsAscend(events, j, k - 1);
      assert StartAt(events, k - 1) == events[k - 1].from <= events[k - 1].to;
    }
  }

  lemma EventsWithin(events: seq<Stretch>, k: nat)
    requires Chained(events) && k < |events|
    ensures events[k].from <= events[k].to <= EndOf(events)
  {
    assert StartAt(events, k) == events[k].from <= events[k].to;
    if k < |events| - 1 {
      EventsAscend(events, k, |events| - 1);
      assert StartAt(events, |events| - 1) <= EndOf(events);
    }
  }

  /** No event straddles a cut, so an event ahead of the cursor starts at it or leaves a gap. */
  lemma NoStraddle(events: seq<Stretch>, k: nat, p: nat)
    requires Chained(events) && k < |events| && IsCut(events, p)
    ensures p <= events[k].from || events[k].to <= p
  {
    if p != 0 {
      var j :| 0 <= j < |events| && events[j].to == p;
      if j < k {
        EventsAscend(events, j, k);
      } else if k < j {
        EventsAscend(events, k, j);
        assert StartAt(events, j) == events[j].from <= events[j].to;
      }
    }
  }

  lemma CutsStay(events: seq<Stretch>, more: Stretch, p: nat)
    requires IsCut(events, p)
    ensures IsCut(events + [more], p)
  {
    if p != 0 {
      var k :| 0 <= k < |events| && events[k].to == p;
      assert (events + [more])[k].to == p;
    }
  }

  lemma ChainGrows(events: seq<Stretch>, more: Stretch)
    requires Chained(events) && EndOf(events) == more.from <= more.to
    ensures Chained(events + [more]) && EndOf(events + [more]) == more.to
  {
    var all := events + [more];
    forall k | 0 <= k < |all| ensures StartAt(all, k) == all[k].from <= all[k].to {
      if k < |events| {
        assert StartAt(all, k) == StartAt(events, k);
      }
    }
  }

  lemma PrintKeeps(w: World, chunk: Bytes)
    requires WorldInv(w)
    ensures WorldInv(Apply(w, Print(chunk)))
  {
    hide IsCut, Chained;
    var more := Stretch(|w.printed|, |w.printed| + |chunk|);
    ChainGrows(w.events, more);
    CutsStay(w.events, more, w.view.cursor);
    forall r | r in w.replies ensures ReplySane(w.events + [more], r) {
      assert ReplySane(w.events, r);
      CutsStay(w.events, more, r.part.to);
    }
  }

  lemma AddIsGenuine(printed: Bytes, v: View, s: Stretch)
    requires Genuine(printed, v) && v.cursor <= s.from <= s.to <= |printed|
    ensures Genuine(printed, Add(v, Data(printed, s), s.from, s.to))
  {
  }

  lemma DeliverKeeps(w: World, k: nat)
    requires WorldInv(w) && Enabled(w, Deliver(k))
    ensures WorldInv(Apply(w, Deliver(k)))
  {
    hide Genuine, Data, Chained, ReplySane;
    var e := w.events[k];
    EventsWithin(w.events, k);
    NoStraddle(w.events, k, w.view.cursor);
    if e.to > w.view.cursor {
      AddIsGenuine(w.printed, w.view, e);
    }
  }

  lemma ArriveKeeps(w: World, r: Reply)
    requires WorldInv(w) && Enabled(w, Arrive(r))
    ensures WorldInv(Apply(w, Arrive(r)))
  {
    hide Genuine, Data, Chained, IsCut;
    assert ReplySane(w.events, r);
    if w.view.cursor == r.requested {
      AddIsGenuine(w.printed, w.view, r.part);
    }
  }

  lemma AnswerKeeps(w: World, requested: nat)
    requires WorldInv(w) && Enabled(w, Answer(requested))
    ensures WorldInv(Apply(w, Answer(requested)))
  {
    hide Genuine, Chained;
    EndIsCut(w.events);
  }

  lemma EndIsCut(events: seq<Stretch>)
    ensures IsCut(events, EndOf(events))
  {
  }

  lemma CursorWithin(printed: Bytes, v: View)
    requires Genuine(printed, v)
    ensures v.cursor <= |printed| && |v.origin| <= v.cursor
  {
  }

  lemma StepKeeps(w: World, step: Step)
    requires WorldInv(w) && Enabled(w, step)
    ensures WorldInv(Apply(w, step))
  {
    hide Genuine, Chained, IsCut, ReplySane;
    match step
    case Print(chunk) => PrintKeeps(w, chunk);
    case Deliver(k) => DeliverKeeps(w, k);
    case Ask => CursorWithin(w.printed, w.view);
    case Answer(requested) => AnswerKeeps(w, requested);
    case Arrive(r) => ArriveKeeps(w, r);
  }

  // ---- Exactly when the client has the output ----

  /** The output is the printed bytes up to the cursor, each once and in order. */
  ghost predicate InOrder(v: View)
  {
    v.origin == Range(0, v.cursor)
  }

  /**
   * What decides, before the step: no delivered event starts ahead of the cursor, and no reply that
   * counts was made for a client more than the limit behind.
   */
  predicate Clean(w: World, step: Step)
    requires Enabled(w, step)
  {
    match step
    case Deliver(k) => w.events[k].from <= w.view.cursor
    case Arrive(r) => r.requested != w.view.cursor || r.part.to - r.requested <= REPLAY_LIMIT
    case _ => true
  }

  /** Appending a stretch at or past the cursor keeps the order exactly when it starts at the cursor. */
  lemma AddInOrder(v: View, data: Bytes, from: nat, to: nat)
    requires |v.origin| <= v.cursor <= from <= to
    ensures InOrder(Add(v, data, from, to)) <==> InOrder(v) && from == v.cursor
  {
    var o := v.origin + Range(from, to);
    if o == Range(0, to) {
      assert |v.origin| == from;
      assert forall i :: 0 <= i < |v.origin| ==> v.origin[i] == o[i];
    }
    if InOrder(v) && from == v.cursor {
      assert o == Range(0, to);
    }
  }

  lemma StepExactly(w: World, step: Step)
    requires WorldInv(w) && Enabled(w, step)
    ensures InOrder(Apply(w, step).view) <==> InOrder(w.view) && Clean(w, step)
  {
    hide InOrder, Data;
    match step
    case Deliver(k) =>
      var e := w.events[k];
      EventsWithin(w.events, k);
      NoStraddle(w.events, k, w.view.cursor);
      if e.to > w.view.cursor {
        AddInOrder(w.view, Data(w.printed, e), e.from, e.to);
      }
    case Arrive(r) =>
      assert ReplySane(w.events, r);
      if w.view.cursor == r.requested {
        AddInOrder(w.view, Data(w.printed, r.part), r.part.from, r.part.to);
      }
    case _ =>
  }

  ghost predicate Run(states: seq<World>, steps: seq<Step>)
  {
    && |states| == |steps| + 1
    && states[0] == START
    && forall i {:trigger steps[i]} :: 0 <= i < |steps| ==>
         Enabled(states[i], steps[i]) && states[i + 1] == Apply(states[i], steps[i])
  }

  lemma {:induction false} RunKeeps(states: seq<World>, steps: seq<Step>, i: nat)
    requires Run(states, steps) && i < |states|
    ensures WorldInv(states[i])
  {
    if i > 0 {
      hide WorldInv, Apply;
      RunKeeps(states, steps, i - 1);
      StepKeeps(states[i - 1], steps[i - 1]);
    }
  }

  lemma RunStep(states: seq<World>, steps: seq<Step>, i: nat)
    requires Run(states, steps) && i < |steps|
    ensures i + 1 < |states| && Enabled(states[i], steps[i]) && states[i + 1] == Apply(states[i], steps[i])
    ensures WorldInv(states[i])
  {
    hide WorldInv, Apply, Enabled;
    RunKeeps(states, steps, i);
  }

  ghost predicate AllClean(states: seq<World>, steps: seq<Step>, i: nat)
    requires i <= |steps| < |states|
  {
    forall k {:trigger steps[k]} :: 0 <= k < i ==> Enabled(states[k], steps[k]) && Clean(states[k], steps[k])
  }

  /** In every run the client has the output up to its cursor if and only if every step so far was clean. */
  lemma {:induction false} RecoversExactly(states: seq<World>, steps: seq<Step>, i: nat)
    requires Run(states, steps) && i <= |steps| < |states|
    ensures InOrder(states[i].view) <==> AllClean(states, steps, i)
  {
    hide WorldInv, Apply, Clean, Enabled;
    if i > 0 {
      hide Run, InOrder;
      RecoversExactly(states, steps, i - 1);
      RunStep(states, steps, i - 1);
      StepExactly(states[i - 1], steps[i - 1]);
    }
  }

  /** In order means in bytes: the output is what was printed, up to the cursor. */
  lemma OrderIsContent(states: seq<World>, steps: seq<Step>, i: nat)
    requires Run(states, steps) && i < |states| && InOrder(states[i].view)
    ensures states[i].view.cursor <= |states[i].printed|
    ensures states[i].view.output == states[i].printed[..states[i].view.cursor]
  {
    hide Run, Chained, ReplySane, IsCut;
    RunKeeps(states, steps, i);
  }

  // ---- Without losses, and with one ----

  /** Live events come one after the other, none left out. */
  ghost predicate NothingSkipped(states: seq<World>, steps: seq<Step>)
    requires |states| == |steps| + 1
  {
    forall i {:trigger steps[i]} :: 0 <= i < |steps| && steps[i].Deliver? ==> steps[i].k == states[i].next
  }

  ghost predicate Behind(w: World)
  {
    w.next <= |w.events| && (w.next > 0 ==> w.events[w.next - 1].to <= w.view.cursor)
  }

  lemma BehindStays(w: World, step: Step)
    requires WorldInv(w) && Behind(w) && Enabled(w, step) && (step.Deliver? ==> step.k == w.next)
    ensures Behind(Apply(w, step))
  {
    hide WorldInv, Data, Add, Receive, Attached;
    CursorGrows(w, step);
  }

  /** What was delivered lies behind the cursor. */
  lemma {:induction false} DeliveredIsBehind(states: seq<World>, steps: seq<Step>, i: nat)
    requires Run(states, steps) && NothingSkipped(states, steps) && i < |states|
    ensures Behind(states[i])
  {
    hide WorldInv, Apply, Enabled;
    if i > 0 {
      DeliveredIsBehind(states, steps, i - 1);
      RunStep(states, steps, i - 1);
      hide Run, Behind;
      BehindStays(states[i - 1], steps[i - 1]);
    }
  }

  lemma CursorGrows(w: World, step: Step)
    requires WorldInv(w) && Enabled(w, step)
    ensures w.view.cursor <= Apply(w, step).view.cursor
    ensures step.Deliver? ==> w.events[step.k].to <= Apply(w, step).view.cursor
  {
    hide Genuine, Chained, IsCut, ReplySane, Data;
  }

  lemma NextIsClean(w: World)
    requires WorldInv(w) && Behind(w) && w.next < |w.events|
    ensures Clean(w, Deliver(w.next))
  {
    hide Genuine, IsCut, ReplySane;
    assert StartAt(w.events, w.next) == w.events[w.next].from;
  }

  /** A client that misses no event, and whose replies come from within the limit, always has the output. */
  lemma NoLossNoGap(states: seq<World>, steps: seq<Step>, i: nat)
    requires Run(states, steps) && NothingSkipped(states, steps) && i <= |steps| < |states|
    requires forall k {:trigger steps[k]} :: 0 <= k < i && steps[k].Arrive? ==>
               Enabled(states[k], steps[k]) && Clean(states[k], steps[k])
    ensures InOrder(states[i].view)
  {
    hide Run, WorldInv, Apply, InOrder, Behind;
    forall k | 0 <= k < i ensures Enabled(states[k], steps[k]) && Clean(states[k], steps[k]) {
      RunStep(states, steps, k);
      if steps[k].Deliver? {
        DeliveredIsBehind(states, steps, k);
        NextIsClean(states[k]);
      }
    }
    RecoversExactly(states, steps, i);
  }

  // The worlds of a run in which a live event overtakes the answer to an attach request.
  const ANSWER := Reply(0, Stretch(0, 1))
  const PRINTED := World([1], [Stretch(0, 1)], 0, multiset{}, multiset{}, View([], [], 0))
  const ASKED := PRINTED.(asks := multiset{0})
  const ANSWERED := PRINTED.(replies := multiset{ANSWER})
  const PRINTED_MORE := World([1, 2], [Stretch(0, 1), Stretch(1, 2)], 0, multiset{}, multiset{ANSWER}, View([], [], 0))
  const OVERTAKEN := World([1, 2], [Stretch(0, 1), Stretch(1, 2)], 2, multiset{}, multiset{ANSWER}, View([2], [1], 2))
  const SETTLED := OVERTAKEN.(replies := multiset{})

  lemma FirstHalf()
    ensures Apply(START, Print([1])) == PRINTED && Apply(PRINTED, Ask) == ASKED
    ensures Apply(ASKED, Answer(0)) == ANSWERED
  {
  }

  lemma SecondHalf()
    ensures Apply(ANSWERED, Print([2])) == PRINTED_MORE
    ensures Apply(PRINTED_MORE, Deliver(1)) == OVERTAKEN && Apply(OVERTAKEN, Arrive(ANSWER)) == SETTLED
  {
    assert Range(1, 2) == [1];
    assert Data([1, 2], Stretch(1, 2)) == [2];
  }

  /**
   * A run in which a client never more than two bytes behind loses the first: its event is lost, the
   * client asks and the agent answers in full, the next live event overtakes the answer, and the
   * answer, on arriving, is dropped.
   */
  lemma OvertakenReplyLosesOutput() returns (states: seq<World>, steps: seq<Step>)
    ensures Run(states, steps) && |states| == 7 && |steps| == 6
    ensures steps == [Print([1]), Ask, Answer(0), Print([2]), Deliver(1), Arrive(ANSWER)]
    ensures var before := states[4];
            && before.view == View([], [], 0) && before.replies == multiset{ANSWER}
            && Attached(before.view, Data(before.printed, ANSWER.part), ANSWER).output == [1]
            && Enabled(before, Deliver(1)) && !Clean(before, Deliver(1))
    ensures var w := states[6];
            && w.printed == [1, 2] && |w.printed| <= REPLAY_LIMIT
            && w.view.cursor == 2 && w.view.output == [2]
            && w.asks == multiset{} && w.replies == multiset{} && w.next == |w.events|
  {
    FirstHalf();
    SecondHalf();
    InTimeItWouldDo();
    hide Apply;
    steps := [Print([1]), Ask, Answer(0), Print([2]), Deliver(1), Arrive(ANSWER)];
    states := [START, PRINTED, ASKED, ANSWERED, PRINTED_MORE, OVERTAKEN, SETTLED];
  }

  lemma InTimeItWouldDo()
    ensures Attached(View([], [], 0), Data([1, 2], ANSWER.part), ANSWER).output == [1]
  {
    assert Data([1, 2], ANSWER.part) == [1];
  }
}
