/**
 * The whole relay as a transition system: the session table, the four pumps of every session,
 * the timers, the revocations, the calls of `fail` on their way to the lock, and what each
 * winner of `fail` and each `Join` still has to do after it has let go of the lock.
 */
module RelayMachine {
  import opened Common
  import opened RelayTypes
  import opened RateWindow
  import opened R = RelayRegistry
  import L = RelayLane

  /** A call of `fail` whose caller has decided but not yet entered the critical section. */
  datatype FailCall = FailCall(handle: nat, reason: Reason)

  /** What a goroutine does to the outside: closing endpoints and emitting lifecycle events. */
  datatype Effect =
    | SideJoined(h: nat, side: Side)
    | PairedUp(h: nat)
    | Pressure(h: nat, side: Side)
    | EndpointClosed(h: nat, side: Side)
    | SessionClosed(h: nat, reason: Reason, browserToAgent: nat, agentToBrowser: nat)

  /** Each task is the rest of one goroutine's program; `log` is what has happened. */
  datatype State = State(
    clock: nat,
    registry: Registry,
    calls: multiset<FailCall>,
    tasks: seq<seq<Effect>>,
    log: seq<Effect>)

  const INIT := State(0, Registry([], map[]), multiset{}, [], [])

  /** `now` is the time a caller read before it waited for the lock. */
  datatype Step =
    | Tick(elapsed: nat)
    | DoReserve(claim: Claim, now: nat)
    | DoCancel(claim: Claim)
    | DoJoin(claim: Claim, endpoint: nat, now: nat)
    | DoRevoke(id: string, text: string)
    | JoinTimer(h: nat)
    | HardTimer(h: nat)
    | ContextEnds(h: nat, side: Side)
    | RunFail(call: FailCall)
    | RunEffect(task: nat)
    | Pump(h: nat, side: Side, move: L.Move)

  predicate Enabled(st: State, step: Step)
  {
    var table := st.registry.table;
    InTable(st.registry) &&
    match step
    case DoReserve(_, now) => now <= st.clock
    case DoJoin(_, _, now) => now <= st.clock
    case JoinTimer(h) => h < |table|
    case HardTimer(h) => h < |table|
    case ContextEnds(h, side) => h < |table| && SlotOf(table[h], side).endpoint.Some?
    case RunFail(call) => call in st.calls && call.handle < |table|
    case RunEffect(i) => i < |st.tasks| && st.tasks[i] != []
    case Pump(h, side, move) => h < |table| && L.Enabled(SlotOf(table[h], side).lane, table[h].finished, move)
    case _ => true
  }

  function WithTask(st: State, task: seq<Effect>): State
  {
    if task == [] then st else st.(tasks := st.tasks + [task])
  }

  function WithCall(st: State, h: nat, reason: Reason): State
  {
    st.(calls := st.calls + multiset{FailCall(h, reason)})
  }

  function JoinEffects(v: Verdict, side: Side): seq<Effect>
    requires v.Accepted?
  {
    [SideJoined(v.handle, side)] + if v.paired then [PairedUp(v.handle)] else []
  }

  /** The program of a call of `fail` that found the session unfinished. */
  function FailEffects(h: nat, s: Session, reason: Reason): seq<Effect>
  {
    (if s.browser.endpoint.Some? then [EndpointClosed(h, Browser)] else [])
    + (if s.agent.endpoint.Some? then [EndpointClosed(h, Agent)] else [])
    + [SessionClosed(h, reason, s.browser.lane.counted, s.agent.lane.counted)]
  }

  /** A session after a step of one of its pumps. */
  function Pumped(limits: Limits, s: Session, side: Side, now: nat, move: L.Move): Session
    requires L.Enabled(SlotOf(s, side).lane, s.finished, move)
  {
    var slot := SlotOf(s, side);
    WithSlot(s, side, slot.(lane := L.Apply(limits, slot.lane, s.finished, now, move).lane))
  }

  function Apply(limits: Limits, st: State, step: Step): State
    requires Enabled(st, step)
  {
    var r := st.registry;
    match step
    case Tick(d) => st.(clock := st.clock + d)
    case DoReserve(claim, now) => st.(registry := R.Outcome(Reserve(limits, r, claim, now), r))
    case DoCancel(claim) => st.(registry := CancelReservation(r, claim))
    case DoJoin(claim, endpoint, now) =>
      var v := Join(limits, r, claim, endpoint, now);
      if v.Failed? then st else WithTask(st.(registry := v.registry), JoinEffects(v, claim.side))
    case DoRevoke(id, text) => if id in r.sessions then WithCall(st, r.sessions[id], Revoked(text)) else st
    case JoinTimer(h) =>
      if r.table[h].started || r.table[h].finished then st
      else WithCall(st, h, if r.table[h].claim.reconnect then ReconnectTimeout else JoinTimeout)
    case HardTimer(h) => WithCall(st, h, HardExpired)
    case ContextEnds(h, _) => WithCall(st, h, TransportClosed)
    case RunFail(call) =>
      var s := r.table[call.handle];
      var st' := st.(calls := st.calls - multiset{call}, registry := Fail(r, call.handle, call.reason));
      if s.finished then st' else WithTask(st', FailEffects(call.handle, s, call.reason))
    case RunEffect(i) => st.(tasks := st.tasks[i := st.tasks[i][1..]], log := st.log + [st.tasks[i][0]])
    case Pump(h, side, move) =>
      var s := r.table[h];
      var o := L.Apply(limits, SlotOf(s, side).lane, s.finished, st.clock, move);
      var st' := WithTask(st.(registry := Put(r, h, Pumped(limits, s, side, st.clock, move))),
                          if o.pressure then [Pressure(h, side)] else []);
      if o.fails.Some? then WithCall(st', h, o.fails.value) else st'
  }

  // ---- Effects: what has happened plus what is still to happen ----

  function Outstanding(tasks: seq<seq<Effect>>): multiset<Effect>
  {
    if tasks == [] then multiset{} else multiset(tasks[0]) + Outstanding(tasks[1..])
  }

  lemma {:induction false} OutstandingAppend(tasks: seq<seq<Effect>>, task: seq<Effect>)
    ensures Outstanding(tasks + [task]) == Outstanding(tasks) + multiset(task)
  {
    if tasks == [] {
      assert [task][1..] == [];
    } else {
      assert (tasks + [task])[1..] == tasks[1..] + [task];
      OutstandingAppend(tasks[1..], task);
    }
  }

  lemma {:induction false} OutstandingTake(tasks: seq<seq<Effect>>, i: nat)
    requires i < |tasks| && tasks[i] != []
    ensures Outstanding(tasks) == Outstanding(tasks[i := tasks[i][1..]]) + multiset{tasks[i][0]}
  {
    var t := tasks[i := tasks[i][1..]];
    if i == 0 {
      assert tasks[0] == [tasks[0][0]] + tasks[0][1..];
      assert t[1..] == tasks[1..];
    } else {
      assert t[1..] == tasks[1..][i - 1 := tasks[i][1..]];
      OutstandingTake(tasks[1..], i - 1);
    }
  }

  function Promised(st: State, e: Effect): nat
  {
    multiset(st.log)[e] + Outstanding(st.tasks)[e]
  }

  /** How often an effect of a session may happen, read off the session itself. */
  function ExpectedOf(s: Session, e: Effect): nat
  {
    match e
    case SideJoined(_, side) => if SlotOf(s, side).endpoint.Some? then 1 else 0
    case PairedUp(_) => if s.started then 1 else 0
    case EndpointClosed(_, side) => if s.finished && SlotOf(s, side).endpoint.Some? then 1 else 0
    case SessionClosed(_, reason, b, a) => if s.finished && s.err == Some(reason) && s.reported == (b, a) then 1 else 0
    case Pressure(_, _) => 0
  }

  function Expected(table: seq<Session>, e: Effect): nat
  {
    if e.h < |table| then ExpectedOf(table[e.h], e) else 0
  }

  ghost predicate EffectsMatch(st: State)
  {
    forall e: Effect :: !e.Pressure? ==> Promised(st, e) == Expected(st.registry.table, e)
  }

  // ---- The machine's invariant ----

  ghost predicate HasCall(calls: multiset<FailCall>, h: nat)
  {
    exists c <- calls :: c.handle == h
  }

  /** A pump stops only when its end is covered; the limiter's calls are in clock order. */
  ghost predicate LaneOk(lane: L.Lane, covered: bool, clock: nat)
  {
    && (lane.producer.Ended? || lane.consumer.Ended? ==> covered)
    && ClockOrdered(lane.arrivals)
    && (lane.arrivals != [] ==> lane.arrivals[|lane.arrivals| - 1].at <= clock)
  }

  /** A pump that has stopped leaves a session that is finished or about to be failed. */
  ghost predicate LaneWatched(st: State, h: nat, side: Side)
    requires h < |st.registry.table|
  {
    var s := st.registry.table[h];
    LaneOk(SlotOf(s, side).lane, s.finished || HasCall(st.calls, h), st.clock)
  }

  ghost predicate Watched(st: State)
  {
    forall h, side :: 0 <= h < |st.registry.table| ==> LaneWatched(st, h, side)
  }

  ghost predicate CallsInTable(st: State)
  {
    forall c <- st.calls :: c.handle < |st.registry.table|
  }

  ghost predicate MachineInv(limits: Limits, st: State)
  {
    && RegistryInv(limits, st.registry)
    && CallsInTable(st)
    && EffectsMatch(st)
    && Watched(st)
  }

  /** An update of one session together with the task it starts keeps the effects matched. */
  lemma EffectsAfterUpdate(st: State, r': Registry, h: nat, claim: Claim, task: seq<Effect>)
    requires EffectsMatch(st) && OnlyAt(st.registry, r', h)
    requires forall e <- task :: e.h == h
    requires forall e: Effect :: e.h == h && !e.Pressure? ==>
               ExpectedOf(r'.table[h], e) == ExpectedOf(Before(st.registry, h, claim), e) + multiset(task)[e]
    ensures EffectsMatch(WithTask(st.(registry := r'), task))
  {
    var st' := WithTask(st.(registry := r'), task);
    OutstandingAppend(st.tasks, task);
    forall e: Effect | !e.Pressure? ensures Promised(st', e) == Expected(r'.table, e) {
      assert Promised(st', e) == Promised(st, e) + multiset(task)[e];
      if e.h != h {
        assert e !in task;
      }
    }
  }

  lemma EffectsAfterRun(st: State, i: nat)
    requires EffectsMatch(st) && i < |st.tasks| && st.tasks[i] != []
    ensures EffectsMatch(st.(tasks := st.tasks[i := st.tasks[i][1..]], log := st.log + [st.tasks[i][0]]))
  {
    OutstandingTake(st.tasks, i);
    var st' := st.(tasks := st.tasks[i := st.tasks[i][1..]], log := st.log + [st.tasks[i][0]]);
    forall e: Effect ensures Promised(st', e) == Promised(st, e) {
    }
  }

  lemma WatchedAfterUpdate(st: State, st': State, h: nat)
    requires Watched(st) && OnlyAt(st.registry, st'.registry, h)
    requires st.clock <= st'.clock
    requires forall c <- st.calls :: c in st'.calls || c.handle == h
    requires LaneWatched(st', h, Browser) && LaneWatched(st', h, Agent)
    ensures Watched(st')
  {
    forall k, side | 0 <= k < |st'.registry.table| ensures LaneWatched(st', k, side) {
      if k != h {
        assert st'.registry.table[k] == st.registry.table[k];
        assert LaneWatched(st, k, side);
      }
    }
  }

  // ---- Steps that leave the table alone ----

  lemma CallAdded(limits: Limits, st: State, h: nat, reason: Reason)
    requires MachineInv(limits, st) && h < |st.registry.table|
    ensures MachineInv(limits, WithCall(st, h, reason))
  {
    hide RegistryInv, Promised;
    var st' := WithCall(st, h, reason);
    assert forall e: Effect :: Promised(st', e) == Promised(st, e) by {
      SamePromises(st, st');
    }
    forall k, side | 0 <= k < |st'.registry.table| ensures LaneWatched(st', k, side) {
      assert LaneWatched(st, k, side);
    }
  }

  lemma SamePromises(st: State, st': State)
    requires st.log == st'.log && st.tasks == st'.tasks
    ensures forall e: Effect :: Promised(st', e) == Promised(st, e)
  {
  }

  lemma TickKeeps(limits: Limits, st: State, d: nat)
    requires MachineInv(limits, st)
    ensures MachineInv(limits, st.(clock := st.clock + d))
  {
    hide RegistryInv, Promised;
    var st' := st.(clock := st.clock + d);
    SamePromises(st, st');
    forall k, side | 0 <= k < |st'.registry.table| ensures LaneWatched(st', k, side) {
      assert LaneWatched(st, k, side);
    }
  }

  lemma RunEffectKeeps(limits: Limits, st: State, i: nat)
    requires MachineInv(limits, st) && Enabled(st, RunEffect(i))
    ensures MachineInv(limits, Apply(limits, st, RunEffect(i)))
  {
    hide RegistryInv, EffectsMatch;
    EffectsAfterRun(st, i);
    var st' := Apply(limits, st, RunEffect(i));
    forall k, side | 0 <= k < |st'.registry.table| ensures LaneWatched(st', k, side) {
      assert LaneWatched(st, k, side);
    }
  }

  // ---- Steps that change one session ----

  /** A session whose lanes did not move stays watched, if it still has its calls or has finished. */
  lemma SameLanesWatched(st: State, st': State, h: nat, claim: Claim)
    requires Watched(st) && OnlyAt(st.registry, st'.registry, h)
    requires st.clock <= st'.clock
    requires st'.registry.table[h].finished ||
             (!Before(st.registry, h, claim).finished && forall c <- st.calls :: c in st'.calls)
    requires forall side ::
               var l, l' := SlotOf(Before(st.registry, h, claim), side).lane, SlotOf(st'.registry.table[h], side).lane;
               l'.arrivals == l.arrivals
               && ((l'.producer == l.producer && l'.consumer == l.consumer) || l' == L.Start(l))
    ensures forall side :: LaneWatched(st', h, side)
  {
    forall side ensures LaneWatched(st', h, side) {
      if h < |st.registry.table| {
        assert LaneWatched(st, h, side);
      } else {
        assert SlotOf(NewSession(claim), side).lane == L.IDLE_LANE;
      }
    }
  }

  /** One session changed, its pumps did not move, and what it owes the outside became a task. */
  lemma OneSessionChanged(limits: Limits, st: State, st': State, h: nat, claim: Claim, task: seq<Effect>)
    requires MachineInv(limits, st) && RegistryInv(limits, st'.registry)
    requires OnlyAt(st.registry, st'.registry, h)
    requires st'.clock == st.clock && st'.tasks == st.tasks && st'.log == st.log
    requires forall c <- st'.calls :: c in st.calls
    requires forall c <- st.calls :: c in st'.calls || c.handle == h
    requires st'.registry.table[h].finished ||
             (!Before(st.registry, h, claim).finished && forall c <- st.calls :: c in st'.calls)
    requires forall side ::
               var l, l' := SlotOf(Before(st.registry, h, claim), side).lane, SlotOf(st'.registry.table[h], side).lane;
               l'.arrivals == l.arrivals
               && ((l'.producer == l.producer && l'.consumer == l.consumer) || l' == L.Start(l))
    requires forall e <- task :: e.h == h
    requires forall e: Effect :: e.h == h && !e.Pressure? ==>
               ExpectedOf(st'.registry.table[h], e) == ExpectedOf(Before(st.registry, h, claim), e) + multiset(task)[e]
    ensures MachineInv(limits, WithTask(st', task))
  {
    hide RegistryInv, EffectsMatch;
    EffectsAfterUpdate(st, st'.registry, h, claim, task);
    var done := WithTask(st', task);
    EffectsSame(WithTask(st.(registry := st'.registry), task), done);
    SameLanesWatched(st, done, h, claim);
    WatchedAfterUpdate(st, done, h);
  }

  lemma EffectsSame(st: State, st': State)
    requires st.registry == st'.registry && st.tasks == st'.tasks && st.log == st'.log && EffectsMatch(st)
    ensures EffectsMatch(st')
  {
    SamePromises(st, st');
  }

  lemma ReserveKeepsMachine(limits: Limits, st: State, claim: Claim, now: nat)
    requires MachineInv(limits, st) && Enabled(st, DoReserve(claim, now))
    ensures MachineInv(limits, Apply(limits, st, DoReserve(claim, now)))
  {
    hide RegistryInv, Reserve, Promised, OnlyAt;
    var v := Reserve(limits, st.registry, claim, now);
    if v.Accepted? {
      ReserveKeeps(limits, st.registry, claim, now);
      ReserveFrame(limits, st.registry, claim, now);
      OneSessionChanged(limits, st, st.(registry := v.registry), v.handle, claim, []);
    }
  }

  lemma JoinKeepsMachine(limits: Limits, st: State, claim: Claim, endpoint: nat, now: nat)
    requires MachineInv(limits, st) && Enabled(st, DoJoin(claim, endpoint, now))
    ensures MachineInv(limits, Apply(limits, st, DoJoin(claim, endpoint, now)))
  {
    hide RegistryInv, Join, Promised, OnlyAt;
    var v := Join(limits, st.registry, claim, endpoint, now);
    if v.Accepted? {
      JoinKeeps(limits, st.registry, claim, endpoint, now);
      JoinFrame(limits, st.registry, claim, endpoint, now);
      OneSessionChanged(limits, st, st.(registry := v.registry), v.handle, claim, JoinEffects(v, claim.side));
    }
  }

  lemma CancelKeepsMachine(limits: Limits, st: State, claim: Claim)
    requires MachineInv(limits, st) && Enabled(st, DoCancel(claim))
    ensures MachineInv(limits, Apply(limits, st, DoCancel(claim)))
  {
    hide RegistryInv, CancelReservation, Promised, OnlyAt;
    if claim.sessionId in st.registry.sessions {
      CancelKeeps(limits, st.registry, claim);
      CancelFrame(st.registry, claim);
      RegisteredIsOpen(limits, st.registry, claim.sessionId);
      var h := st.registry.sessions[claim.sessionId];
      OneSessionChanged(limits, st, st.(registry := CancelReservation(st.registry, claim)), h, claim, []);
    } else {
      CancelAbsent(st.registry, claim);
    }
  }

  function Once(b: bool): nat
  {
    if b then 1 else 0
  }

  lemma FailEffectsCount(h: nat, s: Session, reason: Reason, e: Effect)
    ensures multiset(FailEffects(h, s, reason))[e]
         == Once(s.browser.endpoint.Some? && e == EndpointClosed(h, Browser))
          + Once(s.agent.endpoint.Some? && e == EndpointClosed(h, Agent))
          + Once(e == SessionClosed(h, reason, s.browser.lane.counted, s.agent.lane.counted))
  {
    var b := if s.browser.endpoint.Some? then [EndpointClosed(h, Browser)] else [];
    var a := if s.agent.endpoint.Some? then [EndpointClosed(h, Agent)] else [];
    assert multiset(b)[e] == Once(s.browser.endpoint.Some? && e == EndpointClosed(h, Browser));
    assert multiset(a)[e] == Once(s.agent.endpoint.Some? && e == EndpointClosed(h, Agent));
  }

  /** What a finishing session newly owes is exactly the program of the call that finished it. */
  lemma FailOwes(h: nat, s: Session, reason: Reason, e: Effect)
    requires !s.finished && s.err.None? && e.h == h && !e.Pressure?
    ensures ExpectedOf(Finish(s, reason), e) == ExpectedOf(s, e) + multiset(FailEffects(h, s, reason))[e]
  {
    FailEffectsCount(h, s, reason, e);
    hide FailEffects;
  }

  lemma FailEffectsOf(h: nat, s: Session, reason: Reason)
    ensures forall e <- FailEffects(h, s, reason) :: e.h == h
  {
  }

  lemma RunFailKeepsMachine(limits: Limits, st: State, call: FailCall)
    requires MachineInv(limits, st) && Enabled(st, RunFail(call))
    ensures MachineInv(limits, Apply(limits, st, RunFail(call)))
  {
    hide RegistryInv, Promised, OnlyAt, ExpectedOf, FailEffects;
    var h := call.handle;
    var s := st.registry.table[h];
    var r' := Fail(st.registry, h, call.reason);
    FailKeeps(limits, st.registry, h, call.reason);
    FailFrame(limits, st.registry, h, call.reason);
    FailEffectsOf(h, s, call.reason);
    if !s.finished {
      forall e: Effect | e.h == h && !e.Pressure?
        ensures ExpectedOf(Finish(s, call.reason), e) == ExpectedOf(s, e) + multiset(FailEffects(h, s, call.reason))[e]
      {
        FailOwes(h, s, call.reason, e);
      }
    }
    OneSessionChanged(limits, st, st.(registry := r', calls := st.calls - multiset{call}), h, s.claim,
                      if s.finished then [] else FailEffects(h, s, call.reason));
  }

  // ---- Pump steps ----

  lemma PumpedSession(limits: Limits, s: Session, side: Side, now: nat, move: L.Move)
    requires SessionInv(limits, s) && L.Enabled(SlotOf(s, side).lane, s.finished, move)
    ensures SessionInv(limits, Pumped(limits, s, side, now, move))
  {
    hide L.LaneInv, L.Apply, L.Enabled;
    L.LaneStep(limits, SlotOf(s, side).lane, s.finished, now, move);
    L.StepFrame(limits, SlotOf(s, side).lane, s.finished, now, move);
  }

  lemma SessionAt(limits: Limits, r: Registry, h: nat)
    requires RegistryInv(limits, r) && h < |r.table|
    ensures SessionInv(limits, r.table[h])
  {
  }

  lemma LaneAt(limits: Limits, r: Registry, h: nat, side: Side)
    requires RegistryInv(limits, r) && h < |r.table|
    ensures L.LaneInv(limits, SlotOf(r.table[h], side).lane)
  {
    hide L.LaneInv;
  }

  lemma ArrivalAppended(arrivals: seq<Arrival>, arrivals': seq<Arrival>, clock: nat)
    requires ClockOrdered(arrivals) && (arrivals != [] ==> arrivals[|arrivals| - 1].at <= clock)
    requires arrivals' == arrivals || exists size: nat :: arrivals' == arrivals + [Arrival(clock, size)]
    ensures ClockOrdered(arrivals') && (arrivals' != [] ==> arrivals'[|arrivals'| - 1].at <= clock)
  {
  }

  lemma PumpedFrame(limits: Limits, s: Session, side: Side, now: nat, move: L.Move)
    requires L.Enabled(SlotOf(s, side).lane, s.finished, move)
    ensures var s' := Pumped(limits, s, side, now, move);
            && s'.claim == s.claim && s'.finished == s.finished
            && (forall k :: k != side ==> SlotOf(s', k) == SlotOf(s, k))
            && SlotOf(s', side).lane == L.Apply(limits, SlotOf(s, side).lane, s.finished, now, move).lane
            && forall e: Effect :: ExpectedOf(s', e) == ExpectedOf(s, e)
  {
    hide L.Apply, L.Enabled;
  }

  lemma PumpedLaneOk(limits: Limits, l: L.Lane, done: bool, now: nat, move: L.Move, covered: bool)
    requires L.LaneInv(limits, l) && L.Enabled(l, done, move) && LaneOk(l, covered, now)
    ensures var o := L.Apply(limits, l, done, now, move);
            LaneOk(o.lane, covered || done || o.fails.Some?, now)
  {
    hide L.LaneInv, L.Apply, L.Enabled;
    L.StepFrame(limits, l, done, now, move);
    ArrivalAppended(l.arrivals, L.Apply(limits, l, done, now, move).lane.arrivals, now);
  }

  lemma PumpWatched(limits: Limits, st: State, h: nat, side: Side, move: L.Move, k: Side)
    requires MachineInv(limits, st) && Enabled(st, Pump(h, side, move))
    ensures var st' := Apply(limits, st, Pump(h, side, move));
            h < |st'.registry.table| && LaneWatched(st', h, k)
  {
    hide RegistryInv, EffectsMatch, L.Apply, L.Enabled, Pumped, LaneOk;
    var st' := Apply(limits, st, Pump(h, side, move));
    var s := st.registry.table[h];
    var o := L.Apply(limits, SlotOf(s, side).lane, s.finished, st.clock, move);
    assert LaneWatched(st, h, k);
    PumpedFrame(limits, s, side, st.clock, move);
    LaneAt(limits, st.registry, h, side);
    var covered, covered' := s.finished || HasCall(st.calls, h), s.finished || HasCall(st'.calls, h);
    if o.fails.Some? {
      assert FailCall(h, o.fails.value) in st'.calls;
    }
    assert covered || o.fails.Some? ==> covered';
    if k == side {
      PumpedLaneOk(limits, SlotOf(s, side).lane, s.finished, st.clock, move, covered);
      Cover(o.lane, covered || s.finished || o.fails.Some?, covered', st.clock);
    } else {
      Cover(SlotOf(s, k).lane, covered, covered', st.clock);
    }
  }

  lemma Cover(lane: L.Lane, covered: bool, covered': bool, clock: nat)
    requires LaneOk(lane, covered, clock) && (covered ==> covered')
    ensures LaneOk(lane, covered', clock)
  {
  }

  lemma PumpKeepsMachine(limits: Limits, st: State, h: nat, side: Side, move: L.Move)
    requires MachineInv(limits, st) && Enabled(st, Pump(h, side, move))
    ensures MachineInv(limits, Apply(limits, st, Pump(h, side, move)))
  {
    hide RegistryInv, SessionInv, EffectsMatch, LaneWatched, Pumped, L.Apply, L.Enabled, ExpectedOf;
    var st' := Apply(limits, st, Pump(h, side, move));
    var s := st.registry.table[h];
    var o := L.Apply(limits, SlotOf(s, side).lane, s.finished, st.clock, move);
    var task := if o.pressure then [Pressure(h, side)] else [];
    SessionAt(limits, st.registry, h);
    PumpedFrame(limits, s, side, st.clock, move);
    PumpedSession(limits, s, side, st.clock, move);
    PutKeeps(limits, st.registry, h, Pumped(limits, s, side, st.clock, move));
    EffectsAfterUpdate(st, st'.registry, h, s.claim, task);
    EffectsSame(WithTask(st.(registry := st'.registry), task), st');
    PumpWatched(limits, st, h, side, move, Browser);
    PumpWatched(limits, st, h, side, move, Agent);
    WatchedAfterUpdate(st, st', h);
  }

  // ---- Every step, every run ----

  lemma StepKeeps(limits: Limits, st: State, step: Step)
    requires MachineInv(limits, st) && Enabled(st, step)
    ensures MachineInv(limits, Apply(limits, st, step))
  {
    hide RegistryInv, EffectsMatch, Watched, L.Apply, L.Enabled, Reserve, Join, CancelReservation, Fail;
    match step
    case Tick(d) => TickKeeps(limits, st, d);
    case DoReserve(claim, now) => ReserveKeepsMachine(limits, st, claim, now);
    case DoCancel(claim) => CancelKeepsMachine(limits, st, claim);
    case DoJoin(claim, endpoint, now) => JoinKeepsMachine(limits, st, claim, endpoint, now);
    case DoRevoke(id, text) =>
      if id in st.registry.sessions {
        CallAdded(limits, st, st.registry.sessions[id], Revoked(text));
      }
    case JoinTimer(h) =>
      CallAdded(limits, st, h, if st.registry.table[h].claim.reconnect then ReconnectTimeout else JoinTimeout);
    case HardTimer(h) => CallAdded(limits, st, h, HardExpired);
    case ContextEnds(h, _) => CallAdded(limits, st, h, TransportClosed);
    case RunFail(call) => RunFailKeepsMachine(limits, st, call);
    case RunEffect(i) => RunEffectKeeps(limits, st, i);
    case Pump(h, side, move) => PumpKeepsMachine(limits, st, h, side, move);
  }

  lemma InitInv(limits: Limits)
    ensures MachineInv(limits, INIT)
  {
    assert forall home: string :: OfHome(INIT.registry, home) == {};
    assert forall agent: string :: OfAgent(INIT.registry, agent) == {};
  }

  ghost predicate Run(limits: Limits, states: seq<State>, steps: seq<Step>)
  {
    && |states| == |steps| + 1
    && states[0] == INIT
    && forall i {:trigger steps[i]} :: 0 <= i < |steps| ==>
         Enabled(states[i], steps[i]) && states[i + 1] == Apply(limits, states[i], steps[i])
  }

  /** The invariant holds in every state of every run. */
  lemma {:induction false} RunIsSafe(limits: Limits, states: seq<State>, steps: seq<Step>, i: nat)
    requires Run(limits, states, steps) && i < |states|
    ensures MachineInv(limits, states[i])
  {
    hide MachineInv, Apply;
    if i == 0 {
      InitInv(limits);
    } else {
      RunIsSafe(limits, states, steps, i - 1);
      StepKeeps(limits, states[i - 1], steps[i - 1]);
    }
  }
}
