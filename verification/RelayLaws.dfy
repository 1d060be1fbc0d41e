/** What timers, ended contexts, pumps and winners of `fail` do, step by step, in every run of the relay. */
module RelayLaws {
  import opened Common
  import opened RelayTypes
  import opened R = RelayRegistry
  import opened M = RelayMachine
  import T = RelayTheorems
  import L = RelayLane

  lemma RunStep(limits: Limits, states: seq<State>, steps: seq<Step>, i: nat)
    requires Run(limits, states, steps) && i < |steps|
    ensures i + 1 < |states| && M.Enabled(states[i], steps[i])
    ensures states[i + 1] == M.Apply(limits, states[i], steps[i])
  {
    hide M.Apply, M.Enabled;
  }

  // ---- Timers and contexts ----

  /** The only change is one more call of `fail` on its way. */
  predicate Calls(st: State, st': State, h: nat, reason: Reason)
  {
    st' == st.(calls := st.calls + multiset{FailCall(h, reason)})
  }

  /** The join timer calls `fail` for a session that is neither paired nor finished, and does nothing to any other. */
  lemma JoinTimerExactly(limits: Limits, states: seq<State>, steps: seq<Step>, i: nat, h: nat)
    requires Run(limits, states, steps) && i < |steps| && steps[i] == JoinTimer(h)
    ensures i + 1 < |states| && h < |states[i].registry.table|
    ensures var s := states[i].registry.table[h];
            if s.started || s.finished then states[i + 1] == states[i]
            else if s.claim.reconnect then Calls(states[i], states[i + 1], h, ReconnectTimeout)
            else Calls(states[i], states[i + 1], h, JoinTimeout)
  {
    RunStep(limits, states, steps, i);
    hide Run;
  }

  /** The hard timer calls `fail` in any case. */
  lemma HardTimerExactly(limits: Limits, states: seq<State>, steps: seq<Step>, i: nat, h: nat)
    requires Run(limits, states, steps) && i < |steps| && steps[i] == HardTimer(h)
    ensures i + 1 < |states| && Calls(states[i], states[i + 1], h, HardExpired)
  {
    RunStep(limits, states, steps, i);
    hide Run;
  }

  /** An ended request context calls `fail` for the session that its side has joined. */
  lemma ContextEndExactly(limits: Limits, states: seq<State>, steps: seq<Step>, i: nat, h: nat, side: Side)
    requires Run(limits, states, steps) && i < |steps| && steps[i] == ContextEnds(h, side)
    ensures i + 1 < |states| && h < |states[i].registry.table|
    ensures SlotOf(states[i].registry.table[h], side).endpoint.Some?
    ensures Calls(states[i], states[i + 1], h, TransportClosed)
  {
    RunStep(limits, states, steps, i);
    hide Run;
  }

  /** After the join timer, once its call has run where it made one, a session is started or finished for good. */
  lemma JoinTimerSettles(limits: Limits, states: seq<State>, steps: seq<Step>, i: nat, j: nat, k: nat, h: nat)
    requires Run(limits, states, steps) && i < j < k < |states| && j < |steps| && steps[i] == JoinTimer(h)
    requires h < |states[i].registry.table|
    requires var s := states[i].registry.table[h];
             s.started || s.finished
             || steps[j] == RunFail(FailCall(h, if s.claim.reconnect then ReconnectTimeout else JoinTimeout))
    ensures h < |states[k].registry.table|
    ensures states[k].registry.table[h].started || states[k].registry.table[h].finished
  {
    hide M.Apply, M.Enabled;
    T.SessionHistory(limits, states, steps, i, k, h);
    var s := states[i].registry.table[h];
    if !s.started && !s.finished {
      T.FailIsFinal(limits, states, steps, j, k);
    }
  }

  // ---- Pumps ----

  /** Bytes already charged to the window that is open at the time. */
  function Charged(l: L.Lane, now: nat): nat
  {
    if l.rate.startedAt.Some? && now - l.rate.startedAt.value < 1_000_000_000 then l.rate.bytes else 0
  }

  /** Why a pump calls `fail`, if it does. */
  function WhyFails(limits: Limits, l: L.Lane, done: bool, now: nat, m: L.Move): Option<Reason>
    requires L.Enabled(l, done, m)
  {
    match m
    case ReadFrame(f) => if |f| > limits.maxFrameBytes then Some(FrameLimit) else None
    case ReadFails(Canceled) => if done then None else Some(TransportClosed)
    case ReadFails(DeadlineExceeded) => Some(IdleTimeout)
    case ReadFails(Broken) => Some(TransportClosed)
    case CheckRate =>
      if Charged(l, now) + |l.producer.frame| > limits.maxBytesPerSecond then Some(RateLimit) else None
    case CheckGrace => if done then None else Some(SlowConsumer)
    case CheckWriteError => if done then None else Some(TransportClosed)
    case _ => None
  }

  /** Backpressure is reported when a frame first finds the queue over its budget. */
  predicate ReportsPressure(limits: Limits, l: L.Lane, done: bool, m: L.Move)
    requires L.Enabled(l, done, m)
  {
    m.Offer? && !l.producer.backpressured
    && l.pipe.queuedBytes != 0 && l.pipe.queuedBytes + |l.producer.frame| > limits.maxQueueBytes
  }

  lemma LaneFailsExactly(limits: Limits, l: L.Lane, done: bool, now: nat, m: L.Move)
    requires L.Enabled(l, done, m)
    ensures var o := L.Apply(limits, l, done, now, m);
            o.fails == WhyFails(limits, l, done, now, m) && o.pressure == ReportsPressure(limits, l, done, m)
  {
  }

  /** In every run a pump step calls `fail`, and reports backpressure, exactly for the reasons above. */
  lemma PumpFailsExactly(limits: Limits, states: seq<State>, steps: seq<Step>, i: nat, h: nat, side: Side, m: L.Move)
    requires Run(limits, states, steps) && i < |steps| && steps[i] == Pump(h, side, m)
    ensures i + 1 < |states| && h < |states[i].registry.table|
    ensures L.Enabled(SlotOf(states[i].registry.table[h], side).lane, states[i].registry.table[h].finished, m)
    ensures var st, st', s := states[i], states[i + 1], states[i].registry.table[h];
            var lane := SlotOf(s, side).lane;
            var why := WhyFails(limits, lane, s.finished, st.clock, m);
            && st'.calls == st.calls + (if why.Some? then multiset{FailCall(h, why.value)} else multiset{})
            && st'.tasks == st.tasks +
               (if ReportsPressure(limits, lane, s.finished, m) then [[Pressure(h, side)]] else [])
            && st'.log == st.log && st'.clock == st.clock && st'.registry.sessions == st.registry.sessions
  {
    RunStep(limits, states, steps, i);
    hide Run, L.Apply, L.Enabled, WhyFails, ReportsPressure, Pumped;
    var s := states[i].registry.table[h];
    LaneFailsExactly(limits, SlotOf(s, side).lane, s.finished, states[i].clock, m);
  }

  /** The frame in the read pump's hands has been reported, or the pump has stopped. */
  predicate Reported(p: L.Producer)
  {
    p.Parked? || p.GraceOver? || p.Ended? || (p.Offering? && p.backpressured)
  }

  lemma ReportedStays(limits: Limits, l: L.Lane, done: bool, now: nat, m: L.Move)
    requires L.Enabled(l, done, m)
    ensures var o := L.Apply(limits, l, done, now, m);
            && (o.pressure ==> !Reported(l.producer) && Reported(o.lane.producer))
            && (Reported(l.producer) ==> Reported(o.lane.producer) || o.lane.producer.Notifying?)
  {
  }

  lemma {:induction false} ReportedUntilQueued(limits: Limits, states: seq<L.Lane>, moves: seq<L.Timed>, i: nat, j: nat)
    requires L.LaneRun(limits, states, moves) && i <= j < |states| && Reported(states[i].producer)
    requires forall k :: i < k <= j ==> !states[k].producer.Notifying?
    ensures Reported(states[j].producer)
    decreases j
  {
    hide L.Apply, L.Enabled, Reported;
    if i < j {
      ReportedUntilQueued(limits, states, moves, i, j - 1);
      var t := moves[j - 1];
      ReportedStays(limits, states[j - 1], t.done, t.now, t.move);
    }
  }

  /** Backpressure is reported once for a frame: between two reports a frame has been queued. */
  lemma OneReportPerFrame(limits: Limits, states: seq<L.Lane>, moves: seq<L.Timed>, i: nat, j: nat)
    requires L.LaneRun(limits, states, moves) && i < j < |moves|
    requires L.Enabled(states[i], moves[i].done, moves[i].move) && L.Enabled(states[j], moves[j].done, moves[j].move)
    requires L.Apply(limits, states[i], moves[i].done, moves[i].now, moves[i].move).pressure
    requires L.Apply(limits, states[j], moves[j].done, moves[j].now, moves[j].move).pressure
    ensures exists k :: i < k <= j && states[k].producer.Notifying?
  {
    hide L.Apply, L.Enabled, Reported;
    ReportedStays(limits, states[i], moves[i].done, moves[i].now, moves[i].move);
    ReportedStays(limits, states[j], moves[j].done, moves[j].now, moves[j].move);
    if forall k :: i < k <= j ==> !states[k].producer.Notifying? {
      ReportedUntilQueued(limits, states, moves, i + 1, j);
    }
  }

  /** The write pump takes the oldest frame, and sets out to notify again exactly when it leaves some behind. */
  lemma TakeExactly(limits: Limits, l: L.Lane, done: bool, now: nat)
    requires l.consumer.Checking?
    ensures var l' := L.Apply(limits, l, done, now, L.Take).lane;
            && (|l.pipe.frames| == 0 ==> l' == l.(consumer := L.Waiting))
            && (|l.pipe.frames| > 0 ==>
                  && l'.pipe == l.pipe.(frames := l.pipe.frames[1..])
                  && l'.consumer == (if |l.pipe.frames| == 1 then L.Writing(l.pipe.frames[0])
                                     else L.Renotifying(l.pipe.frames[0])))
  {
  }

  /** The tokens: set by the three notifications, taken by the two waits, and left alone by everything else. */
  lemma TokensExactly(limits: Limits, l: L.Lane, done: bool, now: nat, m: L.Move)
    requires L.Enabled(l, done, m)
    ensures var p, p' := l.pipe, L.Apply(limits, l, done, now, m).lane.pipe;
            && p'.available == (if m.SignalAvailable? || m.SignalAgain? then true
                                else if m.TakeAvailable? then false else p.available)
            && p'.space == (if m.SignalSpace? then true else if m.TakeSpace? then false else p.space)
  {
  }

  // ---- The order of a winner's effects ----

  /**
   * In a goroutine's program, closing an endpoint comes before the session's closed event, and joining
   * before pairing; the later one is last.
   */
  ghost predicate Shaped(task: seq<Effect>)
  {
    && (forall k :: 0 <= k < |task| && (task[k].SessionClosed? || task[k].PairedUp?) ==> k == |task| - 1)
    && (forall k :: 0 <= k < |task| && task[k].EndpointClosed? ==>
          task[|task| - 1].SessionClosed? && task[|task| - 1].h == task[k].h)
  }

  ghost predicate AllShaped(tasks: seq<seq<Effect>>)
  {
    forall t :: 0 <= t < |tasks| ==> Shaped(tasks[t])
  }

  lemma ProgramsAreShaped(h: nat, s: Session, reason: Reason, v: Verdict, side: Side)
    ensures Shaped(FailEffects(h, s, reason)) && (v.Accepted? ==> Shaped(JoinEffects(v, side)))
  {
  }

  lemma RestIsShaped(task: seq<Effect>)
    requires Shaped(task) && task != []
    ensures Shaped(task[1..])
  {
    var rest := task[1..];
    forall k | 0 <= k < |rest| && rest[k].EndpointClosed?
      ensures rest[|rest| - 1].SessionClosed? && rest[|rest| - 1].h == rest[k].h
    {
      assert task[k + 1].EndpointClosed?;
    }
  }

  lemma ShapedStep(limits: Limits, st: State, step: Step)
    requires M.Enabled(st, step) && AllShaped(st.tasks)
    ensures AllShaped(M.Apply(limits, st, step).tasks)
  {
    hide Shaped, Reserve, Join, CancelReservation, Fail, FailEffects, JoinEffects, L.Apply, L.Enabled, Pumped;
    match step
    case DoJoin(claim, endpoint, now) =>
      var v := Join(limits, st.registry, claim, endpoint, now);
      ProgramsAreShaped(0, NewSession(claim), JoinTimeout, v, claim.side);
    case RunFail(call) =>
      ProgramsAreShaped(call.handle, st.registry.table[call.handle], call.reason, Failed(ClaimMismatch), Browser);
    case RunEffect(t) => RestIsShaped(st.tasks[t]);
    case Pump(h, side, _) => PressureIsShaped(h, side);
    case _ =>
  }

  lemma PressureIsShaped(h: nat, side: Side)
    ensures Shaped([Pressure(h, side)])
  {
  }

  lemma {:induction false} TasksStayShaped(limits: Limits, states: seq<State>, steps: seq<Step>, i: nat)
    requires Run(limits, states, steps) && i < |states|
    ensures AllShaped(states[i].tasks)
  {
    hide M.Apply, M.Enabled, Shaped;
    if i > 0 {
      TasksStayShaped(limits, states, steps, i - 1);
      RunStep(limits, states, steps, i - 1);
      hide Run, AllShaped;
      ShapedStep(limits, states[i - 1], steps[i - 1]);
    }
  }

  lemma {:induction false} InTaskIsOutstanding(tasks: seq<seq<Effect>>, t: nat, k: nat)
    requires t < |tasks| && k < |tasks[t]|
    ensures Outstanding(tasks)[tasks[t][k]] >= 1
  {
    if t == 0 {
      assert tasks[0][k] in multiset(tasks[0]);
    } else {
      InTaskIsOutstanding(tasks[1..], t - 1, k);
    }
  }

  /** No closed event of a session is out while one of its endpoints is still to be closed. */
  lemma ClosingFirst(limits: Limits, st: State, t: nat, a: nat)
    requires MachineInv(limits, st) && AllShaped(st.tasks) && t < |st.tasks| && st.tasks[t] != []
    requires st.tasks[t][0].EndpointClosed? && a < |st.log| && st.log[a].SessionClosed?
    ensures st.log[a].h != st.tasks[t][0].h
  {
    hide RegistryInv, Watched, CallsInTable;
    var task := st.tasks[t];
    assert Shaped(task);
    var last, e := task[|task| - 1], st.log[a];
    InTaskIsOutstanding(st.tasks, t, |task| - 1);
    assert e in multiset(st.log);
    assert Promised(st, e) == Expected(st.registry.table, e);
    assert Promised(st, last) == Expected(st.registry.table, last);
  }

  /** In every run the closed event of a session comes after the closing of each of its endpoints. */
  lemma {:induction false} ClosedEventComesLast(limits: Limits, states: seq<State>, steps: seq<Step>, i: nat, a: nat,
                                                b: nat)
    requires Run(limits, states, steps) && i < |states| && a < |states[i].log| && b < |states[i].log|
    requires states[i].log[a].SessionClosed? && states[i].log[b].EndpointClosed?
    requires states[i].log[a].h == states[i].log[b].h
    ensures b < a
    decreases i
  {
    hide M.Apply, M.Enabled, MachineInv, AllShaped;
    if i == 0 {
      EmptyAtFirst(limits, states, steps);
      assert false;
    } else {
      RunStep(limits, states, steps, i - 1);
      var st, step := states[i - 1], steps[i - 1];
      LogGrows(limits, st, step);
      if b < |st.log| && a < |st.log| {
        ClosedEventComesLast(limits, states, steps, i - 1, a, b);
      } else if b == |st.log| && a < |st.log| {
        RunIsSafe(limits, states, steps, i - 1);
        TasksStayShaped(limits, states, steps, i - 1);
        ClosingFirst(limits, st, step.task, a);
        assert false;
      }
    }
  }

  lemma LogGrows(limits: Limits, st: State, step: Step)
    requires M.Enabled(st, step)
    ensures var st' := M.Apply(limits, st, step);
            if step.RunEffect? then
              step.task < |st.tasks| && st.tasks[step.task] != [] && st'.log == st.log + [st.tasks[step.task][0]]
            else st'.log == st.log
  {
    hide Reserve, Join, CancelReservation, Fail, FailEffects, JoinEffects, L.Apply, L.Enabled, Pumped;
  }

  lemma EmptyAtFirst(limits: Limits, states: seq<State>, steps: seq<Step>)
    requires Run(limits, states, steps)
    ensures |states| > 0 && states[0].log == []
  {
  }
}
