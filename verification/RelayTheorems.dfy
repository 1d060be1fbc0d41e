/** What the relay guarantees in every state of every run. */
module RelayTheorems {
  import opened Common
  import opened RelayTypes
  import opened RateWindow
  import opened R = RelayRegistry
  import opened M = RelayMachine
  import L = RelayLane

  lemma SafeRegistry(limits: Limits, states: seq<State>, steps: seq<Step>, i: nat)
    requires Run(limits, states, steps) && i < |states|
    ensures RegistryInv(limits, states[i].registry)
    ensures CallsInTable(states[i]) && EffectsMatch(states[i]) && Watched(states[i])
  {
    hide RegistryInv, EffectsMatch, Watched, M.Apply;
    RunIsSafe(limits, states, steps, i);
  }

  // ---- Exactly-once finish ----

  /** A session sits in the map exactly while unfinished; its `done` channel is closed at most once. */
  lemma MapHoldsUnfinished(limits: Limits, states: seq<State>, steps: seq<Step>, i: nat, h: nat)
    requires Run(limits, states, steps) && i < |states| && h < |states[i].registry.table|
    ensures var r := states[i].registry;
            var s := r.table[h];
            && (!s.finished <==> s.claim.sessionId in r.sessions && r.sessions[s.claim.sessionId] == h)
            && s.doneCloses == (if s.finished then 1 else 0)
  {
    hide M.Apply, L.LaneInv, WithinCapacity;
    SafeRegistry(limits, states, steps, i);
  }

  /** Nothing is ever done twice: no endpoint is closed twice, no event repeated. */
  lemma EffectsAtMostOnce(limits: Limits, states: seq<State>, steps: seq<Step>, i: nat, e: Effect)
    requires Run(limits, states, steps) && i < |states| && !e.Pressure?
    ensures multiset(states[i].log)[e] <= Expected(states[i].registry.table, e) <= 1
  {
    hide M.Apply, RegistryInv;
    SafeRegistry(limits, states, steps, i);
    assert Promised(states[i], e) == Expected(states[i].registry.table, e);
  }

  /** Once every goroutine has run to its end, everything owed has been done exactly once. */
  lemma EffectsExactlyOnce(limits: Limits, states: seq<State>, steps: seq<Step>, i: nat, e: Effect)
    requires Run(limits, states, steps) && i < |states| && !e.Pressure?
    requires forall k :: 0 <= k < |states[i].tasks| ==> states[i].tasks[k] == []
    ensures multiset(states[i].log)[e] == Expected(states[i].registry.table, e)
  {
    hide M.Apply, RegistryInv;
    SafeRegistry(limits, states, steps, i);
    NothingOutstanding(states[i].tasks);
    assert Promised(states[i], e) == Expected(states[i].registry.table, e);
  }

  lemma {:induction false} NothingOutstanding(tasks: seq<seq<Effect>>)
    requires forall k :: 0 <= k < |tasks| ==> tasks[k] == []
    ensures Outstanding(tasks) == multiset{}
  {
    if tasks != [] {
      NothingOutstanding(tasks[1..]);
    }
  }

  /** At most one "closed" event per session, whatever reason and counters it carries. */
  lemma OneClosedEvent(limits: Limits, states: seq<State>, steps: seq<Step>, i: nat, a: nat, b: nat)
    requires Run(limits, states, steps) && i < |states|
    requires a < |states[i].log| && b < |states[i].log|
    requires states[i].log[a].SessionClosed? && states[i].log[b].SessionClosed?
    requires states[i].log[a].h == states[i].log[b].h
    ensures a == b
  {
    var log := states[i].log;
    LoggedIsExpected(limits, states, steps, i, a);
    LoggedIsExpected(limits, states, steps, i, b);
    if a != b {
      EffectsAtMostOnce(limits, states, steps, i, log[a]);
      Twice(log, a, b);
      assert false;
    }
  }

  lemma LoggedIsExpected(limits: Limits, states: seq<State>, steps: seq<Step>, i: nat, a: nat)
    requires Run(limits, states, steps) && i < |states| && a < |states[i].log| && !states[i].log[a].Pressure?
    ensures Expected(states[i].registry.table, states[i].log[a]) == 1
  {
    hide M.Apply, Expected;
    EffectsAtMostOnce(limits, states, steps, i, states[i].log[a]);
    assert states[i].log[a] in multiset(states[i].log);
  }

  lemma Twice(log: seq<Effect>, a: nat, b: nat)
    requires a < |log| && b < |log| && a != b && log[a] == log[b]
    ensures multiset(log)[log[a]] >= 2
  {
    var lo, hi := if a < b then a else b, if a < b then b else a;
    assert log == log[..lo] + [log[lo]] + log[lo + 1..hi] + [log[hi]] + log[hi + 1..];
  }

  /** The byte counters of a "closed" event never exceed what the endpoints have been given. */
  lemma ReportedBytesWereDelivered(limits: Limits, states: seq<State>, steps: seq<Step>, i: nat, a: nat)
    requires Run(limits, states, steps) && i < |states| && a < |states[i].log| && states[i].log[a].SessionClosed?
    ensures var e := states[i].log[a];
            && e.h < |states[i].registry.table|
            && e.browserToAgent <= TotalBytes(states[i].registry.table[e.h].browser.lane.delivered)
            && e.agentToBrowser <= TotalBytes(states[i].registry.table[e.h].agent.lane.delivered)
  {
    hide Run, L.LaneInv, WithinCapacity;
    var h := states[i].log[a].h;
    LoggedIsExpected(limits, states, steps, i, a);
    SafeRegistry(limits, states, steps, i);
    SessionAt(limits, states[i].registry, h);
    CountedWasDelivered(limits, states[i].registry, h, Browser);
    CountedWasDelivered(limits, states[i].registry, h, Agent);
  }

  lemma CountedWasDelivered(limits: Limits, r: Registry, h: nat, side: Side)
    requires RegistryInv(limits, r) && h < |r.table|
    ensures SlotOf(r.table[h], side).lane.counted <= TotalBytes(SlotOf(r.table[h], side).lane.delivered)
  {
    hide RegistryInv, L.Fifo, L.Wakeups, L.Metered;
    LaneAt(limits, r, h, side);
  }

  /**
   * A call of `fail` touches no session but its own: a successor under the same id stays in the map
   * as it is, and on a session already finished the call does nothing and starts nothing.
   */
  lemma FailTouchesOnlyItsOwn(limits: Limits, states: seq<State>, steps: seq<Step>, i: nat, h: nat)
    requires Run(limits, states, steps) && i < |steps| && steps[i].RunFail?
    requires h < |states[i].registry.table| && h != steps[i].call.handle
    ensures var r, r' := states[i].registry, states[i + 1].registry;
            && h < |r'.table| && r'.table[h] == r.table[h]
            && (forall id :: id in r.sessions && r.sessions[id] == h ==> id in r'.sessions && r'.sessions[id] == h)
    ensures states[i].registry.table[steps[i].call.handle].finished ==>
              states[i + 1] == states[i].(calls := states[i].calls - multiset{steps[i].call})
  {
    hide RegistryInv, EffectsMatch, Watched;
    SafeRegistry(limits, states, steps, i);
    var r, call := states[i].registry, steps[i].call;
    forall id | id in r.sessions && r.sessions[id] == h
      ensures id in Fail(r, call.handle, call.reason).sessions && Fail(r, call.handle, call.reason).sessions[id] == h {
      FailSparesOthers(limits, r, call.handle, call.reason, id);
    }
  }

  /** `Join` waits until its session is done, and then always has an error to return. */
  lemma JoinAlwaysReturnsError(limits: Limits, states: seq<State>, steps: seq<Step>, i: nat, h: nat, side: Side)
    requires Run(limits, states, steps) && i < |states| && h < |states[i].registry.table|
    requires SlotOf(states[i].registry.table[h], side).endpoint.Some? && states[i].registry.table[h].finished
    ensures states[i].registry.table[h].err.Some?
  {
    hide M.Apply, L.LaneInv, WithinCapacity;
    SafeRegistry(limits, states, steps, i);
    SessionAt(limits, states[i].registry, h);
  }

  // ---- History ----

  /** What time can and cannot do to a session. */
  ghost predicate Evolves(s: Session, s': Session)
  {
    && s'.claim == s.claim
    && (s.started ==> s'.started)
    && (s.browser.endpoint.Some? ==> s'.browser.endpoint == s.browser.endpoint)
    && (s.agent.endpoint.Some? ==> s'.agent.endpoint == s.agent.endpoint)
    && (s.finished ==>
          && s'.finished && s'.err == s.err && s'.reported == s.reported && s'.started == s.started
          && s'.browser.endpoint == s.browser.endpoint && s'.agent.endpoint == s.agent.endpoint)
  }

  lemma EvolvesTransitive(a: Session, b: Session, c: Session)
    requires Evolves(a, b) && Evolves(b, c)
    ensures Evolves(a, c)
  {
  }

  lemma ReserveEvolves(limits: Limits, r: Registry, claim: Claim, now: int, h: nat)
    requires RegistryInv(limits, r) && InTable(r) && h < |r.table| && Reserve(limits, r, claim, now).Accepted?
    ensures var r' := Reserve(limits, r, claim, now).registry;
            h < |r'.table| && Evolves(r.table[h], r'.table[h])
  {
    hide RegistryInv, Reserve;
    ReserveFrame(limits, r, claim, now);
    var v := Reserve(limits, r, claim, now);
    if h != v.handle {
      assert v.registry.table[h] == r.table[h];
    }
  }

  lemma JoinEvolves(limits: Limits, r: Registry, claim: Claim, endpoint: nat, now: int, h: nat)
    requires RegistryInv(limits, r) && InTable(r) && h < |r.table| && Join(limits, r, claim, endpoint, now).Accepted?
    ensures var r' := Join(limits, r, claim, endpoint, now).registry;
            h < |r'.table| && Evolves(r.table[h], r'.table[h])
  {
    hide RegistryInv, Join;
    JoinFrame(limits, r, claim, endpoint, now);
    var v := Join(limits, r, claim, endpoint, now);
    if h != v.handle {
      assert v.registry.table[h] == r.table[h];
    }
  }

  lemma CancelEvolves(limits: Limits, r: Registry, claim: Claim, h: nat)
    requires RegistryInv(limits, r) && InTable(r) && h < |r.table|
    ensures var r' := CancelReservation(r, claim);
            h < |r'.table| && Evolves(r.table[h], r'.table[h])
  {
    hide RegistryInv, CancelReservation;
    if claim.sessionId in r.sessions {
      CancelFrame(r, claim);
      RegisteredIsOpen(limits, r, claim.sessionId);
      CancelClaim(r, claim);
      if h != r.sessions[claim.sessionId] {
        assert CancelReservation(r, claim).table[h] == r.table[h];
      }
    } else {
      CancelAbsent(r, claim);
    }
  }

  lemma PumpEvolves(limits: Limits, s: Session, side: Side, now: nat, move: L.Move)
    requires L.Enabled(SlotOf(s, side).lane, s.finished, move)
    ensures Evolves(s, Pumped(limits, s, side, now, move))
  {
    hide L.Apply, L.Enabled;
  }

  lemma StepEvolves(limits: Limits, st: State, step: Step, h: nat)
    requires MachineInv(limits, st) && M.Enabled(st, step) && h < |st.registry.table|
    ensures var st' := M.Apply(limits, st, step);
            h < |st'.registry.table| && Evolves(st.registry.table[h], st'.registry.table[h])
  {
    hide RegistryInv, EffectsMatch, Watched, CallsInTable, L.Apply, L.Enabled, Reserve, Join, CancelReservation,
         Evolves, Pumped;
    var r := st.registry;
    EvolvesReflexive(r.table[h]);
    match step
    case DoReserve(claim, now) =>
      if Reserve(limits, r, claim, now).Accepted? {
        ReserveEvolves(limits, r, claim, now, h);
      }
    case DoJoin(claim, endpoint, now) =>
      if Join(limits, r, claim, endpoint, now).Accepted? {
        JoinEvolves(limits, r, claim, endpoint, now, h);
      }
    case DoCancel(claim) => CancelEvolves(limits, r, claim, h);
    case RunFail(call) =>
      if !r.table[call.handle].finished {
        FinishEvolves(r.table[call.handle], call.reason);
      }
    case Pump(k, side, move) => PumpEvolves(limits, r.table[k], side, st.clock, move);
    case _ =>
  }

  lemma FinishEvolves(s: Session, reason: Reason)
    requires !s.finished
    ensures Evolves(s, Finish(s, reason))
  {
  }

  lemma CancelClaim(r: Registry, claim: Claim)
    requires InTable(r) && claim.sessionId in r.sessions
    ensures var h := r.sessions[claim.sessionId];
            h < |CancelReservation(r, claim).table| && CancelReservation(r, claim).table[h].claim == r.table[h].claim
  {
  }

  /** Endpoints, pairing, the error and the reported counters never change once set, and no session ends twice. */
  lemma {:induction false} SessionHistory(limits: Limits, states: seq<State>, steps: seq<Step>, i: nat, j: nat, h: nat)
    requires Run(limits, states, steps) && i <= j < |states| && h < |states[i].registry.table|
    ensures h < |states[j].registry.table|
    ensures Evolves(states[i].registry.table[h], states[j].registry.table[h])
    decreases j - i
  {
    hide MachineInv, M.Apply, M.Enabled, Evolves;
    if i == j {
      EvolvesReflexive(states[i].registry.table[h]);
    } else {
      SessionHistory(limits, states, steps, i, j - 1, h);
      RunIsSafe(limits, states, steps, j - 1);
      StepEvolves(limits, states[j - 1], steps[j - 1], h);
      EvolvesTransitive(states[i].registry.table[h], states[j - 1].registry.table[h], states[j].registry.table[h]);
    }
  }

  /** Whatever sent it, a call of `fail` that has run leaves its session finished and out of the map for good. */
  lemma FailIsFinal(limits: Limits, states: seq<State>, steps: seq<Step>, i: nat, j: nat)
    requires Run(limits, states, steps) && i < |steps| && steps[i].RunFail? && i < j < |states|
    ensures var h := steps[i].call.handle;
            var r := states[j].registry;
            && h < |r.table| && r.table[h].finished
            && r.table[h].doneCloses == 1
            && !(r.table[h].claim.sessionId in r.sessions && r.sessions[r.table[h].claim.sessionId] == h)
  {
    hide MachineInv, L.Apply, L.Enabled;
    var h := steps[i].call.handle;
    assert h < |states[i + 1].registry.table| && states[i + 1].registry.table[h].finished;
    SessionHistory(limits, states, steps, i + 1, j, h);
    MapHoldsUnfinished(limits, states, steps, j, h);
  }

  lemma EvolvesReflexive(s: Session)
    ensures Evolves(s, s)
  {
  }

  // ---- Capacity and pairing ----

  lemma Capacity(limits: Limits, states: seq<State>, steps: seq<Step>, i: nat, home: string, agent: string)
    requires Run(limits, states, steps) && i < |states|
    ensures var r := states[i].registry;
            && InTable(r)
            && |r.sessions| <= limits.maxSessions
            && |OfHome(r, home)| <= limits.maxSessionsPerHome
            && |OfAgent(r, agent)| <= limits.maxSessionsPerAgent
  {
    hide M.Apply, SessionInv;
    SafeRegistry(limits, states, steps, i);
  }

  /** Every counted session has a side that reserved it or joined it. */
  lemma NoAbandonedSession(limits: Limits, states: seq<State>, steps: seq<Step>, i: nat, id: string)
    requires Run(limits, states, steps) && i < |states| && id in states[i].registry.sessions
    ensures var r := states[i].registry;
            InTable(r)
            && exists side :: var slot := SlotOf(r.table[r.sessions[id]], side); slot.reserved || slot.endpoint.Some?
  {
    hide M.Apply, L.LaneInv, WithinCapacity;
    SafeRegistry(limits, states, steps, i);
    var r := states[i].registry;
    var s := r.table[r.sessions[id]];
    SessionAt(limits, r, r.sessions[id]);
    assert SlotOf(s, Browser) == s.browser && SlotOf(s, Agent) == s.agent;
    assert s.browser.reserved || s.browser.endpoint.Some? || s.agent.reserved || s.agent.endpoint.Some?;
  }

  /** The steps that can end a session: a call of `fail` on it, or a cancel of its id and epoch. */
  predicate MayEnd(step: Step, h: nat, claim: Claim)
  {
    || (step.RunFail? && step.call.handle == h)
    || (step.DoCancel? && step.claim.sessionId == claim.sessionId && step.claim.keyEpoch == claim.keyEpoch)
  }

  lemma StepHolds(limits: Limits, st: State, step: Step, h: nat)
    requires MachineInv(limits, st) && M.Enabled(st, step) && h < |st.registry.table|
    requires !st.registry.table[h].finished && !MayEnd(step, h, st.registry.table[h].claim)
    ensures var st' := M.Apply(limits, st, step);
            h < |st'.registry.table| && !st'.registry.table[h].finished
  {
    hide RegistryInv, EffectsMatch, Watched, CallsInTable, L.Apply, L.Enabled, Reserve, Join, Pumped, CancelReservation;
    var r := st.registry;
    match step
    case DoReserve(claim, now) =>
      if Reserve(limits, r, claim, now).Accepted? {
        ReserveFrame(limits, r, claim, now);
      }
    case DoJoin(claim, endpoint, now) =>
      if Join(limits, r, claim, endpoint, now).Accepted? {
        JoinFrame(limits, r, claim, endpoint, now);
      }
    case DoCancel(claim) => CancelHolds(limits, r, claim, h);
    case Pump(k, side, move) => PumpedFrame(limits, r.table[k], side, st.clock, move);
    case _ =>
  }

  lemma CancelHolds(limits: Limits, r: Registry, claim: Claim, h: nat)
    requires RegistryInv(limits, r) && InTable(r) && h < |r.table| && !r.table[h].finished
    requires claim.sessionId != r.table[h].claim.sessionId || claim.keyEpoch != r.table[h].claim.keyEpoch
    ensures var r' := CancelReservation(r, claim);
            h < |r'.table| && !r'.table[h].finished
  {
    hide SessionInv, WithinCapacity;
  }

  /**
   * A session holds its place until a call of `fail` runs on it or someone cancels its id and
   * epoch: nothing else gives the capacity back, whatever became of the side that reserved it.
   */
  lemma {:induction false} PlaceIsHeld(limits: Limits, states: seq<State>, steps: seq<Step>, i: nat, j: nat, h: nat)
    requires Run(limits, states, steps) && i <= j < |states|
    requires h < |states[i].registry.table| && !states[i].registry.table[h].finished
    requires forall k :: i <= k < j ==> !MayEnd(steps[k], h, states[i].registry.table[h].claim)
    ensures var r := states[j].registry;
            && h < |r.table| && !r.table[h].finished
            && r.table[h].claim == states[i].registry.table[h].claim
            && r.table[h].claim.sessionId in r.sessions && r.sessions[r.table[h].claim.sessionId] == h
    decreases j - i
  {
    hide MachineInv, M.Apply, M.Enabled, MayEnd;
    SessionHistory(limits, states, steps, i, j, h);
    if i < j {
      PlaceIsHeld(limits, states, steps, i, j - 1, h);
      assert !MayEnd(steps[j - 1], h, states[i].registry.table[h].claim);
      RunIsSafe(limits, states, steps, j - 1);
      StepHolds(limits, states[j - 1], steps[j - 1], h);
    }
    MapHoldsUnfinished(limits, states, steps, j, h);
  }

  lemma TwoOfAgent(r: Registry, a: string, b: string)
    requires InTable(r) && a in r.sessions && b in r.sessions && a != b
    requires r.table[r.sessions[a]].claim.agentId == r.table[r.sessions[b]].claim.agentId
    ensures |OfAgent(r, r.table[r.sessions[a]].claim.agentId)| >= 2
  {
    SubsetSize({a, b}, OfAgent(r, r.table[r.sessions[a]].claim.agentId));
  }

  lemma OneOfAgent(r: Registry, a: string)
    requires InTable(r) && a in r.sessions
    ensures |OfAgent(r, r.table[r.sessions[a]].claim.agentId)| >= 1
  {
    SubsetSize({a}, OfAgent(r, r.table[r.sessions[a]].claim.agentId));
  }

  /**
   * What a held place costs where an agent may have one session: until a step that may end it, no
   * claim of the same agent under another id is reserved or joined, and a new id meets the limit.
   */
  lemma HeldPlaceBlocksAgent(limits: Limits, states: seq<State>, steps: seq<Step>, i: nat, j: nat, h: nat,
                             claim: Claim, endpoint: nat, now: int)
    requires Run(limits, states, steps) && i <= j < |states| && ValidLimits(limits)
    requires h < |states[i].registry.table| && !states[i].registry.table[h].finished
    requires forall k :: i <= k < j ==> !MayEnd(steps[k], h, states[i].registry.table[h].claim)
    requires claim.agentId == states[i].registry.table[h].claim.agentId
    requires claim.sessionId != states[i].registry.table[h].claim.sessionId
    ensures var r := states[j].registry;
            && InTable(r)
            && Reserve(limits, r, claim, now).Failed? && Join(limits, r, claim, endpoint, now).Failed?
            && (ValidClaim(claim, now) && claim.sessionId !in r.sessions ==>
                  && Reserve(limits, r, claim, now).error == LimitExceeded
                  && Join(limits, r, claim, endpoint, now).error == LimitExceeded)
  {
    hide M.Apply, M.Enabled, MayEnd, SessionInv, OfHome, OfAgent, ValidClaim;
    PlaceIsHeld(limits, states, steps, i, j, h);
    SafeRegistry(limits, states, steps, j);
    hide Run;
    var r := states[j].registry;
    var id := r.table[h].claim.sessionId;
    OneOfAgent(r, id);
    if claim.sessionId in r.sessions && r.table[r.sessions[claim.sessionId]].claim.agentId == claim.agentId {
      TwoOfAgent(r, id, claim.sessionId);
    }
  }

  /** Pumps run exactly when both sides have joined, and then the two claims agree in everything but the side. */
  lemma PairedClaimsAgree(limits: Limits, states: seq<State>, steps: seq<Step>, i: nat, h: nat)
    requires Run(limits, states, steps) && i < |states| && h < |states[i].registry.table|
    ensures var s := states[i].registry.table[h];
            && (s.started <==> s.browser.endpoint.Some? && s.agent.endpoint.Some?)
            && (s.started <==> !s.browser.lane.producer.Unstarted?)
            && (s.started <==> !s.agent.lane.producer.Unstarted?)
            && (s.started ==>
                  var b, a := s.browser.endpoint.value.claim, s.agent.endpoint.value.claim;
                  && b.side.Browser? && a.side.Agent? && b.sessionId == a.sessionId && b.homeId == a.homeId
                  && b.agentId == a.agentId && b.keyEpoch == a.keyEpoch && b.reconnect == a.reconnect
                  && Stored(b.hardExpiresAt) == Stored(a.hardExpiresAt)
                  && Stored(b.reconnectExpiresAt) == Stored(a.reconnectExpiresAt))
  {
    hide M.Apply, L.LaneInv, WithinCapacity;
    SafeRegistry(limits, states, steps, i);
    SessionAt(limits, states[i].registry, h);
    var s := states[i].registry.table[h];
    if s.started {
      var b, a := s.browser.endpoint.value.claim, s.agent.endpoint.value.claim;
      AgreesIsEquivalence(s.claim, b, s.claim);
      AgreesIsEquivalence(b, s.claim, a);
      TimestampEqualIffStoredEqual(b.hardExpiresAt, a.hardExpiresAt);
      TimestampEqualIffStoredEqual(b.reconnectExpiresAt, a.reconnectExpiresAt);
    }
  }

  // ---- Frames ----

  /** In each direction of each session the destination has received a prefix of what the source sent. */
  lemma FifoDelivery(limits: Limits, states: seq<State>, steps: seq<Step>, i: nat, h: nat, side: Side)
    requires Run(limits, states, steps) && i < |states| && h < |states[i].registry.table|
    ensures var l := SlotOf(states[i].registry.table[h], side).lane;
            && l.read == l.delivered + L.HeldByConsumer(l.consumer) + l.pipe.frames + L.HeldByProducer(l.producer)
            && l.delivered <= l.read
            && |L.HeldByConsumer(l.consumer)| <= 1 && |L.HeldByProducer(l.producer)| <= 1
  {
    hide M.Apply, RegistryInv;
    SafeRegistry(limits, states, steps, i);
    LaneAt(limits, states[i].registry, h, side);
  }

  lemma QueueAccounting(limits: Limits, states: seq<State>, steps: seq<Step>, i: nat, h: nat, side: Side)
    requires Run(limits, states, steps) && i < |states| && h < |states[i].registry.table|
    ensures var l := SlotOf(states[i].registry.table[h], side).lane;
            && l.pipe.queuedBytes == TotalBytes(l.pipe.frames) + L.InFlight(l.consumer)
            && (l.pipe.queuedBytes <= limits.maxQueueBytes || L.SoleOccupant(l))
            && (l.pipe.queuedBytes <= limits.maxQueueBytes || l.pipe.queuedBytes <= limits.maxFrameBytes)
            && l.counted + L.Uncounted(l.consumer) == TotalBytes(l.delivered)
  {
    hide M.Apply, RegistryInv;
    SafeRegistry(limits, states, steps, i);
    LaneAt(limits, states[i].registry, h, side);
    L.BacklogBound(limits, SlotOf(states[i].registry.table[h], side).lane);
  }

  /**
   * In every run the queue holds at most as many frames with bytes as the budget has bytes; only empty
   * frames exceed it.
   */
  lemma QueueLength(limits: Limits, states: seq<State>, steps: seq<Step>, i: nat, h: nat, side: Side)
    requires Run(limits, states, steps) && i < |states| && h < |states[i].registry.table| && limits.maxQueueBytes >= 1
    ensures var frames := SlotOf(states[i].registry.table[h], side).lane.pipe.frames;
            && L.NonEmpty(frames) <= limits.maxQueueBytes
            && (|frames| > limits.maxQueueBytes ==> [] in frames)
            && |frames| <= limits.maxQueueBytes + Empties(frames)
  {
    hide M.Apply, RegistryInv, L.Accounting, L.Fifo, L.Wakeups, L.Metered;
    var l := SlotOf(states[i].registry.table[h], side).lane;
    SafeRegistry(limits, states, steps, i);
    LaneAt(limits, states[i].registry, h, side);
    L.QueueLength(limits, l);
    EmptiesAreTheRest(l.pipe.frames);
  }

  function Empties(frames: seq<Frame>): nat
  {
    multiset(frames)[[]]
  }

  lemma {:induction false} EmptiesAreTheRest(frames: seq<Frame>)
    ensures |frames| == L.NonEmpty(frames) + Empties(frames)
  {
    if frames != [] {
      assert frames == [frames[0]] + frames[1..];
      EmptiesAreTheRest(frames[1..]);
    }
  }

  lemma NoLostWakeup(limits: Limits, states: seq<State>, steps: seq<Step>, i: nat, h: nat, side: Side)
    requires Run(limits, states, steps) && i < |states| && h < |states[i].registry.table|
    ensures L.Wakeups(limits, SlotOf(states[i].registry.table[h], side).lane)
  {
    hide M.Apply, RegistryInv, L.Accounting, L.Fifo;
    SafeRegistry(limits, states, steps, i);
    LaneAt(limits, states[i].registry, h, side);
  }

  /**
   * A parked read pump is never stranded: its session is finished or about to be failed, or the
   * write pump is inside the endpoint's write, or one of the two has a step that waits only for a lock.
   */
  lemma ParkedPumpIsServed(limits: Limits, states: seq<State>, steps: seq<Step>, i: nat, h: nat, side: Side)
    requires Run(limits, states, steps) && i < |states| && h < |states[i].registry.table|
    requires SlotOf(states[i].registry.table[h], side).lane.producer.Parked?
    ensures var st := states[i];
            || st.registry.table[h].finished
            || HasCall(st.calls, h)
            || SlotOf(st.registry.table[h], side).lane.consumer.Writing?
            || exists m :: L.OwnMove(m) && L.Enabled(SlotOf(st.registry.table[h], side).lane, false, m)
  {
    hide M.Apply, RegistryInv, L.LaneInv, EffectsMatch;
    SafeRegistry(limits, states, steps, i);
    LaneAt(limits, states[i].registry, h, side);
    assert LaneWatched(states[i], h, side);
    if !SlotOf(states[i].registry.table[h], side).lane.consumer.Ended? {
      L.ParkedIsServed(limits, SlotOf(states[i].registry.table[h], side).lane, false);
    }
  }

  /**
   * In every run, each side gets at most twice the limit through within any half-open second; the
   * limiter's history is that of the frames read, in order; and what was handed on, queued, in
   * flight or delivered, was let through, so its bytes are bounded the same way.
   */
  lemma RateBound(limits: Limits, states: seq<State>, steps: seq<Step>, i: nat, h: nat, side: Side, from: int)
    requires Run(limits, states, steps) && i < |states| && h < |states[i].registry.table|
    ensures InSecond(limits.maxBytesPerSecond, SlotOf(states[i].registry.table[h], side).lane.arrivals, from)
         <= 2 * limits.maxBytesPerSecond
    ensures L.Metered(SlotOf(states[i].registry.table[h], side).lane)
    ensures var l := SlotOf(states[i].registry.table[h], side).lane;
            && |L.Past(l)| <= |l.arrivals| && SizesIn(l.arrivals, |L.Past(l)|, from) <= 2 * limits.maxBytesPerSecond
            && forall k :: 0 <= k < |L.Past(l)| ==> l.arrivals[k].size == |L.Past(l)[k]|
  {
    hide M.Apply, RegistryInv, EffectsMatch, L.Accounting, L.Wakeups, L.Past, L.Fifo, L.Metered, L.Admitted;
    SafeRegistry(limits, states, steps, i);
    assert LaneWatched(states[i], h, side);
    LaneAt(limits, states[i].registry, h, side);
    AnySecondAtMostTwice(limits.maxBytesPerSecond, SlotOf(states[i].registry.table[h], side).lane.arrivals, from);
    L.PastRate(limits, SlotOf(states[i].registry.table[h], side).lane, from);
  }
}
