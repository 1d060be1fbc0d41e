/**
 * The relay's session table: what each critical section under `relay.mu` does to it.
 * A session object is an entry of `table`, its index the handle other goroutines keep.
 */
module RelayRegistry {
  import opened Common
  import opened RelayTypes
  import opened RelayLane

  datatype Joined = Joined(endpoint: nat, claim: Claim)

  /** One side of a session; `lane` carries the frames this side sends. */
  datatype Slot = Slot(endpoint: Option<Joined>, reserved: bool, lane: Lane)

  datatype Session = Session(
    claim: Claim,
    browser: Slot,
    agent: Slot,
    started: bool,
    finished: bool,
    err: Option<Reason>,
    doneCloses: nat,
    reported: (nat, nat))

  function SlotOf(s: Session, side: Side): Slot
  {
    if side.Browser? then s.browser else s.agent
  }

  function WithSlot(s: Session, side: Side, slot: Slot): Session
  {
    if side.Browser? then s.(browser := slot) else s.(agent := slot)
  }

  const FREE_SLOT := Slot(None, false, IDLE_LANE)

  function NewSession(claim: Claim): Session
  {
    Session(claim, FREE_SLOT, FREE_SLOT, false, false, None, 0, (0, 0))
  }

  datatype Registry = Registry(table: seq<Session>, sessions: map<string, nat>)

  datatype Error = DuplicateSide | LimitExceeded | ClaimMismatch

  predicate InTable(r: Registry)
  {
    forall id <- r.sessions :: r.sessions[id] < |r.table|
  }

  function OfHome(r: Registry, homeId: string): set<string>
    requires InTable(r)
  {
    set id <- r.sessions | r.table[r.sessions[id]].claim.homeId == homeId
  }

  function OfAgent(r: Registry, agentId: string): set<string>
    requires InTable(r)
  {
    set id <- r.sessions | r.table[r.sessions[id]].claim.agentId == agentId
  }

  predicate Full(limits: Limits, r: Registry, claim: Claim)
    requires InTable(r)
  {
    || |r.sessions| >= limits.maxSessions
    || |OfHome(r, claim.homeId)| >= limits.maxSessionsPerHome
    || |OfAgent(r, claim.agentId)| >= limits.maxSessionsPerAgent
  }

  function Insert(r: Registry, s: Session): (r': Registry)
    ensures InTable(r) ==> InTable(r')
  {
    Registry(r.table + [s], r.sessions[s.claim.sessionId := |r.table|])
  }

  /** The session a claim leads to, made if need be. */
  datatype Lookup = Refused(error: Error) | Granted(registry: Registry, handle: nat)

  function SessionForJoin(limits: Limits, r: Registry, claim: Claim): Lookup
    requires InTable(r)
  {
    if claim.sessionId !in r.sessions then
      if Full(limits, r, claim) then Refused(LimitExceeded)
      else Granted(Insert(r, NewSession(claim)), |r.table|)
    else if !Agrees(r.table[r.sessions[claim.sessionId]].claim, claim) then Refused(ClaimMismatch)
    else Granted(r, r.sessions[claim.sessionId])
  }

  function Put(r: Registry, h: nat, s: Session): Registry
    requires h < |r.table|
  {
    r.(table := r.table[h := s])
  }

  datatype Verdict = Failed(error: Error) | Accepted(registry: Registry, handle: nat, paired: bool)

  function Reserve(limits: Limits, r: Registry, claim: Claim, now: int): Verdict
    requires InTable(r)
  {
    if !ValidClaim(claim, now) then Failed(ClaimMismatch)
    else match SessionForJoin(limits, r, claim)
      case Refused(e) => Failed(e)
      case Granted(r', h) =>
        var slot := SlotOf(r'.table[h], claim.side);
        if slot.endpoint.Some? then Failed(DuplicateSide)
        else Accepted(Put(r', h, WithSlot(r'.table[h], claim.side, slot.(reserved := true))), h, false)
  }

  /** The pumps of both directions start when the second side arrives. */
  function Pair(s: Session): Session
  {
    s.(started := true,
       browser := s.browser.(lane := Start(s.browser.lane)),
       agent := s.agent.(lane := Start(s.agent.lane)))
  }

  predicate ReadyToPair(s: Session)
  {
    s.browser.endpoint.Some? && s.agent.endpoint.Some? && !s.started
  }

  function Attach(s: Session, claim: Claim, endpoint: nat): Session
  {
    WithSlot(s, claim.side, SlotOf(s, claim.side).(reserved := false, endpoint := Some(Joined(endpoint, claim))))
  }

  function Join(limits: Limits, r: Registry, claim: Claim, endpoint: nat, now: int): Verdict
    requires InTable(r)
  {
    if !ValidClaim(claim, now) then Failed(ClaimMismatch)
    else match SessionForJoin(limits, r, claim)
      case Refused(e) => Failed(e)
      case Granted(r', h) =>
        var s := r'.table[h];
        var slot := SlotOf(s, claim.side);
        if slot.endpoint.Some? || (!slot.reserved && s.started) then Failed(DuplicateSide)
        else
          var joined := Attach(s, claim, endpoint);
          var paired := ReadyToPair(joined);
          Accepted(Put(r', h, if paired then Pair(joined) else joined), h, paired)
  }

  /** The registry a call leaves behind; a refused call changes nothing. */
  function Outcome(v: Verdict, r: Registry): Registry
  {
    if v.Accepted? then v.registry else r
  }

  predicate Abandoned(s: Session)
  {
    && s.browser.endpoint.None? && s.agent.endpoint.None?
    && !s.browser.reserved && !s.agent.reserved
    && !s.started && !s.finished
  }

  function CancelReservation(r: Registry, claim: Claim): Registry
    requires InTable(r)
  {
    if claim.sessionId !in r.sessions then r
    else
      var h := r.sessions[claim.sessionId];
      var s := r.table[h];
      if s.claim.keyEpoch != claim.keyEpoch then r
      else
        var s' := WithSlot(s, claim.side, SlotOf(s, claim.side).(reserved := false));
        if Abandoned(s') then
          Registry(r.table[h := s'.(finished := true, doneCloses := s'.doneCloses + 1)], r.sessions - {claim.sessionId})
        else Put(r, h, s')
  }

  function Finish(s: Session, reason: Reason): Session
  {
    s.(finished := true, err := Some(reason), doneCloses := s.doneCloses + 1,
       reported := (s.browser.lane.counted, s.agent.lane.counted))
  }

  /** `fail`: deletes by session id, so only the invariant keeps it from removing another session. */
  function Fail(r: Registry, h: nat, reason: Reason): Registry
    requires h < |r.table|
  {
    var s := r.table[h];
    if s.finished then r
    else Registry(r.table[h := Finish(s, reason)], r.sessions - {s.claim.sessionId})
  }

  // ---- Invariants ----

  /** The map holds exactly the unfinished sessions, each under its own id. */
  ghost predicate Registered(r: Registry)
  {
    && InTable(r)
    && (forall id <- r.sessions :: r.table[r.sessions[id]].claim.sessionId == id && !r.table[r.sessions[id]].finished)
    && (forall h :: 0 <= h < |r.table| && !r.table[h].finished ==>
          r.table[h].claim.sessionId in r.sessions && r.sessions[r.table[h].claim.sessionId] == h)
  }

  ghost predicate WithinCapacity(limits: Limits, r: Registry)
    requires InTable(r)
  {
    && |r.sessions| <= limits.maxSessions
    && (forall home: string :: |OfHome(r, home)| <= limits.maxSessionsPerHome)
    && (forall agent: string :: |OfAgent(r, agent)| <= limits.maxSessionsPerAgent)
  }

  ghost predicate SlotInv(limits: Limits, s: Session, side: Side)
  {
    var slot := SlotOf(s, side);
    && LaneInv(limits, slot.lane)
    && (slot.lane.producer.Unstarted? <==> !s.started)
    && (slot.endpoint.Some? ==>
          && !slot.reserved
          && slot.endpoint.value.claim.side == side
          && slot.endpoint.value.claim.sessionId == s.claim.sessionId
          && Agrees(s.claim, slot.endpoint.value.claim))
  }

  ghost predicate SessionInv(limits: Limits, s: Session)
  {
    && SlotInv(limits, s, Browser)
    && SlotInv(limits, s, Agent)
    && (s.started <==> s.browser.endpoint.Some? && s.agent.endpoint.Some?)
    && s.doneCloses == (if s.finished then 1 else 0)
    && (s.err.Some? ==> s.finished)
    && (s.finished && (s.browser.endpoint.Some? || s.agent.endpoint.Some?) ==> s.err.Some?)
    && (!s.finished ==> !Abandoned(s))
    && s.reported.0 <= s.browser.lane.counted
    && s.reported.1 <= s.agent.lane.counted
  }

  ghost predicate RegistryInv(limits: Limits, r: Registry)
  {
    && Registered(r)
    && WithinCapacity(limits, r)
    && forall h :: 0 <= h < |r.table| ==> SessionInv(limits, r.table[h])
  }

  lemma InvInTable(limits: Limits, r: Registry)
    requires RegistryInv(limits, r)
    ensures InTable(r)
  {
  }

  // ---- Capacity ----

  /** Removing an entry or changing anything but the claims keeps every count within its limit. */
  lemma CapacityAfterShrink(limits: Limits, r: Registry, r': Registry)
    requires InTable(r) && InTable(r') && WithinCapacity(limits, r)
    requires forall id <- r'.sessions :: id in r.sessions
    requires forall id <- r'.sessions ::
               r'.table[r'.sessions[id]].claim == r.table[r.sessions[id]].claim
    ensures WithinCapacity(limits, r')
  {
    SubsetSize(r'.sessions.Keys, r.sessions.Keys);
    forall home: string ensures |OfHome(r', home)| <= limits.maxSessionsPerHome {
      SubsetSize(OfHome(r', home), OfHome(r, home));
    }
    forall agent: string ensures |OfAgent(r', agent)| <= limits.maxSessionsPerAgent {
      SubsetSize(OfAgent(r', agent), OfAgent(r, agent));
    }
  }

  lemma {:induction false} SubsetSize<T>(a: set<T>, b: set<T>)
    requires a <= b
    ensures |a| <= |b|
  {
    if a != {} {
      var x :| x in a;
      SubsetSize(a - {x}, b - {x});
    }
  }

  lemma OfHomeAfterInsert(r: Registry, s: Session, home: string)
    requires InTable(r) && s.claim.sessionId !in r.sessions
    ensures OfHome(Insert(r, s), home)
         == OfHome(r, home) + (if home == s.claim.homeId then {s.claim.sessionId} else {})
  {
    var r' := Insert(r, s);
    forall id | id in r.sessions
      ensures r'.table[r'.sessions[id]].claim.homeId == r.table[r.sessions[id]].claim.homeId
    {
      assert r'.sessions[id] == r.sessions[id] < |r.table|;
    }
  }

  lemma OfAgentAfterInsert(r: Registry, s: Session, agent: string)
    requires InTable(r) && s.claim.sessionId !in r.sessions
    ensures OfAgent(Insert(r, s), agent)
         == OfAgent(r, agent) + (if agent == s.claim.agentId then {s.claim.sessionId} else {})
  {
    var r' := Insert(r, s);
    forall id | id in r.sessions
      ensures r'.table[r'.sessions[id]].claim.agentId == r.table[r.sessions[id]].claim.agentId
    {
      assert r'.sessions[id] == r.sessions[id] < |r.table|;
    }
  }

  lemma CapacityAfterInsert(limits: Limits, r: Registry, s: Session)
    requires InTable(r) && WithinCapacity(limits, r)
    requires s.claim.sessionId !in r.sessions && !Full(limits, r, s.claim)
    ensures WithinCapacity(limits, Insert(r, s))
  {
    var r' := Insert(r, s);
    assert r'.sessions.Keys == r.sessions.Keys + {s.claim.sessionId};
    hide OfHome, OfAgent, Insert;
    forall home: string ensures |OfHome(r', home)| <= limits.maxSessionsPerHome {
      OfHomeAfterInsert(r, s, home);
    }
    forall agent: string ensures |OfAgent(r', agent)| <= limits.maxSessionsPerAgent {
      OfAgentAfterInsert(r, s, agent);
    }
  }

  // ---- Each critical section keeps the invariant ----

  lemma PutKeeps(limits: Limits, r: Registry, h: nat, s: Session)
    requires RegistryInv(limits, r) && h < |r.table|
    requires SessionInv(limits, s) && s.claim == r.table[h].claim && s.finished == r.table[h].finished
    ensures RegistryInv(limits, Put(r, h, s))
  {
    hide SessionInv, WithinCapacity;
    var r' := Put(r, h, s);
    assert forall id <- r'.sessions :: r'.table[r'.sessions[id]].claim == r.table[r.sessions[id]].claim;
    CapacityAfterShrink(limits, r, r');
  }

  function Removed(r: Registry, h: nat, s: Session): Registry
    requires h < |r.table|
  {
    Registry(r.table[h := s], r.sessions - {s.claim.sessionId})
  }

  lemma RemovedRegistered(r: Registry, h: nat, s: Session)
    requires Registered(r) && h < |r.table| && !r.table[h].finished
    requires s.claim == r.table[h].claim && s.finished
    ensures InTable(r) && Registered(Removed(r, h, s)) && InTable(Removed(r, h, s))
    ensures forall id <- Removed(r, h, s).sessions :: id in r.sessions && r.sessions[id] != h
  {
    var r' := Removed(r, h, s);
    forall id | id in r'.sessions ensures r.sessions[id] != h {
      assert r.table[r.sessions[id]].claim.sessionId == id;
    }
    forall k | 0 <= k < |r'.table| && !r'.table[k].finished
      ensures r'.table[k].claim.sessionId in r'.sessions && r'.sessions[r'.table[k].claim.sessionId] == k
    {
      var same := r'.table[k];
      assert k < |r.table| && same == r.table[k];
    }
  }

  /** Ending an unfinished session removes exactly its own entry. */
  lemma RemoveKeeps(limits: Limits, r: Registry, h: nat, s: Session)
    requires RegistryInv(limits, r) && h < |r.table| && !r.table[h].finished
    requires SessionInv(limits, s) && s.claim == r.table[h].claim && s.finished
    ensures RegistryInv(limits, Removed(r, h, s))
  {
    hide SessionInv, WithinCapacity, Registered;
    RemovedRegistered(r, h, s);
    CapacityAfterShrink(limits, r, Removed(r, h, s));
  }

  /** A new session enters the table and the map together. */
  lemma InsertKeeps(limits: Limits, r: Registry, s: Session)
    requires RegistryInv(limits, r) && SessionInv(limits, s) && !s.finished
    requires s.claim.sessionId !in r.sessions && !Full(limits, r, s.claim)
    ensures RegistryInv(limits, Insert(r, s))
  {
    hide SessionInv, WithinCapacity;
    CapacityAfterInsert(limits, r, s);
  }

  /** What the session reached by `SessionForJoin` looks like. */
  ghost predicate Reached(limits: Limits, r: Registry, claim: Claim, s: Session)
  {
    && !s.finished
    && s.claim.sessionId == claim.sessionId
    && Agrees(s.claim, claim)
    && (claim.sessionId !in r.sessions ==> s == NewSession(claim))
    && (claim.sessionId in r.sessions ==> SessionInv(limits, s))
  }

  /** The table after `SessionForJoin` granted a session and the caller replaced it by s. */
  lemma LookupThenPut(limits: Limits, r: Registry, claim: Claim, s: Session)
    requires RegistryInv(limits, r) && SessionForJoin(limits, r, claim).Granted?
    ensures var l := SessionForJoin(limits, r, claim);
            l.handle < |l.registry.table| && Reached(limits, r, claim, l.registry.table[l.handle])
    ensures var l := SessionForJoin(limits, r, claim);
            SessionInv(limits, s) && s.claim == l.registry.table[l.handle].claim && !s.finished
            ==> RegistryInv(limits, Put(l.registry, l.handle, s))
  {
    hide SessionInv, WithinCapacity, Full;
    var l := SessionForJoin(limits, r, claim);
    AgreesIsEquivalence(claim, claim, claim);
    if SessionInv(limits, s) && s.claim == l.registry.table[l.handle].claim && !s.finished {
      if claim.sessionId in r.sessions {
        PutKeeps(limits, r, l.handle, s);
      } else {
        InsertKeeps(limits, r, s);
        assert (r.table + [NewSession(claim)])[|r.table| := s] == r.table + [s];
      }
    }
  }

  /** A session just made has no endpoint and has not started, so only an old one can be refused. */
  lemma LookupOfJoined(limits: Limits, r: Registry, claim: Claim)
    requires InTable(r)
    ensures var l := SessionForJoin(limits, r, claim);
            l.Granted? ==>
              && l.handle < |l.registry.table|
              && (SlotOf(l.registry.table[l.handle], claim.side).endpoint.Some? || l.registry.table[l.handle].started
                  ==> l.registry == r)
  {
  }

  lemma NewSessionSlots(limits: Limits, claim: Claim)
    ensures SlotInv(limits, NewSession(claim), Browser)
    ensures SlotInv(limits, NewSession(claim), Agent)
  {
    hide LaneInv;
    IdleLaneInv(limits);
  }

  // ---- The session each critical section leaves behind ----

  lemma ReservedSession(limits: Limits, r: Registry, claim: Claim, s: Session)
    requires Reached(limits, r, claim, s) && SlotOf(s, claim.side).endpoint.None?
    ensures SessionInv(limits, WithSlot(s, claim.side, SlotOf(s, claim.side).(reserved := true)))
  {
    hide LaneInv;
    NewSessionSlots(limits, claim);
  }

  lemma JoinedSession(limits: Limits, r: Registry, claim: Claim, endpoint: nat, s: Session)
    requires Reached(limits, r, claim, s) && SlotOf(s, claim.side).endpoint.None?
    ensures var j := Attach(s, claim, endpoint);
            var s' := if ReadyToPair(j) then Pair(j) else j;
            SessionInv(limits, s') && s'.claim == s.claim && s'.finished == s.finished
  {
    hide LaneInv;
    NewSessionSlots(limits, claim);
    if ReadyToPair(Attach(s, claim, endpoint)) {
      StartStep(limits, s.browser.lane);
      StartStep(limits, s.agent.lane);
    }
  }

  lemma FinishedSession(limits: Limits, s: Session, reason: Reason)
    requires SessionInv(limits, s) && !s.finished
    ensures SessionInv(limits, Finish(s, reason))
  {
    hide LaneInv;
  }

  lemma ReserveKeeps(limits: Limits, r: Registry, claim: Claim, now: int)
    requires RegistryInv(limits, r)
    ensures var v := Reserve(limits, r, claim, now);
            v.Accepted? ==> RegistryInv(limits, v.registry)
  {
    hide SessionInv, RegistryInv, Agrees, Full, Insert, ValidClaim, Pair, Attach, ReadyToPair;
    InvInTable(limits, r);
    var v := Reserve(limits, r, claim, now);
    if v.Accepted? {
      var l := SessionForJoin(limits, r, claim);
      LookupOfJoined(limits, r, claim);
      LookupThenPut(limits, r, claim, v.registry.table[v.handle]);
      ReservedSession(limits, r, claim, l.registry.table[l.handle]);
    }
  }

  lemma JoinKeeps(limits: Limits, r: Registry, claim: Claim, endpoint: nat, now: int)
    requires RegistryInv(limits, r)
    ensures var v := Join(limits, r, claim, endpoint, now);
            v.Accepted? ==> RegistryInv(limits, v.registry)
  {
    hide SessionInv, RegistryInv, Agrees, Full, Insert, ValidClaim, Pair, Attach, ReadyToPair;
    InvInTable(limits, r);
    var v := Join(limits, r, claim, endpoint, now);
    if v.Accepted? {
      var l := SessionForJoin(limits, r, claim);
      LookupOfJoined(limits, r, claim);
      LookupThenPut(limits, r, claim, v.registry.table[v.handle]);
      JoinedSession(limits, r, claim, endpoint, l.registry.table[l.handle]);
    }
  }

  lemma CancelKeeps(limits: Limits, r: Registry, claim: Claim)
    requires RegistryInv(limits, r)
    ensures RegistryInv(limits, CancelReservation(r, claim))
  {
    hide LaneInv, WithinCapacity;
    if claim.sessionId in r.sessions {
      var h := r.sessions[claim.sessionId];
      var s := r.table[h];
      var s' := WithSlot(s, claim.side, SlotOf(s, claim.side).(reserved := false));
      if s.claim.keyEpoch == claim.keyEpoch {
        if Abandoned(s') {
          RemoveKeeps(limits, r, h, s'.(finished := true, doneCloses := s'.doneCloses + 1));
        } else {
          PutKeeps(limits, r, h, s');
        }
      }
    }
  }

  lemma FailKeeps(limits: Limits, r: Registry, h: nat, reason: Reason)
    requires RegistryInv(limits, r) && h < |r.table|
    ensures RegistryInv(limits, Fail(r, h, reason))
  {
    hide SessionInv, WithinCapacity;
    if !r.table[h].finished {
      FinishedSession(limits, r.table[h], reason);
      RemoveKeeps(limits, r, h, Finish(r.table[h], reason));
    }
  }

  /** A call of `fail` never takes any other session out of the map, in particular no successor. */
  lemma FailSparesOthers(limits: Limits, r: Registry, h: nat, reason: Reason, id: string)
    requires RegistryInv(limits, r) && h < |r.table|
    requires id in r.sessions && r.sessions[id] != h
    ensures var r' := Fail(r, h, reason);
            id in r'.sessions && r'.sessions[id] == r.sessions[id]
            && r'.table[r.sessions[id]] == r.table[r.sessions[id]]
  {
    hide SessionInv, WithinCapacity;
  }

  // ---- When a side is let in, and why it is not ----

  /** There is room for one more session of the claim's home and agent. */
  predicate Room(limits: Limits, r: Registry, claim: Claim)
    requires InTable(r)
  {
    && |r.sessions| < limits.maxSessions
    && |OfHome(r, claim.homeId)| < limits.maxSessionsPerHome
    && |OfAgent(r, claim.agentId)| < limits.maxSessionsPerAgent
  }

  /** The session under the claim's id, if any, agrees with the claim and has nobody on its side. */
  predicate SideIsFree(r: Registry, claim: Claim)
    requires InTable(r)
  {
    claim.sessionId in r.sessions ==>
      var s := r.table[r.sessions[claim.sessionId]];
      Agrees(s.claim, claim) && SlotOf(s, claim.side).endpoint.None?
  }

  /** The error of a refused call, in the order in which the reasons are looked at. */
  ghost predicate RightError(limits: Limits, r: Registry, claim: Claim, now: int, error: Error)
    requires InTable(r)
  {
    if !ValidClaim(claim, now) then error == ClaimMismatch
    else if claim.sessionId !in r.sessions then error == LimitExceeded && !Room(limits, r, claim)
    else if !Agrees(r.table[r.sessions[claim.sessionId]].claim, claim) then error == ClaimMismatch
    else error == DuplicateSide && SlotOf(r.table[r.sessions[claim.sessionId]], claim.side).endpoint.Some?
  }

  lemma LookupExactly(limits: Limits, r: Registry, claim: Claim)
    requires InTable(r)
    ensures var l := SessionForJoin(limits, r, claim);
            if claim.sessionId !in r.sessions then
              (if Room(limits, r, claim) then l == Granted(Insert(r, NewSession(claim)), |r.table|)
               else l == Refused(LimitExceeded))
            else if Agrees(r.table[r.sessions[claim.sessionId]].claim, claim) then
              l == Granted(r, r.sessions[claim.sessionId])
            else l == Refused(ClaimMismatch)
  {
  }

  /**
   * A reservation is accepted if and only if the claim is valid and, under its id, there is a session that
   * agrees and has nobody on that side, or there is none and there is room. A side that is reserved
   * already is accepted again, and then nothing changes.
   */
  lemma ReserveExactly(limits: Limits, r: Registry, claim: Claim, now: int)
    requires RegistryInv(limits, r)
    ensures InTable(r)
    ensures var v := Reserve(limits, r, claim, now);
            && (v.Accepted? <==> ValidClaim(claim, now) && SideIsFree(r, claim)
                                 && (claim.sessionId !in r.sessions ==> Room(limits, r, claim)))
            && (v.Failed? ==> RightError(limits, r, claim, now, v.error))
            && (v.Accepted? && ReservedAlready(r, claim) ==> v == Accepted(r, r.sessions[claim.sessionId], false))
  {
    hide Agrees, ValidClaim, Room, RegistryInv, SessionForJoin, Insert;
    InvInTable(limits, r);
    LookupExactly(limits, r, claim);
    if claim.sessionId in r.sessions {
      var h := r.sessions[claim.sessionId];
      var s := r.table[h];
      assert SlotOf(s, claim.side).reserved ==>
               WithSlot(s, claim.side, SlotOf(s, claim.side).(reserved := true)) == s && r.table[h := s] == r.table;
    } else {
      NewestIsFree(r, claim);
    }
  }

  predicate ReservedAlready(r: Registry, claim: Claim)
    requires InTable(r)
  {
    claim.sessionId in r.sessions && SlotOf(r.table[r.sessions[claim.sessionId]], claim.side).reserved
  }

  lemma NewestIsFree(r: Registry, claim: Claim)
    ensures var r' := Insert(r, NewSession(claim));
            |r.table| < |r'.table| && r'.table[|r.table|] == NewSession(claim)
            && SlotOf(NewSession(claim), claim.side).endpoint.None?
  {
  }

  /** A join is accepted under the same condition: with its side free, an existing session cannot have started. */
  lemma JoinExactly(limits: Limits, r: Registry, claim: Claim, endpoint: nat, now: int)
    requires RegistryInv(limits, r)
    ensures InTable(r)
    ensures var v := Join(limits, r, claim, endpoint, now);
            && (v.Accepted? <==> ValidClaim(claim, now) && SideIsFree(r, claim)
                                 && (claim.sessionId !in r.sessions ==> Room(limits, r, claim)))
            && (v.Failed? ==> RightError(limits, r, claim, now, v.error))
  {
    hide Agrees, ValidClaim, Room, RegistryInv, SessionForJoin, Insert, Attach, Pair, ReadyToPair;
    InvInTable(limits, r);
    if claim.sessionId in r.sessions {
      NotStarted(limits, r, claim);
    }
    LookupExactly(limits, r, claim);
    NewestIsFree(r, claim);
  }

  lemma NotStarted(limits: Limits, r: Registry, claim: Claim)
    requires RegistryInv(limits, r) && claim.sessionId in r.sessions && r.sessions[claim.sessionId] < |r.table|
    ensures var s := r.table[r.sessions[claim.sessionId]];
            SlotOf(s, claim.side).endpoint.None? ==> !s.started
  {
    hide LaneInv, WithinCapacity;
    assert SessionInv(limits, r.table[r.sessions[claim.sessionId]]);
  }

  // ---- What else each critical section leaves alone ----

  /** The registry changed only at h, where a session may have been made first. */
  ghost predicate OnlyAt(r: Registry, r': Registry, h: nat)
  {
    && |r'.table| == (if h == |r.table| then h + 1 else |r.table|)
    && h < |r'.table|
    && forall k :: 0 <= k < |r.table| && k != h ==> r'.table[k] == r.table[k]
  }

  function Before(r: Registry, h: nat, claim: Claim): Session
  {
    if h < |r.table| then r.table[h] else NewSession(claim)
  }

  lemma LookupFrame(limits: Limits, r: Registry, claim: Claim)
    requires InTable(r) && SessionForJoin(limits, r, claim).Granted?
    ensures var l := SessionForJoin(limits, r, claim);
            OnlyAt(r, l.registry, l.handle) && l.registry.table[l.handle] == Before(r, l.handle, claim)
  {
  }

  lemma PutFrame(r: Registry, r': Registry, h: nat, s: Session)
    requires OnlyAt(r, r', h)
    ensures OnlyAt(r, Put(r', h, s), h) && Put(r', h, s).table[h] == s
  {
  }

  lemma LookupUnfinished(limits: Limits, r: Registry, claim: Claim)
    requires RegistryInv(limits, r) && InTable(r) && SessionForJoin(limits, r, claim).Granted?
    ensures var l := SessionForJoin(limits, r, claim);
            l.handle < |l.registry.table| && !l.registry.table[l.handle].finished
  {
    hide SessionInv, WithinCapacity, Full;
  }

  lemma ReserveFrame(limits: Limits, r: Registry, claim: Claim, now: int)
    requires RegistryInv(limits, r) && InTable(r) && Reserve(limits, r, claim, now).Accepted?
    ensures var v := Reserve(limits, r, claim, now);
            var b := Before(r, v.handle, claim);
            && OnlyAt(r, v.registry, v.handle)
            && !b.finished
            && v.registry.table[v.handle] == WithSlot(b, claim.side, SlotOf(b, claim.side).(reserved := true))
  {
    hide RegistryInv, ValidClaim, SessionForJoin, OnlyAt;
    var l := SessionForJoin(limits, r, claim);
    LookupUnfinished(limits, r, claim);
    LookupFrame(limits, r, claim);
    PutFrame(r, l.registry, l.handle, Reserve(limits, r, claim, now).registry.table[l.handle]);
  }

  lemma JoinFrame(limits: Limits, r: Registry, claim: Claim, endpoint: nat, now: int)
    requires RegistryInv(limits, r) && InTable(r) && Join(limits, r, claim, endpoint, now).Accepted?
    ensures var v := Join(limits, r, claim, endpoint, now);
            var b := Before(r, v.handle, claim);
            var j := Attach(b, claim, endpoint);
            && OnlyAt(r, v.registry, v.handle)
            && !b.finished
            && SlotOf(b, claim.side).endpoint.None?
            && v.paired == ReadyToPair(j)
            && v.registry.table[v.handle] == if v.paired then Pair(j) else j
  {
    hide RegistryInv, ValidClaim, SessionForJoin, OnlyAt, Attach, Pair, ReadyToPair;
    var l := SessionForJoin(limits, r, claim);
    LookupUnfinished(limits, r, claim);
    LookupFrame(limits, r, claim);
    PutFrame(r, l.registry, l.handle, Join(limits, r, claim, endpoint, now).registry.table[l.handle]);
  }

  lemma RegisteredIsOpen(limits: Limits, r: Registry, id: string)
    requires RegistryInv(limits, r) && id in r.sessions
    ensures r.sessions[id] < |r.table|
    ensures !r.table[r.sessions[id]].finished && r.table[r.sessions[id]].err.None?
  {
    hide LaneInv, WithinCapacity;
  }

  /** Cancelling touches one session, and there only the reservation and, if nobody is left, its end. */
  lemma CancelFrame(r: Registry, claim: Claim)
    requires InTable(r) && claim.sessionId in r.sessions
    ensures var h := r.sessions[claim.sessionId];
            var r' := CancelReservation(r, claim);
            && OnlyAt(r, r', h)
            && (var s, s' := r.table[h], r'.table[h];
                && s'.started == s.started && s'.err == s.err && s'.reported == s.reported
                && s'.browser.endpoint == s.browser.endpoint && s'.browser.lane == s.browser.lane
                && s'.agent.endpoint == s.agent.endpoint && s'.agent.lane == s.agent.lane
                && (s'.finished && !s.finished ==> s'.browser.endpoint.None? && s'.agent.endpoint.None?))
  {
  }

  /** A cancel of another epoch does nothing; one of this epoch frees its side and ends a session nobody holds. */
  lemma CancelExactly(limits: Limits, r: Registry, claim: Claim)
    requires RegistryInv(limits, r) && InTable(r) && claim.sessionId in r.sessions
    ensures var h := r.sessions[claim.sessionId];
            var r' := CancelReservation(r, claim);
            var other := if claim.side.Browser? then Agent else Browser;
            && h < |r'.table|
            && (var s, s' := r.table[h], r'.table[h];
                && (s.claim.keyEpoch != claim.keyEpoch ==> r' == r)
                && (s.claim.keyEpoch == claim.keyEpoch ==> !SlotOf(s', claim.side).reserved)
                && SlotOf(s', other) == SlotOf(s, other)
                && (s'.finished <==>
                      && s.claim.keyEpoch == claim.keyEpoch
                      && SlotOf(s, claim.side).endpoint.None?
                      && SlotOf(s, other).endpoint.None? && !SlotOf(s, other).reserved)
                && r'.sessions == if s'.finished then r.sessions - {claim.sessionId} else r.sessions)
  {
    hide LaneInv, WithinCapacity;
    RegisteredIsOpen(limits, r, claim.sessionId);
    assert SessionInv(limits, r.table[r.sessions[claim.sessionId]]);
  }

  lemma CancelAbsent(r: Registry, claim: Claim)
    requires InTable(r) && claim.sessionId !in r.sessions
    ensures CancelReservation(r, claim) == r
  {
  }

  lemma FailFrame(limits: Limits, r: Registry, h: nat, reason: Reason)
    requires RegistryInv(limits, r) && h < |r.table|
    ensures OnlyAt(r, Fail(r, h, reason), h)
    ensures !r.table[h].finished ==> r.table[h].err.None?
  {
    hide LaneInv, WithinCapacity;
  }
}
