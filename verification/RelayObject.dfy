/** The relay as the mutable object it is: every method body runs under `relay.mu`. */
module RelayObject {
  import opened Common
  import opened RelayTypes
  import R = RelayRegistry
  import L = RelayLane

  class InProcessRelay {
    const limits: Limits
    var table: seq<R.Session>
    var sessions: map<string, nat>

    function State(): R.Registry
      reads this
    {
      R.Registry(table, sessions)
    }

    ghost predicate Valid()
      reads this
    {
      R.RegistryInv(limits, State())
    }

    constructor (limits: Limits)
      requires ValidLimits(limits)
      ensures Valid() && this.limits == limits && State() == R.Registry([], map[])
    {
      this.limits := limits;
      table, sessions := [], map[];
      new;
      assert forall home: string :: R.OfHome(State(), home) == {};
      assert forall agent: string :: R.OfAgent(State(), agent) == {};
    }

    /** The loop over the map that counts the sessions of one home and of one agent. */
    method CountSessions(homeId: string, agentId: string) returns (home: nat, agent: nat)
      requires R.InTable(State())
      ensures home == |R.OfHome(State(), homeId)|
      ensures agent == |R.OfAgent(State(), agentId)|
    {
      home, agent := 0, 0;
      var left := sessions.Keys;
      ghost var ofHome, ofAgent := R.OfHome(State(), homeId), R.OfAgent(State(), agentId);
      assert ofHome - left == {} && ofAgent - left == {};
      while left != {}
        invariant left <= sessions.Keys
        invariant home == |ofHome - left| && agent == |ofAgent - left|
        decreases left
      {
        var id :| id in left;
        var existing := table[sessions[id]];
        OneMore(ofHome, left, id);
        OneMore(ofAgent, left, id);
        if existing.claim.homeId == homeId {
          home := home + 1;
        }
        if existing.claim.agentId == agentId {
          agent := agent + 1;
        }
        left := left - {id};
      }
      assert ofHome - left == ofHome && ofAgent - left == ofAgent;
    }

    method SessionForJoin(claim: Claim) returns (error: Option<R.Error>, handle: nat)
      requires R.InTable(State())
      modifies this
      ensures R.InTable(State())
      ensures match R.SessionForJoin(limits, old(State()), claim)
              case Refused(e) => error == Some(e) && State() == old(State())
              case Granted(r, h) => error == None && State() == r && handle == h
    {
      handle := 0;
      if claim.sessionId !in sessions {
        var home, agent := CountSessions(claim.homeId, claim.agentId);
        if |sessions| >= limits.maxSessions || home >= limits.maxSessionsPerHome
           || agent >= limits.maxSessionsPerAgent {
          return Some(R.LimitExceeded), 0;
        }
        handle := |table|;
        table := table + [R.NewSession(claim)];
        sessions := sessions[claim.sessionId := handle];
        return None, handle;
      }
      handle := sessions[claim.sessionId];
      if !Agrees(table[handle].claim, claim) {
        return Some(R.ClaimMismatch), handle;
      }
      return None, handle;
    }

    method Reserve(claim: Claim, now: int) returns (error: Option<R.Error>)
      requires Valid()
      modifies this
      ensures Valid()
      ensures State() == R.Outcome(R.Reserve(limits, old(State()), claim, now), old(State()))
      ensures error == match R.Reserve(limits, old(State()), claim, now)
                       case Failed(e) => Some(e)
                       case Accepted(_, _, _) => None
    {
      hide R.RegistryInv, R.SessionForJoin, Agrees, ValidClaim;
      R.InvInTable(limits, State());
      R.ReserveKeeps(limits, State(), claim, now);
      R.LookupOfJoined(limits, State(), claim);
      if !ValidClaim(claim, now) {
        return Some(R.ClaimMismatch);
      }
      var handle;
      error, handle := SessionForJoin(claim);
      if error.Some? {
        return;
      }
      var s := table[handle];
      if claim.side.Browser? {
        if s.browser.endpoint.Some? {
          return Some(R.DuplicateSide);
        }
        table := table[handle := s.(browser := s.browser.(reserved := true))];
      } else {
        if s.agent.endpoint.Some? {
          return Some(R.DuplicateSide);
        }
        table := table[handle := s.(agent := s.agent.(reserved := true))];
      }
    }

    /** The critical section of Join; `joined` is the session entry and whether the pumps start. */
    method Join(claim: Claim, endpoint: nat, now: int) returns (error: Option<R.Error>, handle: nat, paired: bool)
      requires Valid()
      modifies this
      ensures Valid()
      ensures State() == R.Outcome(R.Join(limits, old(State()), claim, endpoint, now), old(State()))
      ensures match R.Join(limits, old(State()), claim, endpoint, now)
              case Failed(e) => error == Some(e)
              case Accepted(_, h, p) => error == None && handle == h && paired == p
    {
      hide R.RegistryInv, R.SessionForJoin, Agrees, ValidClaim;
      R.InvInTable(limits, State());
      R.JoinKeeps(limits, State(), claim, endpoint, now);
      R.LookupOfJoined(limits, State(), claim);
      handle, paired := 0, false;
      if !ValidClaim(claim, now) {
        return Some(R.ClaimMismatch), 0, false;
      }
      error, handle := SessionForJoin(claim);
      if error.Some? {
        return;
      }
      var s := table[handle];
      if (claim.side.Browser? && (s.browser.endpoint.Some? || (!s.browser.reserved && s.started)))
         || (claim.side.Agent? && (s.agent.endpoint.Some? || (!s.agent.reserved && s.started))) {
        return Some(R.DuplicateSide), handle, false;
      }
      if claim.side.Browser? {
        s := s.(browser := s.browser.(reserved := false, endpoint := Some(R.Joined(endpoint, claim))));
      } else {
        s := s.(agent := s.agent.(reserved := false, endpoint := Some(R.Joined(endpoint, claim))));
      }
      if s.browser.endpoint.Some? && s.agent.endpoint.Some? && !s.started {
        paired := true;
        s := s.(started := true,
                browser := s.browser.(lane := L.Start(s.browser.lane)),
                agent := s.agent.(lane := L.Start(s.agent.lane)));
      }
      table := table[handle := s];
    }

    method CancelReservation(claim: Claim)
      requires Valid()
      modifies this
      ensures Valid()
      ensures State() == R.CancelReservation(old(State()), claim)
    {
      hide R.RegistryInv;
      R.InvInTable(limits, State());
      R.CancelKeeps(limits, State(), claim);
      if claim.sessionId !in sessions {
        return;
      }
      var h := sessions[claim.sessionId];
      var s := table[h];
      if s.claim.keyEpoch != claim.keyEpoch {
        return;
      }
      if claim.side.Browser? {
        s := s.(browser := s.browser.(reserved := false));
      } else {
        s := s.(agent := s.agent.(reserved := false));
      }
      if s.browser.endpoint.None? && s.agent.endpoint.None? && !s.browser.reserved && !s.agent.reserved
         && !s.started && !s.finished {
        s := s.(finished := true, doneCloses := s.doneCloses + 1);
        sessions := sessions - {claim.sessionId};
      }
      table := table[h := s];
    }

    /** The critical section of `fail`; `won` says that this call ended the session. */
    method Fail(h: nat, reason: Reason) returns (won: bool)
      requires Valid() && h < |table|
      modifies this
      ensures Valid()
      ensures State() == R.Fail(old(State()), h, reason)
      ensures won == !old(table[h].finished)
      ensures won ==> sessions.Keys == old(sessions.Keys) - {old(table[h].claim.sessionId)}
    {
      hide R.RegistryInv;
      R.FailKeeps(limits, State(), h, reason);
      var s := table[h];
      if s.finished {
        return false;
      }
      table := table[h := s.(finished := true, err := Some(reason), doneCloses := s.doneCloses + 1,
                             reported := (s.browser.lane.counted, s.agent.lane.counted))];
      sessions := sessions - {s.claim.sessionId};
      won := true;
    }
  }
}
