/** Creating a desktop session: both relay sides are reserved before anything is stored. */
module Admission {
  import opened Common
  import opened RelayTypes
  import R = RelayRegistry
  import opened RelayObject

  /** The claim both reservations are built from. */
  datatype Request = Request(sessionId: string, homeId: string, agentId: string, keyEpoch: nat,
                             hardExpiresAt: Timestamp)

  function ClaimFor(q: Request, side: Side): Claim
  {
    Claim(q.sessionId, q.homeId, side, q.keyEpoch, q.agentId, q.hardExpiresAt, false, Zero)
  }

  datatype CreateError = Relay(error: R.Error) | CredentialConflict | StoreRejected

  /** Both sides hold a reservation and nobody has joined. */
  ghost predicate BothReserved(r: R.Registry, q: Request)
  {
    && q.sessionId in r.sessions
    && r.sessions[q.sessionId] < |r.table|
    && (var s := r.table[r.sessions[q.sessionId]];
        s.browser.reserved && s.agent.reserved && s.browser.endpoint.None? && s.agent.endpoint.None? && !s.finished)
  }

  /** One side alone holds the session that the first reservation of a fresh id made. */
  ghost predicate FirstReserved(before: R.Registry, r: R.Registry, q: Request)
  {
    && q.sessionId !in before.sessions
    && r.sessions == before.sessions[q.sessionId := |before.table|]
    && r.table == before.table + [R.NewSession(ClaimFor(q, Browser)).(browser := R.FREE_SLOT.(reserved := true))]
  }

  ghost predicate SecondReserved(before: R.Registry, r: R.Registry, q: Request)
  {
    && q.sessionId !in before.sessions
    && r.sessions == before.sessions[q.sessionId := |before.table|]
    && r.table == before.table + [R.NewSession(ClaimFor(q, Browser)).(browser := R.FREE_SLOT.(reserved := true),
                                                                      agent := R.FREE_SLOT.(reserved := true))]
  }

  lemma ReserveFirst(limits: Limits, r: R.Registry, q: Request, now: int)
    requires R.InTable(r) && q.sessionId !in r.sessions
    ensures var v := R.Reserve(limits, r, ClaimFor(q, Browser), now);
            && (v.Accepted? <==> ValidClaim(ClaimFor(q, Browser), now) && !R.Full(limits, r, ClaimFor(q, Browser)))
            && (v.Accepted? ==> FirstReserved(r, v.registry, q))
  {
    hide R.Full, ValidClaim;
    var c := ClaimFor(q, Browser);
    var v := R.Reserve(limits, r, c, now);
    if v.Accepted? {
      var s := R.NewSession(c);
      assert (r.table + [s])[|r.table| := s.(browser := R.FREE_SLOT.(reserved := true))]
          == r.table + [s.(browser := R.FREE_SLOT.(reserved := true))];
    }
  }

  lemma ReserveSecond(limits: Limits, before: R.Registry, r: R.Registry, q: Request, now: int)
    requires R.InTable(r) && FirstReserved(before, r, q)
    ensures var v := R.Reserve(limits, r, ClaimFor(q, Agent), now);
            && (v.Accepted? <==> ValidClaim(ClaimFor(q, Agent), now))
            && (v.Accepted? ==> SecondReserved(before, v.registry, q))
  {
    hide R.Full, ValidClaim;
    var v := R.Reserve(limits, r, ClaimFor(q, Agent), now);
    if v.Accepted? {
      var n := |before.table|;
      var s := r.table[n];
      assert r.table[n := s.(agent := R.FREE_SLOT.(reserved := true))]
          == before.table + [s.(agent := R.FREE_SLOT.(reserved := true))];
    }
  }

  /** Taking back the only reservation ends the session and empties its place in the map. */
  lemma CancelLast(before: R.Registry, r: R.Registry, q: Request)
    requires R.InTable(r) && FirstReserved(before, r, q)
    ensures var r' := R.CancelReservation(r, ClaimFor(q, Browser));
            r'.sessions == before.sessions && before.table <= r'.table
  {
    assert r.sessions - {q.sessionId} == before.sessions;
  }

  lemma CancelAgentOfBoth(before: R.Registry, r: R.Registry, q: Request)
    requires R.InTable(r) && SecondReserved(before, r, q)
    ensures FirstReserved(before, R.CancelReservation(r, ClaimFor(q, Agent)), q)
  {
    var n := |before.table|;
    var s := r.table[n];
    assert r.table[n := s.(agent := R.FREE_SLOT)] == before.table + [s.(agent := R.FREE_SLOT)];
  }

  /** There is room for the session, and it outlives both reservations. */
  ghost predicate Admissible(limits: Limits, r: R.Registry, q: Request, now1: int, now2: int)
  {
    && ValidClaim(ClaimFor(q, Browser), now1) && ValidClaim(ClaimFor(q, Agent), now2)
    && R.InTable(r) && R.Room(limits, r, ClaimFor(q, Browser))
  }

  class DesktopService {
    const relay: InProcessRelay

    constructor (relay: InProcessRelay)
      ensures this.relay == relay
    {
      this.relay := relay;
    }

    /** Two reservations, the first one taken back if the second is refused. */
    method ReserveAdmission(q: Request, now1: int, now2: int) returns (error: Option<R.Error>)
      requires relay.Valid() && q.sessionId !in relay.sessions
      modifies relay
      ensures relay.Valid()
      ensures error.Some? ==> relay.sessions == old(relay.sessions) && old(relay.table) <= relay.table
      ensures error.None? ==> SecondReserved(old(relay.State()), relay.State(), q)
      ensures error.None? <==> Admissible(relay.limits, old(relay.State()), q, now1, now2)
    {
      hide R.RegistryInv, R.Reserve, R.CancelReservation, FirstReserved, SecondReserved;
      ghost var before := relay.State();
      R.InvInTable(relay.limits, before);
      ReserveFirst(relay.limits, before, q, now1);
      error := relay.Reserve(ClaimFor(q, Browser), now1);
      if error.Some? {
        return;
      }
      ghost var first := relay.State();
      R.InvInTable(relay.limits, first);
      ReserveSecond(relay.limits, before, first, q, now2);
      error := relay.Reserve(ClaimFor(q, Agent), now2);
      if error.Some? {
        CancelLast(before, first, q);
        relay.CancelReservation(ClaimFor(q, Browser));
      }
    }

    /** The deferred rollback: the agent's reservation, then the browser's. */
    method ReleaseAdmission(q: Request, ghost before: R.Registry)
      requires relay.Valid() && SecondReserved(before, relay.State(), q)
      modifies relay
      ensures relay.Valid() && relay.sessions == before.sessions && before.table <= relay.table
    {
      hide R.RegistryInv, R.CancelReservation, FirstReserved, SecondReserved;
      R.InvInTable(relay.limits, relay.State());
      CancelAgentOfBoth(before, relay.State(), q);
      relay.CancelReservation(ClaimFor(q, Agent));
      R.InvInTable(relay.limits, relay.State());
      CancelLast(before, relay.State(), q);
      relay.CancelReservation(ClaimFor(q, Browser));
    }

    /**
     * The part of Create after the identity checks. The two trimmed tokens and the store's answer
     * come from outside; on every error the relay's map is what it was.
     */
    method Create(q: Request, now1: int, now2: int, browserToken: string, agentToken: string, stored: bool)
      returns (error: Option<CreateError>)
      requires relay.Valid() && q.sessionId !in relay.sessions
      modifies relay
      ensures relay.Valid()
      ensures error.Some? ==> relay.sessions == old(relay.sessions) && old(relay.table) <= relay.table
      ensures error.None? ==> relay.sessions.Keys == old(relay.sessions.Keys) + {q.sessionId}
                               && BothReserved(relay.State(), q)
      ensures error.None? <==> Admissible(relay.limits, old(relay.State()), q, now1, now2)
                               && stored && browserToken != agentToken && browserToken != "" && agentToken != ""
    {
      hide R.RegistryInv, Admissible;
      ghost var before := relay.State();
      var refused := ReserveAdmission(q, now1, now2);
      if refused.Some? {
        return Some(Relay(refused.value));
      }
      if browserToken == "" || agentToken == "" || browserToken == agentToken {
        ReleaseAdmission(q, before);
        return Some(CredentialConflict);
      }
      if !stored {
        ReleaseAdmission(q, before);
        return Some(StoreRejected);
      }
      return None;
    }
  }
}
