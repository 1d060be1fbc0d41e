/** From a stored session to the claim a connecting side presents to the relay (`PrepareDesktopRelay`). */
module RelayAuthorization {
  import opened Common
  import opened RelayTypes
  import opened SessionStore
  import opened Admission
  import T = Text
  import R = RelayRegistry
  import opened SessionLifecycle
  import opened StaleCommits

  /** `agentId` is what the agent side says it is; the browser side sends none. */
  function Prepare(id: string, row: Row, side: Side, credential: string, agentId: string, now: int): Option<Claim>
  {
    if !ValidResourceId(id) || T.Trim(credential) == "" || row.hardExpiresAt <= now
       || row.epoch == 0 || !Joinable(row.state) then None
    else if side.Agent? && (T.Trim(agentId) == "" || row.agentId != agentId) then None
    else if row.state == Reconnecting && row.reconnectExpiresAt.None? then None
    else
      Some(Claim(id, row.homeId, side, row.epoch, row.agentId, At(row.hardExpiresAt), row.state == Reconnecting,
                 if row.state == Reconnecting then At(row.reconnectExpiresAt.value) else Zero))
  }

  /**
   * Both sides of one stored session get claims that meet: whichever side joins first on an idle
   * id, the other then joins the same relay session and the pumps start.
   */
  lemma PreparedSidesPair(limits: Limits, r: R.Registry, id: string, row: Row, first: Side, one: Claim, two: Claim,
                          credentials: (string, string), agentId: string, now: (int, int), endpoints: (nat, nat))
    requires R.InTable(r) && id !in r.sessions
    requires Prepare(id, row, first, credentials.0, agentId, now.0) == Some(one)
    requires Prepare(id, row, Other(first), credentials.1, agentId, now.1) == Some(two)
    ensures var v := R.Join(limits, r, one, endpoints.0, now.0);
            v.Accepted? ==>
              && !v.paired && R.InTable(v.registry)
              && (var w := R.Join(limits, v.registry, two, endpoints.1, now.1);
                  (ValidClaim(two, now.1) ==> w.Accepted?) && (w.Accepted? ==> w.paired && w.handle == v.handle))
  {
    hide ValidClaim, R.Full;
    assert one.sessionId == two.sessionId == id && Agrees(one, two);
  }

  function Other(side: Side): Side
  {
    if side.Browser? then Agent else Browser
  }

  /** When the relay accepts a prepared claim: the one thing left unchecked is the reconnect window. */
  lemma PreparedClaimIsValid(id: string, row: Row, side: Side, credential: string, agentId: string, now: int)
    requires Prepare(id, row, side, credential, agentId, now).Some? && ValidResourceId(row.homeId)
    requires ValidResourceId(row.agentId)
    ensures ValidClaim(Prepare(id, row, side, credential, agentId, now).value, now)
            <==> (row.state == Reconnecting ==> now < row.reconnectExpiresAt.value <= row.hardExpiresAt)
  {
  }

  /** The row that Create stores for a request, with times at the column's precision. */
  ghost predicate StoredFor(q: Request, row: Row)
  {
    && row.homeId == q.homeId && row.agentId == q.agentId
    && q.hardExpiresAt.At? && At(row.hardExpiresAt) == Stored(q.hardExpiresAt)
  }

  /**
   * The reservation is made before the row is stored, at full clock precision. A claim prepared
   * from the row lands on the reserved relay session exactly while the session is still in the
   * request's epoch and not reconnecting; after a reconnect it never does.
   */
  lemma ReservationMeetsStoredClaim(q: Request, row: Row, side: Side, credential: string, agentId: string, now: int)
    requires StoredFor(q, row) && Prepare(q.sessionId, row, side, credential, agentId, now).Some?
    ensures forall first: Side ::
              Agrees(ClaimFor(q, first), Prepare(q.sessionId, row, side, credential, agentId, now).value)
              <==> row.epoch == q.keyEpoch && row.state != Reconnecting
  {
    TimestampEqualIffStoredEqual(q.hardExpiresAt, At(row.hardExpiresAt));
    TimestampEqualIffStoredEqual(q.hardExpiresAt, q.hardExpiresAt);
  }

  /**
   * After a successful Create a claim prepared from the stored row is taken on either side, for reserving
   * again, which changes nothing, and for joining.
   */
  lemma CreatedSessionTakesBothSides(limits: Limits, before: R.Registry, r: R.Registry, q: Request, row: Row,
                                     side: Side, credential: string, agentId: string, at: int, endpoint: nat, now: int)
    requires R.RegistryInv(limits, r) && SecondReserved(before, r, q)
    requires StoredFor(q, row) && row.epoch == q.keyEpoch && row.state != Reconnecting
    requires Prepare(q.sessionId, row, side, credential, agentId, at).Some?
    requires ValidClaim(Prepare(q.sessionId, row, side, credential, agentId, at).value, now)
    ensures R.InTable(r)
    ensures var claim := Prepare(q.sessionId, row, side, credential, agentId, at).value;
            && R.Reserve(limits, r, claim, now) == R.Accepted(r, |before.table|, false)
            && R.Join(limits, r, claim, endpoint, now).Accepted?
  {
    hide R.RegistryInv, ValidClaim, Agrees, R.Room, SecondReserved, StoredFor, R.Reserve, R.Join;
    var claim := Prepare(q.sessionId, row, side, credential, agentId, at).value;
    ReservationMeetsStoredClaim(q, row, side, credential, agentId, at);
    assert claim.sessionId == q.sessionId;
    hide Prepare;
    R.InvInTable(limits, r);
    OnCreated(before, r, q, claim);
    R.ReserveExactly(limits, r, claim, now);
    R.JoinExactly(limits, r, claim, endpoint, now);
  }

  lemma OnCreated(before: R.Registry, r: R.Registry, q: Request, claim: Claim)
    requires SecondReserved(before, r, q) && R.InTable(r)
    requires claim.sessionId == q.sessionId && Agrees(ClaimFor(q, Browser), claim)
    ensures claim.sessionId in r.sessions && r.sessions[claim.sessionId] == |before.table|
    ensures R.SideIsFree(r, claim) && R.ReservedAlready(r, claim)
  {
    hide Agrees;
  }

  /** Who is given a claim, and that the claim says what the row says. */
  lemma PrepareExactly(id: string, row: Row, side: Side, credential: string, agentId: string, now: int)
    ensures Prepare(id, row, side, credential, agentId, now).Some? <==>
              && ValidResourceId(id) && T.Trim(credential) != "" && now < row.hardExpiresAt && row.epoch >= 1
              && (row.state == Offered || row.state == AgentReady || row.state == Joining || row.state == Reconnecting)
              && (side == Agent ==> agentId == row.agentId && T.Trim(agentId) != "")
              && (row.state == Reconnecting ==> row.reconnectExpiresAt.Some?)
    ensures Prepare(id, row, side, credential, agentId, now).Some? ==>
              var c := Prepare(id, row, side, credential, agentId, now).value;
              && c.sessionId == id && c.homeId == row.homeId && c.agentId == row.agentId && c.side == side
              && c.keyEpoch == row.epoch && c.hardExpiresAt == At(row.hardExpiresAt)
              && (if row.state == Reconnecting then
                    c.reconnect && c.reconnectExpiresAt == At(row.reconnectExpiresAt.value)
                  else !c.reconnect && c.reconnectExpiresAt == Zero)
  {
  }

  /**
   * From an active row exactly a reconnect, a lost transport and a "disconnected" lead back to where
   * claims are given.
   */
  lemma ActiveReopens(row: Row, op: Op)
    requires row.state == Active && Commit(row, op).Some?
    ensures Joinable(Commit(row, op).value.state)
            <==> op.ReconnectOp? || op.LostOp? || (op.EventOp? && op.kind.DisconnectedEvent?)
  {
    hide RevokeUsable, NextEpoch;
  }

  /**
   * What a stale "connected" costs: it makes the renewed session active before anyone has joined.
   * A side that asks while the row is active is given no claim, whatever it presents; a reconnect
   * or a "disconnected" of the current epoch makes the row joinable again.
   */
  lemma StaleEventLocksOut() returns (states: seq<Life>, steps: seq<Step>, op: Op)
    ensures Run(states, steps) && |states| > 0 && op in states[|states| - 1].pending
    ensures var row := states[|states| - 1].row;
            var row' := Apply(states[|states| - 1], DoCommit(op)).row;
            && op.EventOp? && op.epoch < row.epoch && Joinable(row.state)
            && (forall id, side, credential, agentId, now :: Prepare(id, row', side, credential, agentId, now).None?)
            && (var renewed := BeginReconnect(row', row'.epoch, SampleRenewal(2));
                renewed.Some? && Joinable(renewed.value.state))
            && (var left := Commit(row', EventOp(DisconnectedEvent, row'.epoch, ""));
                left.Some? && Joinable(left.value.state))
  {
    hide Run, Apply;
    states, steps, op := StaleEventWitness();
  }
}
