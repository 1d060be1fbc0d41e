/** A run in which the failed offer of an older epoch closes the connections of a newer one in use. */
module StaleCut {
  import opened Common
  import opened RelayTypes
  import opened SessionStore
  import opened Admission
  import opened RelayAuthorization
  import opened JoinProtocol
  import opened LateJoins
  import opened RevocationCuts
  import L = SessionLifecycle
  import R = RelayRegistry
  import M = RelayMachine

  /** A session of the request's in a given state and epoch, with the first epoch's offer still on its way. */
  ghost predicate Mine(q: Request, life: L.Life, state: SessionState, epoch: nat)
  {
    && q.hardExpiresAt == At(life.row.hardExpiresAt) && life.row.hardExpiresAt > 0
    && life.row.homeId == q.homeId && life.row.agentId == q.agentId && life.row.operator == "user"
    && life.row.state == state && life.row.epoch == epoch
    && L.SendOfferOp(1) in life.pending
  }

  // ---- The session's own steps ----

  lemma Heard(q: Request, life: L.Life, k: L.EventKind, e: nat)
    requires Mine(q, life, life.row.state, e) && k in {L.ReadyEvent, L.ConnectedEvent}
    ensures L.Apply(life, L.ReceiveEvent(k, q.homeId, q.agentId, e, "", 0)) == L.Queue(life, L.EventOp(k, e, ""))
  {
  }

  lemma Booked(q: Request, life: L.Life, k: L.EventKind, e: nat)
    requires Mine(q, life, life.row.state, e) && k in {L.ReadyEvent, L.ConnectedEvent} && life.row.state in L.From(k)
    requires L.EventOp(k, e, "") in life.pending
    ensures var life' := L.Apply(life, L.DoCommit(L.EventOp(k, e, "")));
            Mine(q, life', L.To(k), e) && life'.row == life.row.(state := L.To(k), reason := None)
  {
  }

  function Expiry(q: Request): int
    requires q.hardExpiresAt.At?
  {
    L.Capped(L.RECONNECT_TTL, q.hardExpiresAt.nanos)
  }

  function Renewing(q: Request): Renewal
    requires q.hardExpiresAt.At?
  {
    Renewal(0, Expiry(q), 3, 4)
  }

  lemma RenewalAsked(q: Request, life: L.Life)
    requires Mine(q, life, Active, 1)
    ensures L.Apply(life, L.AskReconnect("user", 0, 3, 4)) == L.Queue(life, L.ReconnectOp(1, Renewing(q)))
  {
  }

  /** The second epoch with its own two credentials behind the first two. */
  ghost predicate Renewed(q: Request, life: L.Life, state: SessionState)
  {
    && Mine(q, life, state, 2) && life.row.reconnectExpiresAt == Some(Expiry(q)) && |life.row.credentials| == 4
    && life.row.credentials[2] == Credential(3, Browser, 2, Expiry(q), false, false)
    && life.row.credentials[3] == Credential(4, Agent, 2, Expiry(q), false, false)
  }

  lemma RenewedRow(q: Request, row: Row)
    requires q.hardExpiresAt == At(row.hardExpiresAt) && row.hardExpiresAt > 0
    requires row.state == Active && row.epoch == 1 && |row.credentials| == 2
    ensures var answer := BeginReconnect(row, 1, Renewing(q));
            && answer.Some? && answer.value.state == Reconnecting && answer.value.epoch == 2
            && answer.value == row.(state := Reconnecting, epoch := 2, reconnectExpiresAt := Some(Expiry(q)),
                                    credentials := answer.value.credentials)
            && |answer.value.credentials| == 4
            && answer.value.credentials[2] == Credential(3, Browser, 2, Expiry(q), false, false)
            && answer.value.credentials[3] == Credential(4, Agent, 2, Expiry(q), false, false)
  {
  }

  lemma RenewalBooked(q: Request, life: L.Life)
    requires Mine(q, life, Active, 1) && |life.row.credentials| == 2 && L.ReconnectOp(1, Renewing(q)) in life.pending
    ensures Renewed(q, L.Apply(life, L.DoCommit(L.ReconnectOp(1, Renewing(q)))), Reconnecting)
  {
    hide BeginReconnect, Renewing, Expiry;
    RenewedRow(q, life.row);
  }

  lemma OfferLost(q: Request, life: L.Life)
    requires Mine(q, life, Active, 2)
    ensures L.Enabled(life, L.OfferFails(1))
    ensures var life' := L.Apply(life, L.OfferFails(1));
            life'.row == life.row && L.FailOfferOp(1) in life'.pending
  {
  }

  lemma OfferRefused(life: L.Life)
    requires life.row.state == Active && L.FailOfferOp(1) in life.pending
    ensures var life' := L.Apply(life, L.DoCommit(L.FailOfferOp(1)));
            life'.row == life.row && L.RevokeOp(1, L.OfferFailed) in life'.pending
  {
  }

  // ---- The claims of the second epoch ----

  function ReClaim(q: Request, side: Side): Claim
    requires q.hardExpiresAt.At?
  {
    ClaimFor(q, side).(keyEpoch := 2, reconnect := true, reconnectExpiresAt := At(Expiry(q)))
  }

  lemma BothRenewed(limits: Limits, q: Request, life: L.Life)
    requires Askable(limits, q) && Renewed(q, life, Reconnecting)
    ensures Prepare(q.sessionId, life.row, Browser, "b", q.agentId, 0) == Some(ReClaim(q, Browser))
    ensures Prepare(q.sessionId, life.row, Agent, "a", q.agentId, 0) == Some(ReClaim(q, Agent))
    ensures ValidClaim(ReClaim(q, Browser), 0) && ValidClaim(ReClaim(q, Agent), 0)
  {
    IdsAreVisible(q.agentId);
    LettersAreVisible();
  }

  // ---- The relay ----

  /** A relay that has the one session. */
  function Only(s: R.Session): R.Registry
  {
    R.Registry([s], map[s.claim.sessionId := 0])
  }

  function OneHeld(b: Claim): R.Session
  {
    R.NewSession(b).(browser := R.FREE_SLOT.(reserved := true))
  }

  function BothHeld(b: Claim): R.Session
  {
    OneHeld(b).(agent := R.FREE_SLOT.(reserved := true))
  }

  ghost predicate Meeting(b: Claim, a: Claim)
  {
    && b.side.Browser? && a.side.Agent? && a.sessionId == b.sessionId && Agrees(b, a)
    && ValidClaim(b, 0) && ValidClaim(a, 0)
  }

  lemma HoldFirst(limits: Limits, b: Claim, a: Claim)
    requires ValidLimits(limits) && Meeting(b, a)
    ensures R.InTable(EMPTY) && R.Reserve(limits, EMPTY, b, 0) == R.Accepted(Only(OneHeld(b)), 0, false)
  {
    hide ValidClaim, Agrees, R.Full;
    RoomAtFirst(limits, EMPTY, b);
    assert ([] + [R.NewSession(b)])[0 := OneHeld(b)] == [OneHeld(b)];
  }

  lemma HoldSecond(limits: Limits, b: Claim, a: Claim)
    requires Meeting(b, a)
    ensures R.InTable(Only(OneHeld(b)))
    ensures R.Reserve(limits, Only(OneHeld(b)), a, 0) == R.Accepted(Only(BothHeld(b)), 0, false)
  {
    hide ValidClaim, Agrees, R.Full;
  }

  lemma SitFirst(limits: Limits, b: Claim, a: Claim)
    requires Meeting(b, a)
    ensures R.InTable(Only(BothHeld(b)))
    ensures R.Join(limits, Only(BothHeld(b)), b, 0, 0) == R.Accepted(Only(R.Attach(BothHeld(b), b, 0)), 0, false)
  {
    AgreesIsEquivalence(b, b, b);
    hide ValidClaim, Agrees, R.Full;
  }

  function Pair(b: Claim, a: Claim): R.Session
  {
    R.Pair(R.Attach(R.Attach(BothHeld(b), b, 0), a, 1))
  }

  lemma SitSecond(limits: Limits, b: Claim, a: Claim)
    requires Meeting(b, a)
    ensures R.InTable(Only(R.Attach(BothHeld(b), b, 0)))
    ensures R.Join(limits, Only(R.Attach(BothHeld(b), b, 0)), a, 1, 0) == R.Accepted(Only(Pair(b, a)), 0, true)
  {
    hide ValidClaim, Agrees, R.Full;
  }

  // ---- The run ----

  lemma LifeMoves(limits: Limits, id: string, states: seq<World>, steps: seq<Step>, w: World, s: L.Step)
    returns (states': seq<World>, steps': seq<Step>, w': World)
    requires Ends(limits, id, states, steps, w) && L.Enabled(w.life, s) && !AtRelay(s)
    ensures w' == w.(life := L.Apply(w.life, s)) && Ends(limits, id, states', steps', w')
  {
    hide Run, L.Apply, L.Enabled;
    w' := w.(life := L.Apply(w.life, s));
    states', steps' := Append(limits, id, states, steps, w, OfLife(s), w');
  }

  /** The agent reports an event of the current epoch, and the report is booked at once. */
  lemma Report(limits: Limits, q: Request, states: seq<World>, steps: seq<Step>, w: World, k: L.EventKind, e: nat)
    returns (states': seq<World>, steps': seq<Step>, w': World)
    requires Ends(limits, q.sessionId, states, steps, w) && Mine(q, w.life, w.life.row.state, e)
    requires k in {L.ReadyEvent, L.ConnectedEvent} && w.life.row.state in L.From(k)
    ensures Ends(limits, q.sessionId, states', steps', w')
    ensures w'.relay == w.relay && w'.handlers == w.handlers && Mine(q, w'.life, L.To(k), e)
    ensures w'.life.row == w.life.row.(state := L.To(k), reason := None)
  {
    hide Ends, L.Apply;
    Heard(q, w.life, k, e);
    states', steps', w' := LifeMoves(limits, q.sessionId, states, steps, w,
                                     L.ReceiveEvent(k, q.homeId, q.agentId, e, "", 0));
    Booked(q, w'.life, k, e);
    states', steps', w' := LifeMoves(limits, q.sessionId, states', steps', w', L.DoCommit(L.EventOp(k, e, "")));
  }

  lemma ToRenewed(limits: Limits, q: Request) returns (states: seq<World>, steps: seq<Step>, w: World)
    requires Askable(limits, q)
    ensures Ends(limits, q.sessionId, states, steps, w)
    ensures Renewed(q, w.life, Reconnecting) && w.relay == M.INIT && w.handlers == []
  {
    hide Ends, L.Apply, Renewed, Renewing;
    states, steps, w := ToOfferedRow(limits, q);
    states, steps, w := Report(limits, q, states, steps, w, L.ReadyEvent, 1);
    states, steps, w := Report(limits, q, states, steps, w, L.ConnectedEvent, 1);
    RenewalAsked(q, w.life);
    states, steps, w := LifeMoves(limits, q.sessionId, states, steps, w, L.AskReconnect("user", 0, 3, 4));
    RenewalBooked(q, w.life);
    states, steps, w := LifeMoves(limits, q.sessionId, states, steps, w, L.DoCommit(L.ReconnectOp(1, Renewing(q))));
  }

  function Two(q: Request, first: Phase, second: Phase): seq<Handler>
    requires q.hardExpiresAt.At?
  {
    [Handler(ReClaim(q, Browser), 3, 0, first), Handler(ReClaim(q, Agent), 4, 0, second)]
  }

  lemma ToArrived(limits: Limits, q: Request) returns (states: seq<World>, steps: seq<Step>, w: World)
    requires Askable(limits, q)
    ensures Ends(limits, q.sessionId, states, steps, w) && Meets(q)
    ensures Renewed(q, w.life, Reconnecting) && w.relay == M.INIT && w.handlers == Two(q, Prepared, Prepared)
  {
    hide Run, Prepare, ValidClaim;
    states, steps, w := ToRenewed(limits, q);
    BothRenewed(limits, q, w.life);
    var one := w.(handlers := [Handler(ReClaim(q, Browser), 3, 0, Prepared)]);
    states, steps := Append(limits, q.sessionId, states, steps, w, Arrive(Browser, "b", 3, q.agentId, 0), one);
    var two := w.(handlers := Two(q, Prepared, Prepared));
    states, steps := Append(limits, q.sessionId, states, steps, one, Arrive(Agent, "a", 4, q.agentId, 0), two);
    w := two;
  }

  ghost predicate Meets(q: Request)
  {
    q.hardExpiresAt.At? && Meeting(ReClaim(q, Browser), ReClaim(q, Agent))
  }

  lemma ToHeld(limits: Limits, q: Request) returns (states: seq<World>, steps: seq<Step>, w: World)
    requires Askable(limits, q)
    ensures Ends(limits, q.sessionId, states, steps, w) && Meets(q)
    ensures Renewed(q, w.life, Reconnecting) && w.handlers == Two(q, Reserved, Reserved)
    ensures w.relay == M.INIT.(registry := Only(BothHeld(ReClaim(q, Browser))))
  {
    hide Run, R.Reserve, Apply, Enabled, ValidClaim, Meeting, Renewed, Only, BothHeld, OneHeld;
    states, steps, w := ToArrived(limits, q);
    var b, a := ReClaim(q, Browser), ReClaim(q, Agent);
    HoldFirst(limits, b, a);
    HoldSecond(limits, b, a);
    Reserving(limits, q.sessionId, w, 0);
    var one := Apply(limits, q.sessionId, w, ReserveSide(0, 0));
    states, steps := Append(limits, q.sessionId, states, steps, w, ReserveSide(0, 0), one);
    assert one.handlers == Two(q, Reserved, Prepared);
    Reserving(limits, q.sessionId, one, 1);
    w := Apply(limits, q.sessionId, one, ReserveSide(1, 0));
    states, steps := Append(limits, q.sessionId, states, steps, one, ReserveSide(1, 0), w);
    assert w.handlers == Two(q, Reserved, Reserved);
  }

  lemma UsesThird(q: Request, w: World)
    requires Meets(q) && Renewed(q, w.life, Reconnecting) && w.handlers == Two(q, Reserved, Reserved)
    ensures CanUse(w, w.handlers[0], 2)
    ensures var row := UsedRow(w, 0, 2);
            row == w.life.row.(credentials := row.credentials) && |row.credentials| == 4
            && row.credentials[3] == w.life.row.credentials[3]
  {
    hide ValidClaim;
  }

  lemma UsesFourth(q: Request, w: World)
    requires Meets(q) && Mine(q, w.life, Reconnecting, 2) && w.handlers == Two(q, Consumed(2), Reserved)
    requires |w.life.row.credentials| == 4
    requires w.life.row.credentials[3] == Credential(4, Agent, 2, Expiry(q), false, false)
    ensures CanUse(w, w.handlers[1], 3)
    ensures UsedRow(w, 1, 3) == w.life.row.(credentials := UsedRow(w, 1, 3).credentials)
  {
    hide ValidClaim;
  }

  lemma ToUsed(limits: Limits, q: Request) returns (states: seq<World>, steps: seq<Step>, w: World)
    requires Askable(limits, q)
    ensures Ends(limits, q.sessionId, states, steps, w) && Meets(q)
    ensures Mine(q, w.life, Reconnecting, 2) && w.handlers == Two(q, Consumed(2), Consumed(3))
    ensures w.relay == M.INIT.(registry := Only(BothHeld(ReClaim(q, Browser))))
  {
    hide Run, Apply, Enabled, CanUse, UsedRow, Meets, Only, BothHeld;
    states, steps, w := ToHeld(limits, q);
    UsesThird(q, w);
    Using(limits, q.sessionId, w, 0, 2);
    var one := Apply(limits, q.sessionId, w, UseUp(0, 2));
    states, steps := Append(limits, q.sessionId, states, steps, w, UseUp(0, 2), one);
    assert one.handlers == Two(q, Consumed(2), Reserved);
    UsesFourth(q, one);
    Using(limits, q.sessionId, one, 1, 3);
    w := Apply(limits, q.sessionId, one, UseUp(1, 3));
    states, steps := Append(limits, q.sessionId, states, steps, one, UseUp(1, 3), w);
    assert w.handlers == Two(q, Consumed(2), Consumed(3));
  }

  lemma ToConnected(limits: Limits, q: Request) returns (states: seq<World>, steps: seq<Step>, w: World)
    requires Askable(limits, q)
    ensures Ends(limits, q.sessionId, states, steps, w) && q.hardExpiresAt.At?
    ensures Mine(q, w.life, Reconnecting, 2) && w.handlers == Two(q, Joined(2), Joined(3))
    ensures w.relay.registry == Only(Pair(ReClaim(q, Browser), ReClaim(q, Agent)))
  {
    hide Run, Apply, Enabled, R.Join, Only, BothHeld, Pair, Meeting, Mine;
    states, steps, w := ToUsed(limits, q);
    var b, a := ReClaim(q, Browser), ReClaim(q, Agent);
    SitFirst(limits, b, a);
    SitSecond(limits, b, a);
    SideJoins(limits, q.sessionId, w, 0);
    var one := Apply(limits, q.sessionId, w, JoinSide(0, 0));
    states, steps := Append(limits, q.sessionId, states, steps, w, JoinSide(0, 0), one);
    assert one.handlers == Two(q, Joined(2), Consumed(3));
    SideJoins(limits, q.sessionId, one, 1);
    w := Apply(limits, q.sessionId, one, JoinSide(1, 0));
    states, steps := Append(limits, q.sessionId, states, steps, one, JoinSide(1, 0), w);
    assert w.handlers == Two(q, Joined(2), Joined(3));
  }

  /** The second epoch is active in the store and in the relay, and the first one's offer has failed. */
  lemma ToStaleRevocation(limits: Limits, q: Request) returns (states: seq<World>, steps: seq<Step>, w: World)
    requires Askable(limits, q)
    ensures Ends(limits, q.sessionId, states, steps, w) && q.hardExpiresAt.At?
    ensures w.life.row.state == Active && w.life.row.epoch == 2 && L.RevokeOp(1, L.OfferFailed) in w.life.pending
    ensures w.relay.registry == Only(Pair(ReClaim(q, Browser), ReClaim(q, Agent)))
  {
    hide Ends, L.Apply, Only, Pair;
    states, steps, w := ToConnected(limits, q);
    states, steps, w := Report(limits, q, states, steps, w, L.ConnectedEvent, 2);
    OfferLost(q, w.life);
    states, steps, w := LifeMoves(limits, q.sessionId, states, steps, w, L.OfferFails(1));
    OfferRefused(w.life);
    states, steps, w := LifeMoves(limits, q.sessionId, states, steps, w, L.DoCommit(L.FailOfferOp(1)));
  }

  lemma PairIsLive(b: Claim, a: Claim)
    ensures var r := Only(Pair(b, a));
            && r.sessions == map[b.sessionId := 0] && |r.table| == 1 && R.InTable(r)
            && r.table[0].claim == b && r.table[0].started && !r.table[0].finished
            && (b.side.Browser? && a.side.Agent? ==>
                  r.table[0].browser.endpoint == Some(R.Joined(0, b))
                  && r.table[0].agent.endpoint == Some(R.Joined(1, a)))
  {
  }

  /**
   * For every request there is a run in which epoch 2 has both its sides paired in the relay and is
   * active in the store when, in the last two steps, the revocation of epoch 1's failed offer reaches
   * the relay and its call runs: epoch 2's session is finished and both its connections are closed.
   */
  lemma StaleOfferClosesNewer(limits: Limits, q: Request) returns (states: seq<World>, steps: seq<Step>, i: nat)
    requires Askable(limits, q)
    ensures Run(limits, q.sessionId, states, steps) && |states| == |steps| + 1 && i + 2 == |steps|
    ensures var w := states[i];
            var r := w.relay.registry;
            && w.life.row.state == Active && w.life.row.epoch == 2 && L.RevokeOp(1, L.OfferFailed) in w.life.pending
            && q.sessionId in r.sessions && r.sessions[q.sessionId] == 0 && |r.table| == 1
            && r.table[0].claim.keyEpoch == 2 && r.table[0].started && !r.table[0].finished
            && r.table[0].browser.endpoint.Some? && r.table[0].agent.endpoint.Some?
    ensures var text := "agent_offer_failed";
            steps[i..] == [Revoke(L.RevokeOp(1, L.OfferFailed), text), OfRelay(M.RunFail(M.FailCall(0, Revoked(text))))]
    ensures var w := states[i + 2];
            && w.life.row == states[i].life.row
            && |w.relay.registry.table| > 0 && w.relay.registry.table[0].finished
            && ClosedOnce(w.relay, 0, Browser) && ClosedOnce(w.relay, 0, Agent)
  {
    hide Run, M.Apply, L.Apply, Only, Pair, ClosedOnce;
    var w;
    states, steps, w := ToStaleRevocation(limits, q);
    RunLength(limits, q.sessionId, states, steps);
    i := |steps|;
    var id, op, text := q.sessionId, L.RevokeOp(1, L.OfferFailed), "agent_offer_failed";
    PairIsLive(ReClaim(q, Browser), ReClaim(q, Agent));
    RevokeDone(w.life, op);
    AtTheRelay(limits, w.relay, id, text);
    RegistryStays(limits, w.relay, id, text);
    var one := World(L.Apply(w.life, L.DoCommit(op)), M.Apply(limits, w.relay, M.DoRevoke(id, text)), w.handlers);
    states, steps := Append(limits, id, states, steps, w, Revoke(op, text), one);
    var run := M.RunFail(M.FailCall(0, Revoked(text)));
    states, steps := Append(limits, id, states, steps, one, OfRelay(run),
                            one.(relay := M.Apply(limits, one.relay, run)));
    RevocationCloses(limits, id, states, steps, i, i + 1, i + 2, Browser);
    RevocationCloses(limits, id, states, steps, i, i + 1, i + 2, Agent);
  }

  lemma RegistryStays(limits: Limits, st: M.State, id: string, text: string)
    requires M.Enabled(st, M.DoRevoke(id, text))
    ensures M.Apply(limits, st, M.DoRevoke(id, text)).registry == st.registry
  {
  }
}
