/** A run in which both sides of a session join and pair after the session has been ended and revoked. */
module LateJoins {
  import opened Common
  import opened RelayTypes
  import opened SessionStore
  import opened Admission
  import opened RelayAuthorization
  import opened JoinProtocol
  import T = Text
  import L = SessionLifecycle
  import R = RelayRegistry
  import M = RelayMachine

  /** A request that the relay accepts at time zero, for a session in its first epoch. */
  predicate Askable(limits: Limits, q: Request)
  {
    ValidLimits(limits) && q.keyEpoch == 1 && ValidClaim(ClaimFor(q, Browser), 0)
  }

  /** The row as created, with one unused credential for each side. */
  function CreatedRow(q: Request): Row
    requires q.hardExpiresAt.At?
  {
    Row(q.homeId, q.agentId, "user", Requested, 1, 1, q.hardExpiresAt.nanos, None, None,
        [Credential(1, Browser, 1, 1, false, false), Credential(2, Agent, 1, 1, false, false)])
  }

  ghost predicate Ends(limits: Limits, id: string, states: seq<World>, steps: seq<Step>, w: World)
  {
    Run(limits, id, states, steps) && |states| > 0 && states[|states| - 1] == w
  }

  lemma Append(limits: Limits, id: string, states: seq<World>, steps: seq<Step>, w: World, step: Step, w': World)
    returns (states': seq<World>, steps': seq<Step>)
    requires Ends(limits, id, states, steps, w) && Enabled(id, w, step) && Apply(limits, id, w, step) == w'
    ensures Ends(limits, id, states', steps', w') && states' == states + [w'] && steps' == steps + [step]
  {
    hide Apply, Enabled, Start;
    states', steps' := states + [w'], steps + [step];
  }

  // ---- The session's own steps ----

  lemma OfferAsked(life: L.Life)
    ensures L.Apply(life, L.AskOffer) == L.Queue(life, L.OfferOp)
  {
  }

  lemma OfferMade(life: L.Life)
    requires life.row.state == Requested && L.OfferOp in life.pending
    ensures var life' := L.Apply(life, L.DoCommit(L.OfferOp));
            && life'.row == life.row.(state := Offered, reason := None)
            && L.SendOfferOp(life.row.epoch) in life'.pending
  {
    hide RevokeUsable;
  }

  lemma EndAsked(life: L.Life)
    requires life.row.state == Offered && life.row.operator == "user"
    ensures L.Apply(life, L.AskTerminate("user", "")) == L.Queue(life, L.TerminateOp("user_ended"))
  {
  }

  lemma Ended(life: L.Life)
    requires life.row.state == Offered && L.TerminateOp("user_ended") in life.pending
    ensures var life' := L.Apply(life, L.DoCommit(L.TerminateOp("user_ended")));
            life'.row.state == Terminated && L.RevokeOp(life.row.epoch, L.SessionEnded) in life'.pending
  {
    hide L.RelayAfter, L.Commit;
    TerminateAnswers(life.row);
  }

  lemma TerminateAnswers(row: Row)
    requires row.state == Offered
    ensures var answer := L.Commit(row, L.TerminateOp("user_ended"));
            answer.Some? && answer.value.state == Terminated && answer.value.epoch == row.epoch
  {
    hide RevokeUsable;
  }

  lemma CredentialUsed(life: L.Life, step: L.Step)
    requires step.UseCredential? && Consume(life.row, step.index, step.hash, step.side, step.epoch, step.now).Some?
    ensures L.Apply(life, step)
         == life.(row := Consume(life.row, step.index, step.hash, step.side, step.epoch, step.now).value)
  {
    hide Consume;
  }

  // ---- The two claims ----

  lemma IdsAreVisible(id: string)
    requires ValidResourceId(id)
    ensures T.Trim(id) != ""
  {
    assert forall i :: 0 <= i < |id| ==> !T.IsSpace(id[i]);
    T.TrimIsTrimmed(id);
  }

  lemma LettersAreVisible()
    ensures T.Trim("b") != "" && T.Trim("a") != ""
  {
    T.TrimIsTrimmed("b");
    T.TrimIsTrimmed("a");
  }

  /** At the offered row both sides are given the claims of the request. */
  lemma BothPrepared(limits: Limits, q: Request, row: Row)
    requires Askable(limits, q) && row == CreatedRow(q).(state := Offered)
    ensures Prepare(q.sessionId, row, Browser, "b", q.agentId, 0) == Some(ClaimFor(q, Browser))
    ensures Prepare(q.sessionId, row, Agent, "a", q.agentId, 0) == Some(ClaimFor(q, Agent))
    ensures ValidClaim(ClaimFor(q, Agent), 0)
  {
    IdsAreVisible(q.agentId);
    LettersAreVisible();
  }

  // ---- The relay ----

  const EMPTY := R.Registry([], map[])

  lemma RoomAtFirst(limits: Limits, r: R.Registry, claim: Claim)
    requires ValidLimits(limits) && r.sessions == map[]
    ensures R.InTable(r) && !R.Full(limits, r, claim) && R.Room(limits, r, claim)
  {
    assert R.OfHome(r, claim.homeId) == {} && R.OfAgent(r, claim.agentId) == {};
  }

  lemma BothReservedAtFirst(limits: Limits, q: Request)
    requires Askable(limits, q)
    ensures R.InTable(EMPTY)
    ensures var v := R.Reserve(limits, EMPTY, ClaimFor(q, Browser), 0);
            && v.Accepted? && R.InTable(v.registry)
            && (var u := R.Reserve(limits, v.registry, ClaimFor(q, Agent), 0);
                u.Accepted? && R.InTable(u.registry) && SecondReserved(EMPTY, u.registry, q))
  {
    hide R.Reserve, R.Full;
    RoomAtFirst(limits, EMPTY, ClaimFor(q, Browser));
    ReserveFirst(limits, EMPTY, q, 0);
    var r := R.Reserve(limits, EMPTY, ClaimFor(q, Browser), 0).registry;
    assert R.InTable(r);
    ReserveSecond(limits, EMPTY, r, q, 0);
  }

  lemma RevokedAway(r: R.Registry, q: Request, reason: Reason)
    requires SecondReserved(EMPTY, r, q)
    ensures r.sessions == map[q.sessionId := 0] && |r.table| == 1 && R.InTable(r)
    ensures var r' := R.Fail(r, 0, reason);
            r'.sessions == map[] && |r'.table| == 1 && r'.table[0].finished
  {
  }

  /** On an idle id with room, the two claims of one row join one after the other and pair. */
  lemma BothJoin(limits: Limits, q: Request, r: R.Registry)
    requires Askable(limits, q) && R.RegistryInv(limits, r) && r.sessions == map[]
    ensures R.InTable(r)
    ensures var v := R.Join(limits, r, ClaimFor(q, Browser), 0, 0);
            && v.Accepted? && R.InTable(v.registry)
            && (var u := R.Join(limits, v.registry, ClaimFor(q, Agent), 1, 0);
                u.Accepted? && u.paired)
  {
    hide R.RegistryInv, R.Join, R.Full, ValidClaim;
    R.JoinExactly(limits, r, ClaimFor(q, Browser), 0, 0);
    RoomAtFirst(limits, r, ClaimFor(q, Browser));
    assert q.hardExpiresAt.At? by { HasExpiry(limits, q); }
    var row := CreatedRow(q).(state := Offered);
    BothPrepared(limits, q, row);
    PreparedSidesPair(limits, r, q.sessionId, row, Browser, ClaimFor(q, Browser), ClaimFor(q, Agent), ("b", "a"),
                      q.agentId, (0, 0), (0, 1));
  }

  lemma HasExpiry(limits: Limits, q: Request)
    requires Askable(limits, q)
    ensures q.hardExpiresAt.At?
  {
  }

  lemma PairedStarts(limits: Limits, r: R.Registry, claim: Claim, endpoint: nat)
    requires R.InTable(r) && R.Join(limits, r, claim, endpoint, 0).Accepted?
    requires R.Join(limits, r, claim, endpoint, 0).paired
    requires R.RegistryInv(limits, r)
    ensures var v := R.Join(limits, r, claim, endpoint, 0);
            v.handle < |v.registry.table| && v.registry.table[v.handle].started && !v.registry.table[v.handle].finished
  {
    hide R.RegistryInv, R.Join;
    R.JoinFrame(limits, r, claim, endpoint, 0);
  }

  // ---- The run ----

  function At(q: Request, first: Phase, second: Phase): seq<Handler>
  {
    [Handler(ClaimFor(q, Browser), 1, 0, first), Handler(ClaimFor(q, Agent), 2, 0, second)]
  }

  lemma ToOfferedRow(limits: Limits, q: Request) returns (states: seq<World>, steps: seq<Step>, w: World)
    requires Askable(limits, q)
    ensures Ends(limits, q.sessionId, states, steps, w)
    ensures q.hardExpiresAt.At? && w.life.row == CreatedRow(q).(state := Offered) && w.relay == M.INIT
    ensures w.handlers == []
    ensures L.SendOfferOp(1) in w.life.pending
  {
    hide L.Apply, M.Apply;
    var life := L.Life(CreatedRow(q), None, multiset{}, []);
    w := World(life, M.INIT, []);
    states, steps := [w], [];
    assert Run(limits, q.sessionId, states, steps);
    hide Run;
    OfferAsked(life);
    var asked := L.Queue(life, L.OfferOp);
    states, steps := Append(limits, q.sessionId, states, steps, w, OfLife(L.AskOffer), w.(life := asked));
    OfferMade(asked);
    var w' := w.(life := L.Apply(asked, L.DoCommit(L.OfferOp)));
    states, steps := Append(limits, q.sessionId, states, steps, w.(life := asked), OfLife(L.DoCommit(L.OfferOp)), w');
    w := w';
  }

  lemma ToPrepared(limits: Limits, q: Request) returns (states: seq<World>, steps: seq<Step>, w: World)
    requires Askable(limits, q)
    ensures Ends(limits, q.sessionId, states, steps, w)
    ensures q.hardExpiresAt.At? && w.life.row == CreatedRow(q).(state := Offered) && w.relay == M.INIT
    ensures w.handlers == At(q, Prepared, Prepared)
  {
    hide Run, Prepare, ValidClaim;
    states, steps, w := ToOfferedRow(limits, q);
    BothPrepared(limits, q, w.life.row);
    var one := w.(handlers := [Handler(ClaimFor(q, Browser), 1, 0, Prepared)]);
    states, steps := Append(limits, q.sessionId, states, steps, w, Arrive(Browser, "b", 1, q.agentId, 0), one);
    var two := w.(handlers := At(q, Prepared, Prepared));
    states, steps := Append(limits, q.sessionId, states, steps, one, Arrive(Agent, "a", 2, q.agentId, 0), two);
    w := two;
  }

  lemma Reserving(limits: Limits, id: string, w: World, n: nat)
    requires n < |w.handlers| && w.handlers[n].phase.Prepared? && R.InTable(w.relay.registry)
    requires R.Reserve(limits, w.relay.registry, w.handlers[n].claim, 0).Accepted?
    ensures Enabled(id, w, ReserveSide(n, 0))
    ensures Apply(limits, id, w, ReserveSide(n, 0))
         == Moved(w.(relay := w.relay.(registry :=
                    R.Reserve(limits, w.relay.registry, w.handlers[n].claim, 0).registry)), n, Reserved)
  {
    hide R.Reserve;
  }

  lemma ToReserved(limits: Limits, q: Request) returns (states: seq<World>, steps: seq<Step>, w: World)
    requires Askable(limits, q)
    ensures Ends(limits, q.sessionId, states, steps, w)
    ensures q.hardExpiresAt.At? && w.life.row == CreatedRow(q).(state := Offered)
    ensures w.handlers == At(q, Reserved, Reserved)
    ensures SecondReserved(EMPTY, w.relay.registry, q) && w.relay.calls == multiset{}
  {
    hide Run, R.Reserve, Apply, Enabled, ValidClaim, SecondReserved;
    states, steps, w := ToPrepared(limits, q);
    BothReservedAtFirst(limits, q);
    Reserving(limits, q.sessionId, w, 0);
    var one := Apply(limits, q.sessionId, w, ReserveSide(0, 0));
    states, steps := Append(limits, q.sessionId, states, steps, w, ReserveSide(0, 0), one);
    assert one.handlers == At(q, Reserved, Prepared);
    Reserving(limits, q.sessionId, one, 1);
    w := Apply(limits, q.sessionId, one, ReserveSide(1, 0));
    states, steps := Append(limits, q.sessionId, states, steps, one, ReserveSide(1, 0), w);
    assert w.handlers == At(q, Reserved, Reserved);
  }

  function UsedRow(w: World, n: nat, index: nat): Row
    requires n < |w.handlers| && CanUse(w, w.handlers[n], index)
  {
    var h := w.handlers[n];
    Consume(w.life.row, index, h.hash, h.claim.side, h.claim.keyEpoch, h.now).value
  }

  lemma Using(limits: Limits, id: string, w: World, n: nat, index: nat)
    requires n < |w.handlers| && w.handlers[n].phase.Reserved? && CanUse(w, w.handlers[n], index)
    ensures Enabled(id, w, UseUp(n, index))
    ensures Apply(limits, id, w, UseUp(n, index))
         == Moved(w.(life := w.life.(row := UsedRow(w, n, index))), n, Consumed(index))
  {
    hide L.Apply, Consume, ValidClaim;
    CredentialUsed(w.life, Use(w.handlers[n], index));
  }

  lemma ToConsumed(limits: Limits, q: Request) returns (states: seq<World>, steps: seq<Step>, w: World)
    requires Askable(limits, q)
    ensures Ends(limits, q.sessionId, states, steps, w)
    ensures w.life.row.state == Offered && w.life.row.operator == "user" && w.life.row.epoch == 1
    ensures w.handlers == At(q, Consumed(0), Consumed(1))
    ensures SecondReserved(EMPTY, w.relay.registry, q) && w.relay.calls == multiset{}
  {
    states, steps, w := ToReserved(limits, q);
    BothPrepared(limits, q, w.life.row);
    hide Run, Apply, Enabled, ValidClaim, SecondReserved, Prepare;
    Using(limits, q.sessionId, w, 0, 0);
    var one := Apply(limits, q.sessionId, w, UseUp(0, 0));
    states, steps := Append(limits, q.sessionId, states, steps, w, UseUp(0, 0), one);
    assert one.handlers == At(q, Consumed(0), Reserved);
    Using(limits, q.sessionId, one, 1, 1);
    w := Apply(limits, q.sessionId, one, UseUp(1, 1));
    states, steps := Append(limits, q.sessionId, states, steps, one, UseUp(1, 1), w);
    assert w.handlers == At(q, Consumed(0), Consumed(1));
  }

  lemma ToEnded(limits: Limits, q: Request) returns (states: seq<World>, steps: seq<Step>, w: World)
    requires Askable(limits, q)
    ensures Ends(limits, q.sessionId, states, steps, w)
    ensures w.life.row.state == Terminated && w.handlers == At(q, Consumed(0), Consumed(1))
    ensures L.RevokeOp(1, L.SessionEnded) in w.life.pending
    ensures SecondReserved(EMPTY, w.relay.registry, q) && w.relay.calls == multiset{}
  {
    hide Run, L.Apply, SecondReserved;
    states, steps, w := ToConsumed(limits, q);
    EndAsked(w.life);
    var asked := w.(life := L.Queue(w.life, L.TerminateOp("user_ended")));
    states, steps := Append(limits, q.sessionId, states, steps, w, OfLife(L.AskTerminate("user", "")), asked);
    Ended(asked.life);
    w := asked.(life := L.Apply(asked.life, L.DoCommit(L.TerminateOp("user_ended"))));
    states, steps := Append(limits, q.sessionId, states, steps, asked, OfLife(L.DoCommit(L.TerminateOp("user_ended"))),
                            w);
  }

  lemma Revoking(limits: Limits, st: M.State, id: string)
    requires R.InTable(st.registry) && st.registry.sessions == map[id := 0] && |st.registry.table| == 1
    requires st.calls == multiset{}
    ensures var call := M.FailCall(0, Revoked("user_ended"));
            var st' := M.Apply(limits, st, M.DoRevoke(id, "user_ended"));
            && st' == st.(calls := multiset{call}) && M.Enabled(st', M.RunFail(call))
            && M.Apply(limits, st', M.RunFail(call)).registry == R.Fail(st.registry, 0, call.reason)
  {
    hide R.Fail;
  }

  lemma RevokeDone(life: L.Life, op: L.Op)
    requires op.RevokeOp? && op in life.pending
    ensures L.Apply(life, L.DoCommit(op)).row == life.row
  {
  }

  lemma ToRevoked(limits: Limits, q: Request) returns (states: seq<World>, steps: seq<Step>, w: World)
    requires Askable(limits, q)
    ensures Ends(limits, q.sessionId, states, steps, w)
    ensures w.life.row.state == Terminated && w.handlers == At(q, Consumed(0), Consumed(1))
    ensures w.relay.registry.sessions == map[] && |w.relay.registry.table| == 1 && w.relay.registry.table[0].finished
  {
    hide Run, M.Apply, L.Apply, SecondReserved;
    states, steps, w := ToEnded(limits, q);
    var op, reason := L.RevokeOp(1, L.SessionEnded), Revoked("user_ended");
    RevokedAway(w.relay.registry, q, reason);
    Revoking(limits, w.relay, q.sessionId);
    RevokeDone(w.life, op);
    var one := World(L.Apply(w.life, L.DoCommit(op)), M.Apply(limits, w.relay, M.DoRevoke(q.sessionId, "user_ended")),
                     w.handlers);
    states, steps := Append(limits, q.sessionId, states, steps, w, Revoke(op, "user_ended"), one);
    w := one.(relay := M.Apply(limits, one.relay, M.RunFail(M.FailCall(0, reason))));
    states, steps := Append(limits, q.sessionId, states, steps, one, OfRelay(M.RunFail(M.FailCall(0, reason))), w);
  }

  lemma SideJoins(limits: Limits, id: string, w: World, n: nat)
    requires n < |w.handlers| && w.handlers[n].phase.Consumed? && R.InTable(w.relay.registry)
    requires R.Join(limits, w.relay.registry, w.handlers[n].claim, n, 0).Accepted?
    ensures Enabled(id, w, JoinSide(n, 0))
    ensures var w' := Apply(limits, id, w, JoinSide(n, 0));
            && w'.life == w.life
            && w'.relay.registry == R.Join(limits, w.relay.registry, w.handlers[n].claim, n, 0).registry
            && w'.handlers == w.handlers[n := w.handlers[n].(phase := Joined(w.handlers[n].phase.index))]
  {
    hide R.Join;
  }

  lemma SafeRelay(limits: Limits, id: string, states: seq<World>, steps: seq<Step>, w: World)
    requires Ends(limits, id, states, steps, w)
    ensures R.RegistryInv(limits, w.relay.registry)
  {
    hide Run, L.LifeInv, SeatsOk, OneSeat, HandlersOk, OwnCredentials, R.RegistryInv;
    RunIsSafe(limits, id, states, steps, |states| - 1);
  }

  /**
   * For every request that the relay accepts there is a run in which both sides have used their
   * credentials when the operator ends the session and the relay revokes it, and from there, in the last
   * two steps, both join: the relay starts the pumps of a session that the store has as terminated.
   */
  lemma EndedSessionPairs(limits: Limits, q: Request) returns (states: seq<World>, steps: seq<Step>, i: nat, h: nat)
    requires Askable(limits, q)
    ensures Run(limits, q.sessionId, states, steps) && |states| == |steps| + 1 && i + 2 == |steps|
    ensures var w := states[i];
            && w.life.row.state == Terminated && w.handlers == At(q, Consumed(0), Consumed(1))
            && q.sessionId !in w.relay.registry.sessions
            && |w.relay.registry.table| == 1 && w.relay.registry.table[0].finished
    ensures steps[i..] == [JoinSide(0, 0), JoinSide(1, 0)]
    ensures var w := states[i + 2];
            && w.life.row.state == Terminated && w.handlers == At(q, Joined(0), Joined(1))
            && h < |w.relay.registry.table| && w.relay.registry.table[h].started && !w.relay.registry.table[h].finished
  {
    hide Run, Apply, Enabled, R.Join, R.RegistryInv, ValidClaim;
    var w;
    states, steps, w := ToRevoked(limits, q);
    i := |steps|;
    RunLength(limits, q.sessionId, states, steps);
    SafeRelay(limits, q.sessionId, states, steps, w);
    BothJoin(limits, q, w.relay.registry);
    SideJoins(limits, q.sessionId, w, 0);
    var one := Apply(limits, q.sessionId, w, JoinSide(0, 0));
    states, steps := Append(limits, q.sessionId, states, steps, w, JoinSide(0, 0), one);
    assert one.handlers == At(q, Joined(0), Consumed(1));
    SafeRelay(limits, q.sessionId, states, steps, one);
    SideJoins(limits, q.sessionId, one, 1);
    PairedStarts(limits, one.relay.registry, ClaimFor(q, Agent), 1);
    h := R.Join(limits, one.relay.registry, ClaimFor(q, Agent), 1, 0).handle;
    var two := Apply(limits, q.sessionId, one, JoinSide(1, 0));
    states, steps := Append(limits, q.sessionId, states, steps, one, JoinSide(1, 0), two);
    assert two.handlers == At(q, Joined(0), Joined(1));
  }

  lemma RunLength(limits: Limits, id: string, states: seq<World>, steps: seq<Step>)
    requires Run(limits, id, states, steps)
    ensures |states| == |steps| + 1
  {
  }

  // ---- A rejected credential ----

  lemma Rejecting(limits: Limits, id: string, w: World, n: nat, index: nat)
    requires n < |w.handlers| && w.handlers[n].phase.Reserved? && !CanUse(w, w.handlers[n], index)
    ensures Enabled(id, w, UseUp(n, index)) && Apply(limits, id, w, UseUp(n, index)) == Moved(w, n, Gone)
  {
    hide CanUse;
  }

  lemma AgentIsTaken(limits: Limits, q: Request, r: R.Registry, other: Claim, now: int)
    requires ValidLimits(limits) && R.InTable(r) && FirstReserved(EMPTY, r, q)
    requires other.agentId == q.agentId && other.sessionId != q.sessionId && ValidClaim(other, now)
    ensures R.Reserve(limits, r, other, now) == R.Failed(R.LimitExceeded)
  {
    hide ValidClaim;
    assert R.OfAgent(r, other.agentId) == {q.sessionId};
  }

  /** No credential of the session has the hash. */
  ghost predicate Unissued(row: Row, hash: nat)
  {
    forall c <- row.credentials :: c.hash != hash
  }

  /**
   * For every request there is a run in which a browser comes with a credential that nobody issued: the
   * last step turns it away for that, its reservation stays, and the agent's next session, under any
   * other id, is refused.
   */
  lemma RejectedCredentialBlocksAgent(limits: Limits, q: Request, index: nat) returns (states: seq<World>,
                                                                                       steps: seq<Step>)
    requires Askable(limits, q)
    ensures Run(limits, q.sessionId, states, steps) && |states| == |steps| + 1 && |steps| >= 1
    ensures steps[|steps| - 1] == UseUp(0, index)
    ensures var before := states[|steps| - 1];
            && before.handlers == [Handler(ClaimFor(q, Browser), 3, 0, Reserved)] && Unissued(before.life.row, 3)
            && FirstReserved(EMPTY, before.relay.registry, q)
    ensures var w := states[|steps|];
            && |w.handlers| == 1 && w.handlers[0].phase.Gone? && w.relay == states[|steps| - 1].relay
            && R.InTable(w.relay.registry)
            && forall other: Claim, now: int ::
                 other.agentId == q.agentId && other.sessionId != q.sessionId && ValidClaim(other, now)
                 ==> R.Reserve(limits, w.relay.registry, other, now) == R.Failed(R.LimitExceeded)
  {
    hide Run, R.Reserve, Apply, Enabled, ValidClaim, FirstReserved, Prepare, R.Full;
    var w;
    states, steps, w := ToOfferedRow(limits, q);
    BothPrepared(limits, q, w.life.row);
    var one := w.(handlers := [Handler(ClaimFor(q, Browser), 3, 0, Prepared)]);
    Arriving(limits, q, w);
    states, steps := Append(limits, q.sessionId, states, steps, w, Arrive(Browser, "b", 3, q.agentId, 0), one);
    RoomAtFirst(limits, EMPTY, ClaimFor(q, Browser));
    ReserveFirst(limits, EMPTY, q, 0);
    Reserving(limits, q.sessionId, one, 0);
    var two := Apply(limits, q.sessionId, one, ReserveSide(0, 0));
    states, steps := Append(limits, q.sessionId, states, steps, one, ReserveSide(0, 0), two);
    RunLength(limits, q.sessionId, states, steps);
    NobodyIssued(two, index);
    Rejecting(limits, q.sessionId, two, 0, index);
    states, steps := Append(limits, q.sessionId, states, steps, two, UseUp(0, index), Moved(two, 0, Gone));
    var r := two.relay.registry;
    assert R.InTable(r) by { FirstInTable(r, q); }
    forall other: Claim, now: int
      | other.agentId == q.agentId && other.sessionId != q.sessionId && ValidClaim(other, now)
      ensures R.Reserve(limits, r, other, now) == R.Failed(R.LimitExceeded)
    {
      AgentIsTaken(limits, q, r, other, now);
    }
  }

  lemma FirstInTable(r: R.Registry, q: Request)
    requires FirstReserved(EMPTY, r, q)
    ensures R.InTable(r)
  {
  }

  lemma Arriving(limits: Limits, q: Request, w: World)
    requires Askable(limits, q) && w.handlers == []
    requires Prepare(q.sessionId, w.life.row, Browser, "b", q.agentId, 0) == Some(ClaimFor(q, Browser))
    ensures var step := Arrive(Browser, "b", 3, q.agentId, 0);
            && Enabled(q.sessionId, w, step)
            && Apply(limits, q.sessionId, w, step) == w.(handlers := [Handler(ClaimFor(q, Browser), 3, 0, Prepared)])
  {
    hide Prepare, ValidClaim;
  }

  lemma NobodyIssued(w: World, index: nat)
    requires |w.handlers| == 1 && w.handlers[0].hash == 3
    requires Unissued(w.life.row, 3)
    ensures !CanUse(w, w.handlers[0], index)
  {
    hide ValidClaim;
  }
}
