/**
 * Operations that reach the store or the relay after their session has moved to a newer epoch:
 * exactly when each leaves the newer session alone, and runs in which one does not.
 */
module StaleCommits {
  import opened Common
  import opened SessionStore
  import opened SessionLifecycle

  /** Ending a session by its operator and its first offer are meant for whatever epoch is there. */
  predicate HasEpoch(op: Op)
  {
    !op.TerminateOp? && !op.OfferOp?
  }

  /** What a caller can look up before an operation of an older epoch is carried out. */
  predicate Harmless(st: Life, op: Op)
  {
    match op
    case EventOp(k, _, _) => st.row.state !in From(k)
    case FailOfferOp(_) => st.row.state != Reconnecting
    case ReserveOp(_, room) => st.relay.Some? || !room
    case RevokeOp(_, _) => st.relay.None?
    case _ => true
  }

  predicate LeavesAlone(st: Life, st': Life)
  {
    st'.row == st.row && st'.relay == st.relay
  }

  lemma StaleAnswer(row: Row, op: Op)
    requires EpochSane(row) && OpSane(row, op) && HasEpoch(op) && op.epoch < row.epoch
    ensures Commit(row, op).Some? <==>
              (op.EventOp? && row.state in From(op.kind)) || (op.FailOfferOp? && row.state == Reconnecting)
    ensures Commit(row, op).Some? ==> Commit(row, op).value != row
  {
    hide RevokeUsable, NextEpoch;
  }

  lemma PerformsAlone(st: Life, op: Op)
    requires Commit(st.row, op).Some? ==> Commit(st.row, op).value != st.row
    ensures LeavesAlone(st, Perform(st, op)) <==> Commit(st.row, op).None? && RelayAfter(st.relay, op) == st.relay
  {
    hide Commit, Next, RelayAfter;
  }

  /**
   * In every run, an operation of an older epoch leaves the newer session's row and relay alone
   * if and only if it is harmless. Reconnects and transport losses always are: they carry their
   * epoch into the store. Of the revocations only those of failed offers can be stale.
   */
  lemma OlderEpochExactly(states: seq<Life>, steps: seq<Step>, i: nat, op: Op)
    requires Run(states, steps) && i < |states| && op in states[i].pending
    requires HasEpoch(op) && op.epoch < states[i].row.epoch
    ensures LeavesAlone(states[i], Apply(states[i], DoCommit(op))) <==> Harmless(states[i], op)
    ensures op.RevokeOp? ==> op.cause.OfferFailed?
  {
    hide Run, CredentialsCurrent, LogMatches, Commit, EpochSane, From, Perform, LeavesAlone;
    RunIsSane(states, steps, i);
    StaleAnswer(states[i].row, op);
    PerformsAlone(states[i], op);
  }

  lemma InRun(states: seq<Life>, steps: seq<Step>, i: nat)
    requires Run(states, steps) && i < |steps|
    ensures i + 1 < |states| && Enabled(states[i], steps[i]) && states[i + 1] == Apply(states[i], steps[i])
  {
    hide Apply, Enabled, Fresh;
  }

  /** The step of a failed offer's update: carried out, or refused because the store itself failed. */
  predicate Updates(step: Step, op: Op)
  {
    step == DoCommit(op) || step == StoreFails(op)
  }

  /**
   * The whole of a stale failed offer, its update at i and its revocation at j, with whatever steps
   * in between. The two leave the newer session's row and relay alone if and only if the store
   * fails or the session is not reconnecting at i, and the relay does not have it at j.
   */
  lemma StaleOfferExactly(states: seq<Life>, steps: seq<Step>, i: nat, j: nat, e: nat)
    requires Run(states, steps) && i < j < |steps| && e < states[i].row.epoch
    requires Updates(steps[i], FailOfferOp(e)) && steps[j] == DoCommit(RevokeOp(e, OfferFailed))
    ensures j + 1 < |states|
    ensures LeavesAlone(states[i], states[i + 1]) && LeavesAlone(states[j], states[j + 1]) <==>
              (steps[i].StoreFails? || states[i].row.state != Reconnecting) && states[j].relay.None?
    ensures steps[i].DoCommit? && states[i].row.state == Reconnecting ==> states[i + 1].row.state == FailedState
    ensures states[j + 1].relay.None?
  {
    InRun(states, steps, i);
    InRun(states, steps, j);
    EpochMonotone(states, steps, i, j);
    OlderEpochExactly(states, steps, j, RevokeOp(e, OfferFailed));
    hide Run;
    RevokeOnlyRevokes(states[j], e);
    if steps[i].DoCommit? {
      OlderEpochExactly(states, steps, i, FailOfferOp(e));
      FailsRow(states[i], FailOfferOp(e));
    }
  }

  lemma RevokeOnlyRevokes(st: Life, epoch: nat)
    ensures var st' := Perform(st, RevokeOp(epoch, OfferFailed));
            st'.row == st.row && st'.relay.None?
  {
  }

  lemma FailsRow(st: Life, op: Op)
    requires op.FailOfferOp? && op in st.pending
    ensures st.row.state == Reconnecting ==> Apply(st, DoCommit(op)).row.state == FailedState
  {
  }

  // ---- When a reservation enters the relay ----

  /** The steps that take the session out of the relay. */
  predicate Clears(step: Step)
  {
    step.RelayEnds? || (step.DoCommit? && step.op.RevokeOp?)
  }

  lemma RelayStays(st: Life, step: Step)
    requires Enabled(st, step) && st.relay.Some? && !Clears(step)
    ensures Apply(st, step).relay == st.relay
  {
    hide Commit, Next, Consume, Expire, ForceTerminate, InScope, IdempotentLate;
  }

  /** Whatever epoch the relay has stays there until the relay ends it or someone revokes; reconnecting does neither. */
  lemma {:induction false} EpochHoldsRelay(states: seq<Life>, steps: seq<Step>, i: nat, j: nat)
    requires Run(states, steps) && i <= j < |states| && states[i].relay.Some?
    requires forall k :: i <= k < j ==> !Clears(steps[k])
    ensures states[j].relay == states[i].relay
    decreases j
  {
    hide Apply, Fresh, Enabled, Clears;
    if i < j {
      EpochHoldsRelay(states, steps, i, j - 1);
      InRun(states, steps, j - 1);
      assert !Clears(steps[j - 1]);
      RelayStays(states[j - 1], steps[j - 1]);
    }
  }

  /**
   * In every run, once a reservation of the current epoch has been made, the relay has the session in
   * that epoch if and only if it had it there before, or had it not at all and there was room. An older
   * epoch in the relay keeps the current one out.
   */
  lemma CurrentReservationExactly(states: seq<Life>, steps: seq<Step>, i: nat, room: bool)
    requires Run(states, steps) && i < |steps| && steps[i] == DoCommit(ReserveOp(states[i].row.epoch, room))
    ensures i + 1 < |states|
    ensures states[i + 1].relay == Some(states[i].row.epoch) <==>
              states[i].relay == Some(states[i].row.epoch) || (states[i].relay.None? && room)
    ensures states[i].relay.Some? ==>
              states[i].relay.value <= states[i].row.epoch && states[i + 1].relay == states[i].relay
  {
    InRun(states, steps, i);
    RunIsSane(states, steps, i);
    RelayInBounds(states[i]);
    hide Run, LifeInv, Commit, Next;
  }

  // ---- Runs in which a stale operation does harm ----

  const SAMPLE_ROW := Row("home", "agent", "user", Requested, 1, 60, 1000, None, None, [])

  /** A session of the sample's owner in a given state and epoch. */
  predicate Sampled(row: Row, state: SessionState, epoch: nat)
  {
    && row.homeId == "home" && row.agentId == "agent" && row.operator == "user" && row.hardExpiresAt == 1000
    && row.state == state && row.epoch == epoch
  }

  /** A run that ends with such a session, these operations pending and this epoch in the relay. */
  ghost predicate Reaches(states: seq<Life>, steps: seq<Step>, state: SessionState, epoch: nat, relay: Option<nat>,
                          pending: multiset<Op>)
  {
    && Run(states, steps) && |states| > 0
    && Sampled(states[|states| - 1].row, state, epoch)
    && states[|states| - 1].relay == relay && states[|states| - 1].pending == pending
  }

  lemma Extend(states: seq<Life>, steps: seq<Step>, step: Step) returns (states': seq<Life>, steps': seq<Step>)
    requires Run(states, steps) && |states| > 0 && Enabled(states[|states| - 1], step)
    ensures Run(states', steps') && |states'| > 0
    ensures states' == states + [Apply(states[|states| - 1], step)] && steps' == steps + [step]
  {
    hide Apply, Fresh;
    states' := states + [Apply(states[|states| - 1], step)];
    steps' := steps + [step];
  }

  lemma Offering(st: Life)
    requires st.row.state == Requested
    ensures Apply(st, AskOffer) == Queue(st, OfferOp)
  {
  }

  lemma OfferCommitted(st: Life)
    requires Sampled(st.row, Requested, 1) && OfferOp in st.pending
    ensures var st' := Apply(st, DoCommit(OfferOp));
            && Sampled(st'.row, Offered, 1) && st'.relay == st.relay
            && st'.pending == st.pending - multiset{OfferOp} + multiset{SendOfferOp(1)}
  {
  }

  lemma OfferDelivered(st: Life)
    requires SendOfferOp(1) in st.pending
    ensures Apply(st, DoCommit(SendOfferOp(1))) == st.(pending := st.pending - multiset{SendOfferOp(1)})
  {
  }

  /** The session is created and offered, and the agent has the offer. */
  lemma ToOffered() returns (states: seq<Life>, steps: seq<Step>)
    ensures Reaches(states, steps, Offered, 1, None, multiset{})
  {
    hide Run, Apply, Reaches;
    states, steps := [Life(SAMPLE_ROW, None, multiset{}, [])], [];
    Created();
    Offering(states[|states| - 1]);
    states, steps := Extend(states, steps, AskOffer);
    OfferCommitted(states[|states| - 1]);
    states, steps := Extend(states, steps, DoCommit(OfferOp));
    OfferDelivered(states[|states| - 1]);
    states, steps := Extend(states, steps, DoCommit(SendOfferOp(1)));
    assert Reaches(states, steps, Offered, 1, None, multiset{}) by {
      EndsIn(states, steps, Offered, 1, None, multiset{});
    }
  }

  lemma Created()
    ensures Run([Life(SAMPLE_ROW, None, multiset{}, [])], [])
  {
  }

  lemma EndsIn(states: seq<Life>, steps: seq<Step>, state: SessionState, epoch: nat, relay: Option<nat>,
               pending: multiset<Op>)
    requires Run(states, steps) && |states| > 0 && Sampled(states[|states| - 1].row, state, epoch)
    requires states[|states| - 1].relay == relay && states[|states| - 1].pending == pending
    ensures Reaches(states, steps, state, epoch, relay, pending)
  {
  }

  lemma Received(st: Life, k: EventKind, e: nat)
    requires k in {ReadyEvent, ConnectedEvent} && Sampled(st.row, st.row.state, e)
    ensures Apply(st, ReceiveEvent(k, "home", "agent", e, "", 1)) == Queue(st, EventOp(k, e, ""))
  {
  }

  lemma Committed(st: Life, k: EventKind, e: nat, other: nat)
    requires k in {ReadyEvent, ConnectedEvent} && Sampled(st.row, st.row.state, e) && st.row.state in From(k)
    requires EventOp(k, other, "") in st.pending
    ensures var st' := Apply(st, DoCommit(EventOp(k, other, "")));
            && Sampled(st'.row, To(k), e) && st'.relay == st.relay
            && st'.pending == st.pending - multiset{EventOp(k, other, "")}
  {
  }

  /** The agent reports an event of the current epoch, and the report is committed at once. */
  lemma Report(states: seq<Life>, steps: seq<Step>, k: EventKind, state: SessionState, e: nat, relay: Option<nat>,
               pending: multiset<Op>)
    returns (states': seq<Life>, steps': seq<Step>)
    requires Reaches(states, steps, state, e, relay, pending) && k in {ReadyEvent, ConnectedEvent} && state in From(k)
    ensures Reaches(states', steps', To(k), e, relay, pending)
  {
    hide Run, Apply;
    Received(states[|states| - 1], k, e);
    states', steps' := Extend(states, steps, ReceiveEvent(k, "home", "agent", e, "", 1));
    Committed(states'[|states'| - 1], k, e, e);
    states', steps' := Extend(states', steps', DoCommit(EventOp(k, e, "")));
  }

  lemma ToActive() returns (states: seq<Life>, steps: seq<Step>)
    ensures Reaches(states, steps, Active, 1, None, multiset{})
  {
    hide Reaches;
    states, steps := ToOffered();
    states, steps := Report(states, steps, ReadyEvent, Offered, 1, None, multiset{});
    states, steps := Report(states, steps, ConnectedEvent, AgentReady, 1, None, multiset{});
  }

  function SampleRenewal(e: nat): Renewal
  {
    Renewal(1, 1000, 2 * e, 2 * e + 1)
  }

  lemma Renewed(st: Life, e: nat)
    requires Sampled(st.row, st.row.state, e) && st.row.state in {Active, Reconnecting} && 1 <= e < 1000
    requires ReconnectOp(e, SampleRenewal(e)) in st.pending
    ensures var st' := Apply(st, DoCommit(ReconnectOp(e, SampleRenewal(e))));
            && Sampled(st'.row, Reconnecting, e + 1) && st'.relay == st.relay
            && st'.pending == st.pending - multiset{ReconnectOp(e, SampleRenewal(e))} + multiset{SendOfferOp(e + 1)}
  {
    hide BeginReconnect, SampleRenewal;
    RenewedRow(st.row, e);
  }

  lemma RenewedRow(row: Row, e: nat)
    requires Sampled(row, row.state, e) && row.state in {Active, Reconnecting} && 1 <= e < 1000
    ensures var answer := BeginReconnect(row, e, SampleRenewal(e));
            answer.Some? && Sampled(answer.value, Reconnecting, e + 1)
  {
    hide RevokeUsable;
  }

  lemma RenewalAsked(st: Life, e: nat)
    requires Sampled(st.row, st.row.state, e) && st.row.state in {Active, Reconnecting}
    ensures Apply(st, AskReconnect("user", 1, 2 * e, 2 * e + 1)) == Queue(st, ReconnectOp(e, SampleRenewal(e)))
  {
  }

  /** The operator reconnects; the new epoch's offer is on its way. */
  lemma Renew(states: seq<Life>, steps: seq<Step>, state: SessionState, e: nat, relay: Option<nat>,
              pending: multiset<Op>)
    returns (states': seq<Life>, steps': seq<Step>)
    requires Reaches(states, steps, state, e, relay, pending) && state in {Active, Reconnecting} && 1 <= e < 1000
    ensures Reaches(states', steps', Reconnecting, e + 1, relay, pending + multiset{SendOfferOp(e + 1)})
  {
    hide Run, Apply, SampleRenewal;
    RenewalAsked(states[|states| - 1], e);
    states', steps' := Extend(states, steps, AskReconnect("user", 1, 2 * e, 2 * e + 1));
    Renewed(states'[|states'| - 1], e);
    states', steps' := Extend(states', steps', DoCommit(ReconnectOp(e, SampleRenewal(e))));
  }

  /** A run in which a repeated "connected" of epoch 1 activates epoch 2 before anyone has joined it. */
  lemma StaleEventWitness() returns (states: seq<Life>, steps: seq<Step>, op: Op)
    ensures op == EventOp(ConnectedEvent, 1, "")
    ensures Reaches(states, steps, Reconnecting, 2, None, multiset{op, SendOfferOp(2)})
    ensures Sampled(Apply(states[|states| - 1], DoCommit(op)).row, Active, 2)
  {
    hide Run, Apply;
    op := EventOp(ConnectedEvent, 1, "");
    states, steps := ToActive();
    Received(states[|states| - 1], ConnectedEvent, 1);
    states, steps := Extend(states, steps, ReceiveEvent(ConnectedEvent, "home", "agent", 1, "", 1));
    states, steps := Renew(states, steps, Active, 1, None, multiset{op});
    Committed(states[|states| - 1], ConnectedEvent, 2, 1);
  }

  /**
   * A run in which the offer of epoch 2 fails after the session has gone on to epoch 3, where it
   * is still reconnecting: the late failure ends epoch 3.
   */
  lemma StaleOfferFailsSession() returns (states: seq<Life>, steps: seq<Step>, op: Op)
    ensures op == FailOfferOp(2)
    ensures Reaches(states, steps, Reconnecting, 3, None, multiset{op, SendOfferOp(3)})
    ensures Apply(states[|states| - 1], DoCommit(op)).row.state == FailedState
  {
    hide Run, Apply;
    op := FailOfferOp(2);
    states, steps := ToActive();
    states, steps := Renew(states, steps, Active, 1, None, multiset{});
    states, steps := Renew(states, steps, Reconnecting, 2, None, multiset{SendOfferOp(2)});
    assert SendOfferOp(2) in multiset{SendOfferOp(2)} + multiset{SendOfferOp(3)};
    SecondOfferFails(states[|states| - 1]);
    states, steps := Extend(states, steps, OfferFails(2));
    FailsRow(states[|states| - 1], op);
  }

  lemma SecondOfferFails(st: Life)
    requires st.pending == multiset{SendOfferOp(2), SendOfferOp(3)}
    ensures Apply(st, OfferFails(2)) == st.(pending := multiset{FailOfferOp(2), SendOfferOp(3)})
  {
  }

  lemma Reserved(st: Life, e: nat)
    requires st.relay.None? && ReserveOp(e, true) in st.pending
    ensures Apply(st, DoCommit(ReserveOp(e, true)))
         == st.(relay := Some(e), pending := st.pending - multiset{ReserveOp(e, true)})
  {
  }

  lemma JoinAsked(st: Life, e: nat)
    requires Sampled(st.row, st.row.state, e) && Joinable(st.row.state) && 1 <= e
    ensures Apply(st, AskJoin(1, true)) == Queue(st, ReserveOp(e, true))
  {
  }

  lemma OfferRefused(st: Life, op: Op)
    requires op.FailOfferOp? && op in st.pending && st.row.state == Active
    ensures Apply(st, DoCommit(op))
         == st.(pending := st.pending - multiset{op} + multiset{RevokeOp(op.epoch, OfferFailed)})
  {
  }

  lemma Revoking(st: Life, e: nat)
    requires RevokeOp(e, OfferFailed) in st.pending
    ensures Apply(st, DoCommit(RevokeOp(e, OfferFailed)))
         == st.(relay := None, pending := st.pending - multiset{RevokeOp(e, OfferFailed)})
  {
  }

  /**
   * A run in which epoch 3 has joined and is active when the offer of epoch 2 fails: the store
   * refuses the update, and the revocation that follows all the same ends the live connection.
   */
  lemma StaleOfferCutsConnection() returns (states: seq<Life>, steps: seq<Step>, op: Op)
    ensures op == FailOfferOp(2)
    ensures Reaches(states, steps, Active, 3, Some(3), multiset{op, SendOfferOp(3)})
    ensures var st := states[|states| - 1];
            var st' := Apply(st, DoCommit(op));
            && st'.row == st.row && st'.relay == Some(3)
            && RevokeOp(2, OfferFailed) in st'.pending
            && Apply(st', DoCommit(RevokeOp(2, OfferFailed))).relay.None?
  {
    hide Run, Apply;
    states, steps, op := StaleOfferFailsSession();
    JoinAsked(states[|states| - 1], 3);
    states, steps := Extend(states, steps, AskJoin(1, true));
    Reserved(states[|states| - 1], 3);
    states, steps := Extend(states, steps, DoCommit(ReserveOp(3, true)));
    states, steps := Report(states, steps, ConnectedEvent, Reconnecting, 3, Some(3), multiset{op, SendOfferOp(3)});
    OfferRefused(states[|states| - 1], op);
    Revoking(Apply(states[|states| - 1], DoCommit(op)), 2);
  }

  /**
   * A run in which the session is active and unknown to the relay when the offer of epoch 2 fails,
   * so that the update leaves it alone, and joins the relay before the revocation, which cuts it off.
   */
  lemma StaleRevocationOvertaken() returns (states: seq<Life>, steps: seq<Step>, i: nat)
    ensures Run(states, steps) && i + 2 == |steps| - 1 && |states| == |steps| + 1
    ensures steps[i..] == [DoCommit(FailOfferOp(2)), DoCommit(ReserveOp(3, true)), DoCommit(RevokeOp(2, OfferFailed))]
    ensures Sampled(states[i].row, Active, 3) && states[i].relay.None?
    ensures states[i + 2].relay == Some(3) && states[i + 3].relay.None? && states[i + 3].row == states[i].row
  {
    hide Run, Apply, Sampled;
    states, steps := JoiningMeanwhile();
    RunLength(states, steps);
    i := |steps|;
    var st := states[i];
    Overtaken(st);
    states, steps := Extend(states, steps, DoCommit(FailOfferOp(2)));
    states, steps := Extend(states, steps, DoCommit(ReserveOp(3, true)));
    states, steps := Extend(states, steps, DoCommit(RevokeOp(2, OfferFailed)));
  }

  lemma JoiningMeanwhile() returns (states: seq<Life>, steps: seq<Step>)
    ensures Reaches(states, steps, Active, 3, None, multiset{FailOfferOp(2), SendOfferOp(3), ReserveOp(3, true)})
  {
    hide Run, Apply;
    var op;
    states, steps, op := StaleOfferFailsSession();
    JoinAsked(states[|states| - 1], 3);
    states, steps := Extend(states, steps, AskJoin(1, true));
    states, steps := Report(states, steps, ConnectedEvent, Reconnecting, 3, None,
                            multiset{op, SendOfferOp(3), ReserveOp(3, true)});
  }

  /** Refused update, reservation, revocation. */
  lemma Overtaken(st: Life)
    requires Sampled(st.row, Active, 3) && st.relay.None?
    requires st.pending == multiset{FailOfferOp(2), SendOfferOp(3), ReserveOp(3, true)}
    ensures var one := Apply(st, DoCommit(FailOfferOp(2)));
            && Enabled(one, DoCommit(ReserveOp(3, true)))
            && (var two := Apply(one, DoCommit(ReserveOp(3, true)));
                && two.relay == Some(3) && Enabled(two, DoCommit(RevokeOp(2, OfferFailed)))
                && (var three := Apply(two, DoCommit(RevokeOp(2, OfferFailed)));
                    three.relay.None? && three.row == st.row))
  {
    hide Apply;
    OfferRefused(st, FailOfferOp(2));
    var one := Apply(st, DoCommit(FailOfferOp(2)));
    Reserved(one, 3);
    Revoking(Apply(one, DoCommit(ReserveOp(3, true))), 2);
  }

  /**
   * A run in which a claim prepared in epoch 2 reserves after the session has gone on to epoch 3: the
   * last step puts epoch 2 into a relay that had nothing, and a reservation of epoch 3 changes nothing.
   */
  lemma StaleReservationBlocks() returns (states: seq<Life>, steps: seq<Step>)
    ensures Reaches(states, steps, Reconnecting, 3, Some(2), multiset{SendOfferOp(2), SendOfferOp(3)})
    ensures |steps| >= 1 && |states| == |steps| + 1 && steps[|steps| - 1] == DoCommit(ReserveOp(2, true))
    ensures var before := states[|steps| - 1];
            Sampled(before.row, Reconnecting, 3) && before.relay.None? && ReserveOp(2, true) in before.pending
    ensures forall room :: RelayAfter(states[|steps|].relay, ReserveOp(3, room)) == Some(2)
  {
    hide Run, Apply;
    states, steps := ToActive();
    states, steps := Renew(states, steps, Active, 1, None, multiset{});
    JoinAsked(states[|states| - 1], 2);
    states, steps := Extend(states, steps, AskJoin(1, true));
    states, steps := Renew(states, steps, Reconnecting, 2, None, multiset{SendOfferOp(2), ReserveOp(2, true)});
    RunLength(states, steps);
    Reserved(states[|states| - 1], 2);
    states, steps := Extend(states, steps, DoCommit(ReserveOp(2, true)));
  }

  /**
   * A run without anything stale: epoch 2 reserves while it is current, the operator reconnects in the
   * last two steps, and the relay still has epoch 2, so that epoch 3 cannot enter.
   */
  lemma ReconnectLeavesOldEpoch() returns (states: seq<Life>, steps: seq<Step>, i: nat)
    ensures Run(states, steps) && i + 2 == |steps| && |states| == |steps| + 1
    ensures Sampled(states[i].row, Reconnecting, 2) && states[i].relay == Some(2)
    ensures steps[i..] == [AskReconnect("user", 1, 4, 5), DoCommit(ReconnectOp(2, SampleRenewal(2)))]
    ensures Sampled(states[i + 2].row, Reconnecting, 3) && states[i + 2].relay == Some(2)
    ensures forall room :: RelayAfter(states[i + 2].relay, ReserveOp(3, room)) == Some(2)
  {
    hide Run, Apply, Sampled, SampleRenewal;
    states, steps := ReservedInTime();
    RunLength(states, steps);
    i := |steps|;
    var st := states[i];
    RenewalAsked(st, 2);
    states, steps := Extend(states, steps, AskReconnect("user", 1, 4, 5));
    Renewed(states[|states| - 1], 2);
    states, steps := Extend(states, steps, DoCommit(ReconnectOp(2, SampleRenewal(2))));
  }

  lemma ReservedInTime() returns (states: seq<Life>, steps: seq<Step>)
    ensures Reaches(states, steps, Reconnecting, 2, Some(2), multiset{SendOfferOp(2)})
    ensures |states| > 0 && states[|states| - 1].row.state == Reconnecting
    ensures Sampled(states[|states| - 1].row, states[|states| - 1].row.state, 2)
  {
    hide Run, Apply;
    states, steps := ToActive();
    states, steps := Renew(states, steps, Active, 1, None, multiset{});
    JoinAsked(states[|states| - 1], 2);
    states, steps := Extend(states, steps, AskJoin(1, true));
    Reserved(states[|states| - 1], 2);
    states, steps := Extend(states, steps, DoCommit(ReserveOp(2, true)));
  }

  lemma RunLength(states: seq<Life>, steps: seq<Step>)
    requires Run(states, steps)
    ensures |states| == |steps| + 1
  {
  }
}
