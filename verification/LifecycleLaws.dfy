/**
 * What every operation on a stored session comes to, written out state by state, and where every
 * pending operation comes from.
 */
module LifecycleLaws {
  import opened Common
  import opened RelayTypes
  import opened SessionStore
  import opened SessionLifecycle

  lemma RunStep(states: seq<Life>, steps: seq<Step>, i: nat)
    requires Run(states, steps) && i < |steps|
    ensures i + 1 < |states| && Enabled(states[i], steps[i]) && states[i + 1] == Apply(states[i], steps[i])
  {
    hide Apply, Enabled, Fresh;
  }

  /** Not ended yet. */
  predicate Alive(s: SessionState)
  {
    || s == Requested || s == Offered || s == AgentReady
    || s == Joining || s == Active || s == Reconnecting
  }

  /** Every credential is used or withdrawn, and nothing else about any of them has changed. */
  ghost predicate Withdrawn(cs: seq<Credential>, cs': seq<Credential>)
  {
    |cs'| == |cs| && forall k :: 0 <= k < |cs| ==> cs'[k] == cs[k].(revoked := cs[k].revoked || !cs[k].consumed)
  }

  /** The row has ended in the state for the reason. */
  ghost predicate EndedAs(row: Row, row': Row, state: SessionState, reason: string)
  {
    && row' == row.(state := state, reason := Some(reason), credentials := row'.credentials)
    && Withdrawn(row.credentials, row'.credentials)
  }

  /** The row has moved on, with no reason. */
  predicate MovedTo(row: Row, row': Row, state: SessionState)
  {
    row' == row.(state := state, reason := None)
  }

  lemma EndIs(row: Row, to: SessionState, reason: string)
    ensures EndedAs(row, End(row, to, reason), to, reason)
  {
  }

  // ---- Outcomes on the row ----

  /** What one operation makes of a row: what it must be for the operation to take, and what it is then. */
  ghost predicate Outcome(row: Row, op: Op, row': Row)
  {
    match op
    case EventOp(ReadyEvent, _, _) => if row.state == Offered then MovedTo(row, row', AgentReady) else row' == row
    case EventOp(ConnectedEvent, _, _) =>
      if row.state == AgentReady || row.state == Joining || row.state == Reconnecting then MovedTo(row, row', Active)
      else row' == row
    case EventOp(DisconnectedEvent, _, _) =>
      if row.state == Active then MovedTo(row, row', Reconnecting) else row' == row
    case EventOp(ErrorEvent, _, reason) =>
      if Alive(row.state) then EndedAs(row, row', FailedState, reason) else row' == row
    case EventOp(TerminatedEvent, _, reason) =>
      if Alive(row.state) then EndedAs(row, row', Terminated, reason) else row' == row
    case TerminateOp(reason) => if Alive(row.state) then EndedAs(row, row', Terminated, reason) else row' == row
    case OfferOp => if row.state == Requested then MovedTo(row, row', Offered) else row' == row
    case FailOfferOp(_) =>
      if row.state == Requested || row.state == Offered || row.state == Reconnecting then
        EndedAs(row, row', FailedState, "agent_offer_failed")
      else row' == row
    case LostOp(epoch, expiresAt, at) =>
      if row.state == Active && row.epoch == epoch && at < expiresAt <= row.hardExpiresAt then
        row' == row.(state := Reconnecting, reconnectExpiresAt := Some(expiresAt))
      else row' == row
    case ReconnectOp(epoch, n) =>
      if (row.state == Active || row.state == Reconnecting) && row.epoch == epoch
         && n.createdAt < n.expiresAt <= row.hardExpiresAt && n.browserHash != n.agentHash && epoch < 4_294_967_295
      then RenewedBy(row, row', n)
      else row' == row
    case _ => row' == row
  }

  /** The next epoch: the old credentials withdrawn, one new one for each side behind them. */
  ghost predicate RenewedBy(row: Row, row': Row, n: Renewal)
  {
    var k := |row.credentials|;
    && row' == row.(state := Reconnecting, epoch := row.epoch + 1, reconnectExpiresAt := Some(n.expiresAt),
                    credentials := row'.credentials)
    && |row'.credentials| == k + 2 && Withdrawn(row.credentials, row'.credentials[..k])
    && (var b, a := row'.credentials[k], row'.credentials[k + 1];
        && b.side.Browser? && b.hash == n.browserHash && a.side.Agent? && a.hash == n.agentHash
        && b.epoch == a.epoch == row.epoch + 1 && b.expiresAt == a.expiresAt == n.expiresAt
        && Usable(b) && Usable(a))
  }

  lemma RenewalOutcome(row: Row, epoch: nat, n: Renewal)
    requires 1 <= epoch <= row.epoch < EPOCH_MODULUS
    ensures var answer := BeginReconnect(row, epoch, n);
            Outcome(row, ReconnectOp(epoch, n), if answer.Some? then answer.value else row)
  {
    var answer := BeginReconnect(row, epoch, n);
    assert epoch < EPOCH_MODULUS - 1 ==> NextEpoch(epoch) == epoch + 1;
    assert epoch == EPOCH_MODULUS - 1 ==> NextEpoch(epoch) == 0;
    if answer.Some? {
      var k := |row.credentials|;
      assert answer.value.credentials[..k] == RevokeUsable(row.credentials);
    }
  }

  lemma TransitionOutcome(row: Row, from: set<SessionState>, to: SessionState, reason: string)
    requires IsTerminal(to) ==> reason != ""
    ensures var answer := Transition(row, from, to, reason);
            var row' := if answer.Some? then answer.value else row;
            if row.state in from && CanTransition(row.state, to) then
              (if IsTerminal(to) then EndedAs(row, row', to, reason) else MovedTo(row, row', to))
            else row' == row
  {
    hide EndedAs, CanTransition;
    EndIs(row, to, reason);
  }

  lemma CommitOutcome(row: Row, op: Op)
    requires OpSane(row, op) && EpochSane(row) && (op.TerminateOp? ==> op.reason != "")
    ensures var answer := Commit(row, op);
            Outcome(row, op, if answer.Some? then answer.value else row)
  {
    hide EndedAs, MovedTo, Transition, BeginReconnect;
    match op
    case EventOp(k, _, reason) => TransitionOutcome(row, From(k), To(k), reason);
    case ReconnectOp(epoch, n) => RenewalOutcome(row, epoch, n);
    case TerminateOp(reason) => TransitionOutcome(row, LIVE, Terminated, reason);
    case OfferOp => TransitionOutcome(row, {Requested}, Offered, "");
    case FailOfferOp(_) => TransitionOutcome(row, {Requested, Offered, Reconnecting}, FailedState,
                                             "agent_offer_failed");
    case _ =>
  }

  // ---- Where pending operations come from ----

  function Earlier(at: int, hard: int): int
  {
    if at <= hard then at else hard
  }

  function Or(text: string, otherwise: string): string
  {
    if text == "" then otherwise else text
  }

  function EventReason(k: EventKind, reason: string): string
  {
    match k
    case ErrorEvent => Or(reason, "agent_error")
    case TerminatedEvent => Or(reason, "agent_terminated")
    case _ => reason
  }

  /** The step, taken in the state, is what asks for the operation. */
  ghost predicate Asks(st: Life, step: Step, op: Op)
  {
    var row := st.row;
    match op
    case EventOp(k, epoch, reason) =>
      && step.ReceiveEvent? && step.kind == k && k != OtherEvent
      && step.homeId == row.homeId && step.agentId == row.agentId && step.epoch == epoch == row.epoch
      && step.now < row.hardExpiresAt && reason == EventReason(k, step.reason)
      && (k == ErrorEvent || k == TerminatedEvent ==> Alive(row.state))
    case ReconnectOp(epoch, n) =>
      && step.AskReconnect? && step.user == row.operator && step.now < row.hardExpiresAt
      && (row.state == Active || row.state == Reconnecting) && epoch == row.epoch
      && n == Renewal(step.now, Earlier(step.now + 90_000_000_000, row.hardExpiresAt), step.browserHash, step.agentHash)
    case TerminateOp(reason) =>
      step.AskTerminate? && step.user == row.operator && Alive(row.state) && reason == Or(step.reason, "user_ended")
    case LostOp(epoch, expiresAt, at) =>
      && step == RelayClosed(epoch, at) && row.state == Active && row.epoch == epoch
      && expiresAt == Earlier(at + 90_000_000_000, row.hardExpiresAt)
    case OfferOp => step == AskOffer
    case SendOfferOp(epoch) =>
      && step.DoCommit? && (step.op.OfferOp? || step.op.ReconnectOp?)
      && Commit(row, step.op).Some? && Commit(row, step.op).value.epoch == epoch
    case FailOfferOp(epoch) => step == OfferFails(epoch)
    case ReserveOp(epoch, room) =>
      && step.AskJoin? && step.room == room && Joinable(row.state) && step.now < row.hardExpiresAt
      && 1 <= epoch == row.epoch
    case RevokeOp(epoch, OfferFailed) => step == DoCommit(FailOfferOp(epoch)) || step == StoreFails(FailOfferOp(epoch))
    case RevokeOp(epoch, SessionEnded) => epoch == row.epoch && (!Alive(row.state) || !Alive(Then(st, step).row.state))
  }

  /** The state after the step, or the state itself where the step is not possible. */
  function Then(st: Life, step: Step): Life
  {
    if Enabled(st, step) then Apply(st, step) else st
  }

  lemma CommitAsks(st: Life, done: Op, op: Op)
    requires LifeInv(st) && done in st.pending && op in Next(done, Commit(st.row, done))
    ensures Asks(st, DoCommit(done), op)
  {
    hide EpochSane, CredentialsCurrent, LogMatches, BeginReconnect, MarkTransportLost, CanTransition;
    if Commit(st.row, done).Some? {
      CommitIsGood(st.row, done);
    }
  }

  /** A step that queues something queues one operation, and asks for that one. */
  lemma EventAsks(st: Life, step: Step, op: Op)
    requires step.ReceiveEvent? && op in Apply(st, step).pending && op !in st.pending
    ensures Asks(st, step, op)
  {
    hide Commit;
  }

  lemma ReconnectAsks(st: Life, step: Step, op: Op)
    requires step.AskReconnect? && op in Apply(st, step).pending && op !in st.pending
    ensures Asks(st, step, op)
  {
    hide Commit;
  }

  lemma TerminateAsks(st: Life, step: Step, op: Op)
    requires step.AskTerminate? && op in Apply(st, step).pending && op !in st.pending
    ensures Asks(st, step, op)
  {
    hide Commit;
  }

  lemma CloseAsks(st: Life, step: Step, op: Op)
    requires (step.RelayClosed? || step.AskOffer? || step.AskJoin?) && op in Apply(st, step).pending
    requires op !in st.pending
    ensures Asks(st, step, op)
  {
    hide Commit;
  }

  lemma FailureAsks(st: Life, step: Step, op: Op)
    requires (step.OfferFails? || step.StoreFails?) && Enabled(st, step)
    requires op in Apply(st, step).pending && op !in st.pending
    ensures Asks(st, step, op)
  {
    hide Commit;
  }

  lemma EndAsks(st: Life, step: Step, op: Op)
    requires (step.RevokeTrust? || step.Sweep? || step.UseCredential? || step.RelayEnds?)
    requires op in Apply(st, step).pending && op !in st.pending
    ensures Asks(st, step, op)
  {
    hide Commit, Consume, Expire;
  }

  lemma NewOpIsAsked(st: Life, step: Step, op: Op)
    requires LifeInv(st) && Enabled(st, step) && op in Apply(st, step).pending && op !in st.pending
    ensures Asks(st, step, op)
  {
    if step.DoCommit? {
      CommittedAsks(st, step.op, op);
    } else {
      hide Apply, Asks, LifeInv;
      match step
      case ReceiveEvent(_, _, _, _, _, _) => EventAsks(st, step, op);
      case AskReconnect(_, _, _, _) => ReconnectAsks(st, step, op);
      case AskTerminate(_, _) => TerminateAsks(st, step, op);
      case RelayClosed(_, _) => CloseAsks(st, step, op);
      case AskOffer => CloseAsks(st, step, op);
      case AskJoin(_, _) => CloseAsks(st, step, op);
      case OfferFails(_) => FailureAsks(st, step, op);
      case StoreFails(_) => FailureAsks(st, step, op);
      case UseCredential(_, _, _, _, _) => EndAsks(st, step, op);
      case Sweep(_) => EndAsks(st, step, op);
      case RevokeTrust(_) => EndAsks(st, step, op);
      case RelayEnds => EndAsks(st, step, op);
      case DoCommit(_) =>
    }
  }

  lemma CommittedAsks(st: Life, done: Op, op: Op)
    requires LifeInv(st) && done in st.pending && op in Apply(st, DoCommit(done)).pending && op !in st.pending
    ensures Asks(st, DoCommit(done), op)
  {
    hide LifeInv, Commit, Next, Asks, RelayAfter;
    assert op in Next(done, Commit(st.row, done));
    CommitAsks(st, done, op);
  }

  /** In every run each pending operation was asked for at an earlier step, by someone entitled to it. */
  lemma {:induction false} EveryOpWasAsked(states: seq<Life>, steps: seq<Step>, i: nat, op: Op) returns (k: nat)
    requires Run(states, steps) && i < |states| && op in states[i].pending
    ensures k < i && k < |steps| && Asks(states[k], steps[k], op)
  {
    hide LifeInv, Apply, Enabled, Asks;
    if i == 0 {
      NothingAtFirst(states, steps);
      assert false;
    } else if op in states[i - 1].pending {
      k := EveryOpWasAsked(states, steps, i - 1, op);
      Shorter(states, steps);
    } else {
      Shorter(states, steps);
      RunStep(states, steps, i - 1);
      assert LifeInv(states[i - 1]) by { RunIsSane(states, steps, i - 1); }
      hide Run;
      NewOpIsAsked(states[i - 1], steps[i - 1], op);
      k := i - 1;
    }
  }

  lemma EventPending(st: Life, step: Step, op: Op)
    requires Enabled(st, step) && Asks(st, step, op) && op.EventOp?
    ensures op in Apply(st, step).pending
  {
    hide Commit;
  }

  lemma ReconnectPending(st: Life, step: Step, op: Op)
    requires Enabled(st, step) && Asks(st, step, op) && op.ReconnectOp?
    ensures op in Apply(st, step).pending
  {
    hide Commit;
  }

  lemma TerminatePending(st: Life, step: Step, op: Op)
    requires Enabled(st, step) && Asks(st, step, op) && op.TerminateOp?
    ensures op in Apply(st, step).pending
  {
    hide Commit;
  }

  lemma ClosePending(st: Life, step: Step, op: Op)
    requires Enabled(st, step) && Asks(st, step, op) && (op.LostOp? || op.OfferOp? || op.ReserveOp?)
    ensures op in Apply(st, step).pending
  {
    hide Commit;
  }

  lemma OfferPending(st: Life, step: Step, op: Op)
    requires Enabled(st, step) && Asks(st, step, op) && (op.SendOfferOp? || op.FailOfferOp?)
    ensures op in Apply(st, step).pending
  {
    hide Commit, RelayAfter;
  }

  /** And what is asked for is pending from then on. */
  lemma AskedIsPending(st: Life, step: Step, op: Op)
    requires Enabled(st, step) && Asks(st, step, op) && !op.RevokeOp?
    ensures op in Apply(st, step).pending
  {
    hide Apply, Asks, Enabled;
    if op.EventOp? {
      EventPending(st, step, op);
    } else if op.ReconnectOp? {
      ReconnectPending(st, step, op);
    } else if op.TerminateOp? {
      TerminatePending(st, step, op);
    } else if op.LostOp? || op.OfferOp? || op.ReserveOp? {
      ClosePending(st, step, op);
    } else {
      OfferPending(st, step, op);
    }
  }

  /** Whoever ends a session goes on to revoke it at the relay; a failed offer does so either way. */
  lemma EndingIsPassedOn(st: Life, op: Op)
    requires op in st.pending
    ensures Commit(st.row, op).Some?
            && (op.TerminateOp? || (op.EventOp? && (op.kind.ErrorEvent? || op.kind.TerminatedEvent?)))
            ==> RevokeOp(Commit(st.row, op).value.epoch, SessionEnded) in Apply(st, DoCommit(op)).pending
    ensures op.FailOfferOp? ==> RevokeOp(op.epoch, OfferFailed) in Apply(st, DoCommit(op)).pending
    ensures op.FailOfferOp? ==> RevokeOp(op.epoch, OfferFailed) in Apply(st, StoreFails(op)).pending
  {
    hide Commit, RelayAfter;
  }

  /** Whoever finds a session ended, or ends it by revoked trust, revokes it too. */
  lemma EndIsNoticed(st: Life, step: Step)
    requires st.row.state == Terminated || st.row.state == FailedState
             || st.row.state == Expired || st.row.state == Denied
    requires (step.AskTerminate? && step.user == st.row.operator)
             || (step.ReceiveEvent? && (step.kind.ErrorEvent? || step.kind.TerminatedEvent?)
                 && step.homeId == st.row.homeId && step.agentId == st.row.agentId && step.epoch == st.row.epoch
                 && step.now < st.row.hardExpiresAt)
    ensures RevokeOp(st.row.epoch, SessionEnded) in Apply(st, step).pending && Apply(st, step).row == st.row
  {
  }

  lemma RevokedTrustIsPassedOn(st: Life, reason: string)
    requires Alive(st.row.state)
    ensures RevokeOp(st.row.epoch, SessionEnded) in Apply(st, RevokeTrust(reason)).pending
  {
    hide ForceTerminate;
  }

  lemma NothingAtFirst(states: seq<Life>, steps: seq<Step>)
    requires Run(states, steps)
    ensures |states| > 0 && states[0].pending == multiset{}
  {
  }

  lemma Shorter(states: seq<Life>, steps: seq<Step>)
    requires Run(states, steps)
    ensures |states| == |steps| + 1
  {
  }

  // ---- In every run ----

  lemma TerminationHasReason(states: seq<Life>, steps: seq<Step>, i: nat, op: Op)
    requires Run(states, steps) && i < |states| && op in states[i].pending && op.TerminateOp?
    ensures op.reason != ""
  {
    hide Run;
    var k := EveryOpWasAsked(states, steps, i, op);
  }

  /** Every operation that is carried out in a run has exactly the outcome written above. */
  lemma CommitExactly(states: seq<Life>, steps: seq<Step>, i: nat)
    requires Run(states, steps) && i < |steps| && steps[i].DoCommit?
    ensures i + 1 < |states| && Outcome(states[i].row, steps[i].op, states[i + 1].row)
  {
    var op := steps[i].op;
    RunStep(states, steps, i);
    RunIsSane(states, steps, i);
    RowOf(states[i]);
    RelayInBounds(states[i]);
    if op.TerminateOp? {
      TerminationHasReason(states, steps, i, op);
    }
    hide Run, LifeInv, OpSane, EpochSane, Commit, Outcome, Next, RelayAfter, CredentialsCurrent;
    CommitOutcome(states[i].row, op);
  }

  /** The sweep ends exactly the rows whose time is over, each for its own reason. */
  lemma SweepExactly(st: Life, now: int)
    ensures var row, row' := st.row, Apply(st, Sweep(now)).row;
            if Alive(row.state) && row.hardExpiresAt <= now then EndedAs(row, row', Expired, "hard_expired")
            else if row.state == Reconnecting && row.reconnectExpiresAt.Some?
                    && row.reconnectExpiresAt.value <= now then
              EndedAs(row, row', Expired, "reconnect_expired")
            else if (row.state == Requested || row.state == Offered || row.state == AgentReady || row.state == Joining)
                    && row.joinExpiresAt <= now then
              EndedAs(row, row', Expired, "join_expired")
            else row' == row
  {
    EndIs(st.row, Expired, ExpiryReason(st.row, now));
    hide EndedAs, End;
  }

  /** Revoked trust ends exactly a session that has not ended. */
  lemma RevokedTrustExactly(st: Life, reason: string)
    ensures var row, row' := st.row, Apply(st, RevokeTrust(reason)).row;
            if Alive(row.state) then EndedAs(row, row', Terminated, reason) else row' == row
  {
    EndIs(st.row, Terminated, reason);
    hide EndedAs, End;
  }

  /** A credential is used exactly when hash, side and epoch are its own, it is unused, unwithdrawn and unexpired. */
  lemma UseExactly(st: Life, k: nat, hash: nat, side: Side, epoch: nat, now: int)
    requires k < |st.row.credentials|
    ensures var c, row' := st.row.credentials[k], Apply(st, UseCredential(k, hash, side, epoch, now)).row;
            if epoch >= 1 && c.hash == hash && c.side == side && c.epoch == epoch
               && !c.consumed && !c.revoked && now < c.expiresAt
            then row' == st.row.(credentials := st.row.credentials[k := c.(consumed := true)])
            else row' == st.row
  {
  }

  /** A session never changes hands: home, agent, operator and hard expiry are those it was created with. */
  lemma {:induction false} IdentityStays(states: seq<Life>, steps: seq<Step>, i: nat)
    requires Run(states, steps) && i < |states|
    ensures var row, row0 := states[i].row, states[0].row;
            && row.homeId == row0.homeId && row.agentId == row0.agentId && row.operator == row0.operator
            && row.hardExpiresAt == row0.hardExpiresAt && row.joinExpiresAt == row0.joinExpiresAt
  {
    hide Apply, Enabled, Fresh;
    if i > 0 {
      IdentityStays(states, steps, i - 1);
      StepKeepsIdentity(states[i - 1], steps[i - 1]);
    }
  }

  lemma CommitKeepsIdentity(row: Row, op: Op)
    requires Commit(row, op).Some?
    ensures var row' := Commit(row, op).value;
            && row'.homeId == row.homeId && row'.agentId == row.agentId && row'.operator == row.operator
            && row'.hardExpiresAt == row.hardExpiresAt && row'.joinExpiresAt == row.joinExpiresAt
  {
    hide RevokeUsable, CanTransition, NextEpoch;
  }

  lemma StepKeepsIdentity(st: Life, step: Step)
    requires Enabled(st, step)
    ensures var row, row' := st.row, Apply(st, step).row;
            && row'.homeId == row.homeId && row'.agentId == row.agentId && row'.operator == row.operator
            && row'.hardExpiresAt == row.hardExpiresAt && row'.joinExpiresAt == row.joinExpiresAt
  {
    hide Commit, RevokeUsable, Next, RelayAfter, InScope, IdempotentLate;
    if step.DoCommit? && Commit(st.row, step.op).Some? {
      CommitKeepsIdentity(st.row, step.op);
    }
  }
}
