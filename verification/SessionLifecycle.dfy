/**
 * The life of one desktop session under concurrent handlers. A handler reads the row, decides,
 * and acts later; `pending` holds what is still on its way to the store, the relay or the agent.
 */
module SessionLifecycle {
  import opened Common
  import opened RelayTypes
  import opened SessionStore

  datatype EventKind = ReadyEvent | ConnectedEvent | DisconnectedEvent | ErrorEvent | TerminatedEvent | OtherEvent

  function From(k: EventKind): set<SessionState>
  {
    match k
    case ReadyEvent => {Offered}
    case ConnectedEvent => {AgentReady, Joining, Reconnecting}
    case DisconnectedEvent => {Active}
    case ErrorEvent => LIVE
    case TerminatedEvent => LIVE
    case OtherEvent => {}
  }

  function To(k: EventKind): SessionState
  {
    match k
    case ReadyEvent => AgentReady
    case ConnectedEvent => Active
    case DisconnectedEvent => Reconnecting
    case ErrorEvent => FailedState
    case _ => Terminated
  }

  /** A terminal event for a session that has already ended is dropped. */
  predicate IdempotentLate(s: SessionState, k: EventKind)
  {
    (k.TerminatedEvent? || k.ErrorEvent?) && IsTerminal(s)
  }

  function ReasonFor(k: EventKind, reason: string): string
  {
    if reason != "" then reason
    else if k.ErrorEvent? then "agent_error"
    else if k.TerminatedEvent? then "agent_terminated"
    else ""
  }

  predicate InScope(row: Row, homeId: string, agentId: string, epoch: nat, now: int)
  {
    row.homeId == homeId && row.agentId == agentId && row.epoch == epoch && row.hardExpiresAt > now
  }

  datatype Op =
    | EventOp(kind: EventKind, epoch: nat, reason: string)
    | ReconnectOp(epoch: nat, renewal: Renewal)
    | TerminateOp(reason: string)
    | LostOp(epoch: nat, expiresAt: int, at: int)
    | OfferOp
    | SendOfferOp(epoch: nat)
    | FailOfferOp(epoch: nat)
    | ReserveOp(epoch: nat, room: bool)
    | RevokeOp(epoch: nat, cause: Cause)

  /** Why a handler asks the relay to revoke the session's id. */
  datatype Cause = SessionEnded | OfferFailed

  /** What the store does with an operation; None is a conflict, or nothing for the store to do. */
  function Commit(row: Row, op: Op): Option<Row>
  {
    match op
    case EventOp(k, _, reason) => Transition(row, From(k), To(k), reason)
    case ReconnectOp(epoch, renewal) => BeginReconnect(row, epoch, renewal)
    case TerminateOp(reason) => Transition(row, LIVE, Terminated, reason)
    case LostOp(epoch, expiresAt, at) => MarkTransportLost(row, epoch, expiresAt, at)
    case OfferOp => Transition(row, {Requested}, Offered, "")
    case FailOfferOp(_) => Transition(row, {Requested, Offered, Reconnecting}, FailedState, "agent_offer_failed")
    case _ => None
  }

  /** The relay knows the session by its id alone: a revocation ends whatever epoch is there. */
  function RelayAfter(relay: Option<nat>, op: Op): Option<nat>
  {
    match op
    case ReserveOp(epoch, room) => if relay.None? && room then Some(epoch) else relay
    case RevokeOp(_, _) => None
    case _ => relay
  }

  /** What the handler does next, given the store's answer. A failed offer revokes either way. */
  function Next(op: Op, answer: Option<Row>): multiset<Op>
  {
    match op
    case FailOfferOp(epoch) => multiset{RevokeOp(epoch, OfferFailed)}
    case EventOp(k, _, _) =>
      if answer.Some? && IsTerminal(To(k)) then multiset{RevokeOp(answer.value.epoch, SessionEnded)} else multiset{}
    case TerminateOp(_) => if answer.Some? then multiset{RevokeOp(answer.value.epoch, SessionEnded)} else multiset{}
    case OfferOp => if answer.Some? then multiset{SendOfferOp(answer.value.epoch)} else multiset{}
    case ReconnectOp(_, _) => if answer.Some? then multiset{SendOfferOp(answer.value.epoch)} else multiset{}
    case _ => multiset{}
  }

  datatype Change = Change(before: SessionState, after: SessionState, epochBefore: nat, epochAfter: nat)

  /** `relay` is the epoch under which the relay has the session registered, if it has. */
  datatype Life = Life(row: Row, relay: Option<nat>, pending: multiset<Op>, log: seq<Change>)

  datatype Step =
    | ReceiveEvent(kind: EventKind, homeId: string, agentId: string, epoch: nat, reason: string, now: int)
    | AskReconnect(user: string, now: int, browserHash: nat, agentHash: nat)
    | AskTerminate(user: string, reason: string)
    | RelayClosed(epoch: nat, now: int)
    | AskOffer
    | OfferFails(epoch: nat)
    | AskJoin(now: int, room: bool)
    | RelayEnds
    | DoCommit(op: Op)
    | StoreFails(op: Op)
    | UseCredential(index: nat, hash: nat, side: Side, epoch: nat, now: int)
    | Sweep(now: int)
    | RevokeTrust(reason: string)

  const RECONNECT_TTL := 90_000_000_000

  function Capped(at: int, hard: int): int
  {
    if at > hard then hard else at
  }

  function Queue(st: Life, op: Op): Life
  {
    st.(pending := st.pending + multiset{op})
  }

  function Replace(st: Life, row: Row): Life
  {
    st.(row := row,
        log := if row == st.row then st.log
               else st.log + [Change(st.row.state, row.state, st.row.epoch, row.epoch)])
  }

  /** States in which a side is given a claim (`desktopRelayJoinableState`). */
  predicate Joinable(s: SessionState)
  {
    s in {Offered, AgentReady, Joining, Reconnecting}
  }

  /** Operations on the store; the others go to the relay or the agent. */
  predicate OfStore(op: Op)
  {
    !op.SendOfferOp? && !op.ReserveOp? && !op.RevokeOp?
  }

  predicate Enabled(st: Life, step: Step)
  {
    && (step.DoCommit? ==> step.op in st.pending)
    && (step.StoreFails? ==> step.op in st.pending && OfStore(step.op))
    && (step.OfferFails? ==> SendOfferOp(step.epoch) in st.pending)
  }

  /** One operation carried out: on the row, on the relay, and in what it leads to. */
  function Perform(st: Life, op: Op): Life
  {
    var answer := Commit(st.row, op);
    var st' := st.(relay := RelayAfter(st.relay, op), pending := st.pending - multiset{op} + Next(op, answer));
    if answer.None? then st' else Replace(st', answer.value)
  }

  function Apply(st: Life, step: Step): Life
    requires Enabled(st, step)
  {
    var row := st.row;
    match step
    case ReceiveEvent(k, homeId, agentId, epoch, reason, now) =>
      if !InScope(row, homeId, agentId, epoch, now) then st
      else if IdempotentLate(row.state, k) then Queue(st, RevokeOp(row.epoch, SessionEnded))
      else if k.OtherEvent? then st
      else Queue(st, EventOp(k, epoch, ReasonFor(k, reason)))
    case AskReconnect(user, now, b, a) =>
      if row.operator != user || row.hardExpiresAt <= now || row.state !in {Active, Reconnecting} then st
      else Queue(st, ReconnectOp(row.epoch, Renewal(now, Capped(now + RECONNECT_TTL, row.hardExpiresAt), b, a)))
    case AskTerminate(user, reason) =>
      if row.operator != user then st
      else if IsTerminal(row.state) then Queue(st, RevokeOp(row.epoch, SessionEnded))
      else Queue(st, TerminateOp(if reason == "" then "user_ended" else reason))
    case RelayClosed(epoch, now) =>
      if row.state != Active || row.epoch != epoch then st
      else Queue(st, LostOp(epoch, Capped(now + RECONNECT_TTL, row.hardExpiresAt), now))
    case AskOffer => Queue(st, OfferOp)
    case OfferFails(epoch) => Queue(st.(pending := st.pending - multiset{SendOfferOp(epoch)}), FailOfferOp(epoch))
    case AskJoin(now, room) =>
      if row.hardExpiresAt <= now || row.epoch == 0 || !Joinable(row.state) then st
      else Queue(st, ReserveOp(row.epoch, room))
    case RelayEnds => st.(relay := None)
    case DoCommit(op) => Perform(st, op)
    case StoreFails(op) => st.(pending := st.pending - multiset{op} + Next(op, None))
    case UseCredential(i, hash, side, epoch, now) =>
      var r := Consume(row, i, hash, side, epoch, now);
      if r.None? then st else st.(row := r.value)
    case Sweep(now) => Replace(st, Expire(row, now))
    case RevokeTrust(reason) =>
      if row.state in LIVE then Queue(Replace(st, ForceTerminate(row, reason)), RevokeOp(row.epoch, SessionEnded))
      else st
  }

  // ---- Invariant ----

  ghost predicate CredentialsCurrent(row: Row)
  {
    forall c <- row.credentials ::
      c.epoch <= row.epoch && (Usable(c) ==> c.epoch == row.epoch && !IsTerminal(row.state))
  }

  /** After the first reconnect a session never goes back before its active phase. */
  ghost predicate EpochSane(row: Row)
  {
    && 1 <= row.epoch < EPOCH_MODULUS
    && (row.epoch > 1 ==> row.state in {Active, Reconnecting} || IsTerminal(row.state))
  }

  /** No operation is ahead of its session, and only a failed offer revokes a session that has not ended. */
  ghost predicate OpSane(row: Row, op: Op)
  {
    && (op.EventOp? ==>
          1 <= op.epoch <= row.epoch && op.kind != OtherEvent && (IsTerminal(To(op.kind)) ==> op.reason != ""))
    && (op.ReconnectOp? || op.LostOp? || op.SendOfferOp? || op.FailOfferOp? || op.ReserveOp? || op.RevokeOp?
        ==> 1 <= op.epoch <= row.epoch)
    && (op.RevokeOp? && op.cause.SessionEnded? ==> IsTerminal(row.state) && op.epoch == row.epoch)
  }

  ghost predicate PendingSane(st: Life)
  {
    && (st.relay.Some? ==> 1 <= st.relay.value <= st.row.epoch)
    && forall op <- st.pending :: OpSane(st.row, op)
  }

  function Endings(log: seq<Change>): nat
  {
    if log == [] then 0
    else Endings(log[..|log| - 1]) + (if IsTerminal(log[|log| - 1].after) then 1 else 0)
  }

  function Renewals(log: seq<Change>): nat
  {
    if log == [] then 0
    else Renewals(log[..|log| - 1]) + (if log[|log| - 1].epochAfter != log[|log| - 1].epochBefore then 1 else 0)
  }

  ghost predicate LogMatches(st: Life)
  {
    && Endings(st.log) == (if IsTerminal(st.row.state) then 1 else 0)
    && Renewals(st.log) == st.row.epoch - 1
  }

  ghost predicate LifeInv(st: Life)
  {
    CredentialsCurrent(st.row) && EpochSane(st.row) && PendingSane(st) && LogMatches(st)
  }

  /** What any committed update does to a sane row. */
  ghost predicate GoodUpdate(row: Row, row': Row)
  {
    && CredentialsCurrent(row') && EpochSane(row')
    && !IsTerminal(row.state)
    && (row'.epoch == row.epoch || (row'.epoch == row.epoch + 1 && !IsTerminal(row'.state)))
    && row' != row
  }

  /** Old credentials, withdrawn, do no harm in any later epoch. */
  lemma RevokedAreCurrent(row: Row, row': Row)
    requires CredentialsCurrent(row) && row'.epoch >= row.epoch
    ensures forall i :: 0 <= i < |row.credentials| ==>
              RevokeUsable(row.credentials)[i].epoch <= row'.epoch && !Usable(RevokeUsable(row.credentials)[i])
  {
    forall i | 0 <= i < |row.credentials| ensures row.credentials[i].epoch <= row.epoch {
      assert row.credentials[i] in row.credentials;
    }
  }

  lemma ReconnectIsGood(row: Row, epoch: nat, n: Renewal)
    requires CredentialsCurrent(row) && EpochSane(row) && BeginReconnect(row, epoch, n).Some?
    ensures var row' := BeginReconnect(row, epoch, n).value;
            GoodUpdate(row, row') && row'.epoch == row.epoch + 1
  {
    var row' := BeginReconnect(row, epoch, n).value;
    assert NextEpoch(row.epoch) == row.epoch + 1;
    RevokedAreCurrent(row, row');
    hide RevokeUsable;
    forall c | c in row'.credentials
      ensures c.epoch <= row'.epoch && (Usable(c) ==> c.epoch == row'.epoch && !IsTerminal(row'.state))
    {
      var i :| 0 <= i < |row'.credentials| && row'.credentials[i] == c;
      assert i < |row.credentials| ==> c == RevokeUsable(row.credentials)[i];
    }
  }

  lemma TransitionIsGood(row: Row, from: set<SessionState>, to: SessionState, reason: string)
    requires CredentialsCurrent(row) && EpochSane(row) && Transition(row, from, to, reason).Some?
    ensures var row' := Transition(row, from, to, reason).value;
            GoodUpdate(row, row') && row'.epoch == row.epoch
  {
    if IsTerminal(to) {
      EndIsGood(row, to, reason);
    }
  }

  lemma CommitIsGood(row: Row, op: Op)
    requires CredentialsCurrent(row) && EpochSane(row) && Commit(row, op).Some?
    ensures GoodUpdate(row, Commit(row, op).value)
    ensures Commit(row, op).value.epoch != row.epoch <==> op.ReconnectOp?
  {
    hide CredentialsCurrent, EpochSane, GoodUpdate, Transition, BeginReconnect;
    match op
    case EventOp(k, _, reason) => TransitionIsGood(row, From(k), To(k), reason);
    case ReconnectOp(epoch, renewal) => ReconnectIsGood(row, epoch, renewal);
    case TerminateOp(reason) => TransitionIsGood(row, LIVE, Terminated, reason);
    case LostOp(epoch, expiresAt, at) => LostIsGood(row, epoch, expiresAt, at);
    case OfferOp => TransitionIsGood(row, {Requested}, Offered, "");
    case FailOfferOp(_) => TransitionIsGood(row, {Requested, Offered, Reconnecting}, FailedState, "agent_offer_failed");
  }

  lemma LostIsGood(row: Row, epoch: nat, expiresAt: int, at: int)
    requires CredentialsCurrent(row) && EpochSane(row) && MarkTransportLost(row, epoch, expiresAt, at).Some?
    ensures var row' := MarkTransportLost(row, epoch, expiresAt, at).value;
            GoodUpdate(row, row') && row'.epoch == row.epoch
  {
  }

  lemma EndIsGood(row: Row, to: SessionState, reason: string)
    requires CredentialsCurrent(row) && EpochSane(row) && !IsTerminal(row.state) && IsTerminal(to)
    ensures GoodUpdate(row, End(row, to, reason)) && End(row, to, reason).epoch == row.epoch
  {
    forall i | 0 <= i < |row.credentials| ensures End(row, to, reason).credentials[i].epoch <= row.epoch {
      assert row.credentials[i] in row.credentials;
    }
  }

  /** An operation sane before an update is sane after it: an update starts from a live row. */
  lemma StaysSane(row: Row, row': Row, op: Op)
    requires GoodUpdate(row, row') && OpSane(row, op)
    ensures OpSane(row', op)
  {
    hide CredentialsCurrent, EpochSane;
  }

  lemma ReplaceKeeps(st: Life, st': Life, row: Row)
    requires LifeInv(st) && GoodUpdate(st.row, row) && st'.row == st.row && st'.log == st.log
    requires st'.relay.Some? ==> 1 <= st'.relay.value <= st.row.epoch
    requires forall op <- st'.pending :: op in st.pending || OpSane(row, op)
    ensures LifeInv(Replace(st', row))
  {
    hide CredentialsCurrent, EpochSane, OpSane;
    forall op | op in st'.pending ensures OpSane(row, op) {
      if op in st.pending {
        StaysSane(st.row, row, op);
      }
    }
    assert Replace(st', row).log[..|st.log|] == st.log;
  }

  lemma ConsumeKeeps(row: Row, i: nat, hash: nat, side: Side, epoch: nat, now: int)
    requires CredentialsCurrent(row) && Consume(row, i, hash, side, epoch, now).Some?
    ensures CredentialsCurrent(Consume(row, i, hash, side, epoch, now).value)
    ensures epoch == row.epoch && !IsTerminal(row.state)
  {
    var row' := Consume(row, i, hash, side, epoch, now).value;
    assert row.credentials[i] in row.credentials;
    forall c | c in row'.credentials
      ensures c.epoch <= row'.epoch && (Usable(c) ==> c.epoch == row'.epoch && !IsTerminal(row'.state))
    {
      var k :| 0 <= k < |row'.credentials| && row'.credentials[k] == c;
      assert row.credentials[k] in row.credentials;
    }
  }

  /** The row stands still; what is pending and what the relay holds may change within bounds. */
  lemma SameRowKeeps(st: Life, relay: Option<nat>, pending: multiset<Op>)
    requires LifeInv(st)
    requires relay.Some? ==> 1 <= relay.value <= st.row.epoch
    requires forall op <- pending :: op in st.pending || OpSane(st.row, op)
    ensures LifeInv(st.(relay := relay, pending := pending))
  {
    hide CredentialsCurrent, EpochSane, OpSane;
  }

  lemma QueueKeeps(st: Life, op: Op)
    requires LifeInv(st) && OpSane(st.row, op)
    ensures LifeInv(Queue(st, op))
  {
    hide LifeInv, OpSane;
    RelayInBounds(st);
    SameRowKeeps(st, st.relay, st.pending + multiset{op});
  }

  lemma RelayInBounds(st: Life)
    requires LifeInv(st)
    ensures 1 <= st.row.epoch && (st.relay.Some? ==> 1 <= st.relay.value <= st.row.epoch)
    ensures forall op <- st.pending :: OpSane(st.row, op)
  {
    hide CredentialsCurrent, OpSane;
  }

  /** A step that only reads the row queues at most one operation. */
  lemma ReadKeeps(st: Life, step: Step)
    requires LifeInv(st) && Enabled(st, step)
    requires !step.DoCommit? && !step.UseCredential? && !step.Sweep? && !step.RevokeTrust?
    ensures LifeInv(Apply(st, step))
  {
    hide LifeInv;
    RelayInBounds(st);
    if step.RelayEnds? {
      SameRowKeeps(st, None, st.pending);
    } else if step.StoreFails? {
      FailedIsSane(st.row, step.op);
      SameRowKeeps(st, st.relay, st.pending - multiset{step.op} + Next(step.op, None));
    } else if step.OfferFails? {
      SameRowKeeps(st, st.relay, st.pending - multiset{SendOfferOp(step.epoch)} + multiset{FailOfferOp(step.epoch)});
    } else if Apply(st, step) != st {
      QueueKeeps(st, Queued(st, step));
    }
  }

  lemma FailedIsSane(row: Row, op: Op)
    requires OpSane(row, op)
    ensures forall next <- Next(op, None) :: OpSane(row, next)
  {
  }

  /** What a reading step queues, where it queues anything. */
  function Queued(st: Life, step: Step): Op
  {
    var row := st.row;
    match step
    case ReceiveEvent(k, _, _, epoch, reason, _) =>
      if IdempotentLate(row.state, k) then RevokeOp(row.epoch, SessionEnded)
      else EventOp(k, epoch, ReasonFor(k, reason))
    case AskReconnect(_, now, b, a) => ReconnectOp(row.epoch,
                                                   Renewal(now, Capped(now + RECONNECT_TTL, row.hardExpiresAt), b, a))
    case AskTerminate(_, reason) =>
      if IsTerminal(row.state) then RevokeOp(row.epoch, SessionEnded)
      else TerminateOp(if reason == "" then "user_ended" else reason)
    case RelayClosed(epoch, now) => LostOp(epoch, Capped(now + RECONNECT_TTL, row.hardExpiresAt), now)
    case AskJoin(_, room) => ReserveOp(row.epoch, room)
    case _ => OfferOp
  }

  lemma UseKeeps(st: Life, row: Row)
    requires LifeInv(st) && CredentialsCurrent(row) && EpochSane(row)
    requires row.state == st.row.state && row.epoch == st.row.epoch
    ensures LifeInv(st.(row := row))
  {
    hide CredentialsCurrent, EpochSane;
  }

  /** The facts about the row that a commit relies on. */
  lemma RowOf(st: Life)
    requires LifeInv(st)
    ensures CredentialsCurrent(st.row) && EpochSane(st.row)
  {
    hide CredentialsCurrent, EpochSane;
  }

  /** What an operation leads to is sane for the row it leaves. */
  lemma NextIsSane(row: Row, op: Op)
    requires OpSane(row, op) && 1 <= row.epoch
    requires Commit(row, op).Some? ==> 1 <= Commit(row, op).value.epoch && row.epoch <= Commit(row, op).value.epoch
    ensures var row' := if Commit(row, op).Some? then Commit(row, op).value else row;
            forall next <- Next(op, Commit(row, op)) :: OpSane(row', next)
  {
    hide BeginReconnect, MarkTransportLost, CanTransition, RevokeUsable;
  }

  lemma PerformKeeps(st: Life, op: Op)
    requires LifeInv(st) && op in st.pending
    ensures LifeInv(Perform(st, op))
  {
    hide LifeInv, CredentialsCurrent, EpochSane, Commit, GoodUpdate, Replace, OpSane, Next;
    RowOf(st);
    RelayInBounds(st);
    var answer := Commit(st.row, op);
    var pending := st.pending - multiset{op} + Next(op, answer);
    var relay := RelayAfter(st.relay, op);
    assert relay.Some? ==> 1 <= relay.value <= st.row.epoch by { RelayStaysBelow(st.row, st.relay, op); }
    if answer.Some? {
      CommitIsGood(st.row, op);
      UpdateGrows(st.row, answer.value);
      NextIsSane(st.row, op);
      ReplaceKeeps(st, st.(relay := relay, pending := pending), answer.value);
    } else {
      NextIsSane(st.row, op);
      SameRowKeeps(st, relay, pending);
    }
  }

  lemma RelayStaysBelow(row: Row, relay: Option<nat>, op: Op)
    requires OpSane(row, op) && (relay.Some? ==> 1 <= relay.value <= row.epoch)
    ensures RelayAfter(relay, op).Some? ==> 1 <= RelayAfter(relay, op).value <= row.epoch
  {
  }

  lemma UpdateGrows(row: Row, row': Row)
    requires GoodUpdate(row, row')
    ensures 1 <= row'.epoch && row.epoch <= row'.epoch
  {
    hide CredentialsCurrent;
  }

  lemma RevokeTrustKeeps(st: Life, reason: string)
    requires LifeInv(st) && st.row.state in LIVE
    ensures LifeInv(Apply(st, RevokeTrust(reason)))
  {
    hide LifeInv, CredentialsCurrent, EpochSane, GoodUpdate, End, Replace;
    RowOf(st);
    RelayInBounds(st);
    EndIsGood(st.row, Terminated, reason);
    EndsTerminal(st.row, Terminated, reason);
    var row := ForceTerminate(st.row, reason);
    var queued := Queue(st, RevokeOp(st.row.epoch, SessionEnded));
    ReplaceKeeps(st, queued, row);
    QueueThenReplace(st, RevokeOp(st.row.epoch, SessionEnded), row);
  }

  lemma EndsTerminal(row: Row, to: SessionState, reason: string)
    ensures End(row, to, reason).state == to && End(row, to, reason).epoch == row.epoch
  {
  }

  lemma QueueThenReplace(st: Life, op: Op, row: Row)
    ensures Replace(Queue(st, op), row) == Queue(Replace(st, row), op)
  {
  }

  lemma StepKeeps(st: Life, step: Step)
    requires LifeInv(st) && Enabled(st, step)
    ensures LifeInv(Apply(st, step))
  {
    hide LifeInv, CredentialsCurrent, EpochSane, Perform, Consume, End, GoodUpdate, InScope, IdempotentLate, Replace,
         OpSane;
    RowOf(st);
    RelayInBounds(st);
    match step
    case DoCommit(op) => PerformKeeps(st, op);
    case UseCredential(i, hash, side, epoch, now) =>
      if Consume(st.row, i, hash, side, epoch, now).Some? {
        ConsumeKeeps(st.row, i, hash, side, epoch, now);
        ConsumeFrame(st.row, i, hash, side, epoch, now);
        UseKeeps(st, Consume(st.row, i, hash, side, epoch, now).value);
      }
    case Sweep(now) =>
      if Due(st.row, now) {
        EndIsGood(st.row, Expired, ExpiryReason(st.row, now));
        ReplaceKeeps(st, st, Expire(st.row, now));
      } else {
        ReplaceBySame(st);
      }
    case RevokeTrust(reason) =>
      if st.row.state in LIVE {
        RevokeTrustKeeps(st, reason);
      }
    case _ => ReadKeeps(st, step);
  }

  lemma ReplaceBySame(st: Life)
    ensures Replace(st, st.row) == st
  {
  }

  lemma ConsumeFrame(row: Row, i: nat, hash: nat, side: Side, epoch: nat, now: int)
    requires Consume(row, i, hash, side, epoch, now).Some?
    ensures var row' := Consume(row, i, hash, side, epoch, now).value;
            row'.state == row.state && row'.epoch == row.epoch && (EpochSane(row) ==> EpochSane(row'))
  {
  }

  // ---- Runs ----

  ghost predicate Fresh(st: Life)
  {
    && st.row.state == Requested && st.row.epoch == 1
    && (forall c <- st.row.credentials :: c.epoch == 1)
    && (st.relay.Some? ==> st.relay.value == 1)
    && st.pending == multiset{} && st.log == []
  }

  ghost predicate Run(states: seq<Life>, steps: seq<Step>)
  {
    && |states| == |steps| + 1
    && Fresh(states[0])
    && forall i {:trigger steps[i]} :: 0 <= i < |steps| ==>
         Enabled(states[i], steps[i]) && states[i + 1] == Apply(states[i], steps[i])
  }

  /**
   * In every state of every run: at most one transition into a terminal state has committed, exactly
   * epoch - 1 reconnects have, and every usable credential is of the current epoch of a live session.
   */
  lemma {:induction false} RunIsSane(states: seq<Life>, steps: seq<Step>, i: nat)
    requires Run(states, steps) && i < |states|
    ensures LifeInv(states[i])
    ensures Endings(states[i].log) == (if IsTerminal(states[i].row.state) then 1 else 0)
    ensures states[i].row.epoch == 1 + Renewals(states[i].log) < EPOCH_MODULUS
    ensures forall c <- states[i].row.credentials :: Usable(c) ==>
              c.epoch == states[i].row.epoch && !IsTerminal(states[i].row.state)
  {
    if i > 0 {
      hide LifeInv, Apply;
      RunIsSane(states, steps, i - 1);
      StepKeeps(states[i - 1], steps[i - 1]);
      InvMeans(states[i]);
    }
  }

  lemma InvMeans(st: Life)
    requires LifeInv(st)
    ensures Endings(st.log) == (if IsTerminal(st.row.state) then 1 else 0)
    ensures st.row.epoch == 1 + Renewals(st.log) < EPOCH_MODULUS
    ensures forall c <- st.row.credentials :: Usable(c) ==> c.epoch == st.row.epoch && !IsTerminal(st.row.state)
  {
  }

  lemma EndedRefuses(row: Row, op: Op)
    requires IsTerminal(row.state)
    ensures Commit(row, op).None?
  {
    hide RevokeUsable, NextEpoch;
  }

  lemma StepIsFrozen(st: Life, step: Step)
    requires LifeInv(st) && Enabled(st, step) && IsTerminal(st.row.state)
    ensures Apply(st, step).row == st.row && Apply(st, step).log == st.log
  {
    hide Commit, Next, RelayAfter, EpochSane, PendingSane, LogMatches, InScope, ReasonFor, End, ExpiryReason;
    match step
    case DoCommit(op) => EndedRefuses(st.row, op);
    case UseCredential(i, _, _, _, _) =>
      assert i < |st.row.credentials| ==> st.row.credentials[i] in st.row.credentials;
    case _ =>
  }

  /** Terminal states absorb: nothing about an ended session's row ever changes again. */
  lemma {:induction false} TerminalIsFinal(states: seq<Life>, steps: seq<Step>, i: nat, j: nat)
    requires Run(states, steps) && i <= j < |states| && IsTerminal(states[i].row.state)
    ensures states[j].row == states[i].row && states[j].log == states[i].log
    decreases j
  {
    if i < j {
      hide LifeInv, Apply, Fresh;
      TerminalIsFinal(states, steps, i, j - 1);
      assert LifeInv(states[j - 1]) by { RunIsSane(states, steps, j - 1); }
      StepIsFrozen(states[j - 1], steps[j - 1]);
    }
  }

  lemma CommitEpoch(row: Row, op: Op)
    requires CredentialsCurrent(row) && EpochSane(row) && Commit(row, op).Some?
    ensures var row' := Commit(row, op).value;
            row'.epoch == row.epoch || (row'.epoch == row.epoch + 1 && op.ReconnectOp? && op.epoch == row.epoch)
  {
    hide CredentialsCurrent, EpochSane, RevokeUsable, Transition, MarkTransportLost, NextEpoch;
    CommitIsGood(row, op);
  }

  lemma StepEpoch(st: Life, step: Step)
    requires LifeInv(st) && Enabled(st, step)
    ensures var row' := Apply(st, step).row;
            || row'.epoch == st.row.epoch
            || (row'.epoch == st.row.epoch + 1 && step.DoCommit? && step.op.ReconnectOp?
                && step.op.epoch == st.row.epoch)
  {
    hide CredentialsCurrent, PendingSane, LogMatches, EpochSane, Commit, Next, RelayAfter, Consume, InScope, ReasonFor,
         ExpiryReason, RevokeUsable;
    match step
    case DoCommit(op) =>
      if Commit(st.row, op).Some? {
        CommitEpoch(st.row, op);
      }
    case UseCredential(i, hash, side, epoch, now) =>
      if Consume(st.row, i, hash, side, epoch, now).Some? {
        ConsumeFrame(st.row, i, hash, side, epoch, now);
      }
    case _ =>
  }

  lemma RunStepEpoch(states: seq<Life>, steps: seq<Step>, i: nat)
    requires Run(states, steps) && i + 1 < |states|
    ensures states[i].row.epoch <= states[i + 1].row.epoch
  {
    hide LifeInv, Apply, Fresh;
    assert LifeInv(states[i]) by { RunIsSane(states, steps, i); }
    StepEpoch(states[i], steps[i]);
  }

  /** The key epoch never decreases (and never wraps), and only a committed reconnect raises it. */
  lemma {:induction false} EpochMonotone(states: seq<Life>, steps: seq<Step>, i: nat, j: nat)
    requires Run(states, steps) && i <= j < |states|
    ensures states[i].row.epoch <= states[j].row.epoch
    decreases j
  {
    hide Run;
    if i < j {
      EpochMonotone(states, steps, i, j - 1);
      RunStepEpoch(states, steps, j - 1);
    }
  }

  // ---- Credentials ----

  /** A credential can be used only in the current epoch of a live session, whatever claim presents it. */
  lemma OnlyCurrentCredentials(states: seq<Life>, steps: seq<Step>, i: nat, k: nat, hash: nat, side: Side, epoch: nat,
                               now: int)
    requires Run(states, steps) && i < |states| && Consume(states[i].row, k, hash, side, epoch, now).Some?
    ensures epoch == states[i].row.epoch && !IsTerminal(states[i].row.state)
  {
    RunIsSane(states, steps, i);
    ConsumeKeeps(states[i].row, k, hash, side, epoch, now);
  }

  /** The credential in place k is one for the side and epoch, and it has been used. */
  ghost predicate UsedAs(row: Row, k: nat, side: Side, epoch: nat)
  {
    && k < |row.credentials| && row.credentials[k].consumed
    && row.credentials[k].side == side && row.credentials[k].epoch == epoch
  }

  lemma EndKeepsUsed(row: Row, to: SessionState, reason: string, k: nat, s: Side, e: nat)
    requires UsedAs(row, k, s, e)
    ensures UsedAs(End(row, to, reason), k, s, e)
  {
  }

  lemma CommitKeepsUsed(row: Row, op: Op, k: nat, s: Side, e: nat)
    requires UsedAs(row, k, s, e) && Commit(row, op).Some?
    ensures UsedAs(Commit(row, op).value, k, s, e)
  {
    hide End, CanTransition, NextEpoch, From;
    forall to, reason ensures UsedAs(End(row, to, reason), k, s, e) {
      EndKeepsUsed(row, to, reason, k, s, e);
    }
  }

  lemma ConsumeKeepsUsed(row: Row, i: nat, hash: nat, side: Side, epoch: nat, now: int, k: nat, s: Side, e: nat)
    requires UsedAs(row, k, s, e) && Consume(row, i, hash, side, epoch, now).Some?
    ensures UsedAs(Consume(row, i, hash, side, epoch, now).value, k, s, e)
  {
  }

  lemma UsedStays(st: Life, step: Step, k: nat, s: Side, e: nat)
    requires Enabled(st, step) && UsedAs(st.row, k, s, e)
    ensures UsedAs(Apply(st, step).row, k, s, e)
  {
    hide UsedAs, Commit, Consume, End, InScope, IdempotentLate, Due, ExpiryReason;
    match step
    case DoCommit(op) =>
      if Commit(st.row, op).Some? {
        CommitKeepsUsed(st.row, op, k, s, e);
      }
    case UseCredential(i, hash, side, epoch, now) =>
      if Consume(st.row, i, hash, side, epoch, now).Some? {
        ConsumeKeepsUsed(st.row, i, hash, side, epoch, now, k, s, e);
      }
    case Sweep(now) => EndKeepsUsed(st.row, Expired, ExpiryReason(st.row, now), k, s, e);
    case RevokeTrust(reason) => EndKeepsUsed(st.row, Terminated, reason, k, s, e);
    case _ =>
  }

  /** A credential is used at most once in a run. */
  lemma {:induction false} CredentialUsedOnce(states: seq<Life>, steps: seq<Step>, i: nat, j: nat, k: nat,
                                              hash: nat, side: Side, epoch: nat, now: int)
    requires Run(states, steps) && i < j < |states|
    requires steps[i].UseCredential? && steps[i].index == k
    requires Consume(states[i].row, k, steps[i].hash, steps[i].side, steps[i].epoch, steps[i].now).Some?
    ensures UsedAs(states[j].row, k, steps[i].side, steps[i].epoch)
    ensures Consume(states[j].row, k, hash, side, epoch, now).None?
    decreases j
  {
    hide Apply, Consume, Fresh, UsedAs;
    if i < j - 1 {
      CredentialUsedOnce(states, steps, i, j - 1, k, hash, side, epoch, now);
      UsedStays(states[j - 1], steps[j - 1], k, steps[i].side, steps[i].epoch);
    } else {
      UseMarks(states[i], steps[i]);
    }
    UsedUp(states[j].row, k, steps[i].side, steps[i].epoch, hash, side, epoch, now);
  }

  lemma UseMarks(st: Life, step: Step)
    requires step.UseCredential? && Consume(st.row, step.index, step.hash, step.side, step.epoch, step.now).Some?
    ensures UsedAs(Apply(st, step).row, step.index, step.side, step.epoch)
  {
  }

  lemma UsedUp(row: Row, k: nat, s: Side, e: nat, hash: nat, side: Side, epoch: nat, now: int)
    requires UsedAs(row, k, s, e)
    ensures Consume(row, k, hash, side, epoch, now).None?
  {
  }
}
