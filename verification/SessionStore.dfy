/** The stored desktop session and the guarded updates that may change it, each one transaction. */
module SessionStore {
  import opened Common
  import opened RelayTypes

  datatype SessionState =
    | Requested | Offered | AgentReady | Joining | Active | Reconnecting
    | Denied | FailedState | Expired | Terminated

  predicate IsTerminal(s: SessionState)
  {
    s in {Denied, FailedState, Expired, Terminated}
  }

  const LIVE: set<SessionState> := {Requested, Offered, AgentReady, Joining, Active, Reconnecting}

  predicate CanTransition(from: SessionState, to: SessionState)
  {
    match from
    case Requested => to in {Offered, Denied, FailedState, Expired, Terminated}
    case Offered => to in {AgentReady, Denied, FailedState, Expired, Terminated}
    case AgentReady => to in {Joining, Active, Denied, FailedState, Expired, Terminated}
    case Joining => to in {Active, Denied, FailedState, Expired, Terminated}
    case Active => to in {Reconnecting, FailedState, Expired, Terminated}
    case Reconnecting => to in {Active, FailedState, Expired, Terminated}
    case _ => false
  }

  datatype Credential = Credential(hash: nat, side: Side, epoch: nat, expiresAt: int, consumed: bool, revoked: bool)

  predicate Usable(c: Credential)
  {
    !c.consumed && !c.revoked
  }

  datatype Row = Row(
    homeId: string,
    agentId: string,
    operator: string,
    state: SessionState,
    epoch: nat,
    joinExpiresAt: int,
    hardExpiresAt: int,
    reconnectExpiresAt: Option<int>,
    reason: Option<string>,
    credentials: seq<Credential>)

  /** Every credential that nobody has used or withdrawn yet is withdrawn. */
  function RevokeUsable(cs: seq<Credential>): (r: seq<Credential>)
    ensures |r| == |cs|
    ensures forall i :: 0 <= i < |r| ==> !Usable(r[i]) && r[i].epoch == cs[i].epoch
    ensures forall i :: 0 <= i < |r| ==> r[i].consumed == cs[i].consumed && r[i].side == cs[i].side
  {
    seq(|cs|, i requires 0 <= i < |cs| => if Usable(cs[i]) then cs[i].(revoked := true) else cs[i])
  }

  function End(row: Row, to: SessionState, reason: string): Row
  {
    row.(state := to, reason := Some(reason), credentials := RevokeUsable(row.credentials))
  }

  function Transition(row: Row, from: set<SessionState>, to: SessionState, reason: string): Option<Row>
  {
    if IsTerminal(to) && reason == "" then None
    else if row.state !in from || !CanTransition(row.state, to) then None
    else if IsTerminal(to) then Some(End(row, to, reason))
    else Some(row.(state := to, reason := None))
  }

  const EPOCH_MODULUS := 0x1_0000_0000

  /** Key epochs are 32-bit counters. */
  function NextEpoch(e: nat): nat
  {
    (e + 1) % EPOCH_MODULUS
  }

  datatype Renewal = Renewal(createdAt: int, expiresAt: int, browserHash: nat, agentHash: nat)

  function BeginReconnect(row: Row, expectedEpoch: nat, n: Renewal): Option<Row>
  {
    var next := NextEpoch(expectedEpoch);
    if expectedEpoch == 0 || row.state !in {Active, Reconnecting} || row.epoch != expectedEpoch then None
    else if n.expiresAt <= n.createdAt || n.expiresAt > row.hardExpiresAt then None
    else if next == 0 || n.browserHash == n.agentHash then None
    else Some(row.(state := Reconnecting, epoch := next, reconnectExpiresAt := Some(n.expiresAt),
                   credentials := RevokeUsable(row.credentials)
                                  + [Credential(n.browserHash, Browser, next, n.expiresAt, false, false),
                                     Credential(n.agentHash, Agent, next, n.expiresAt, false, false)]))
  }

  function MarkTransportLost(row: Row, expectedEpoch: nat, expiresAt: int, at: int): Option<Row>
  {
    if expectedEpoch == 0 || row.state != Active || row.epoch != expectedEpoch
       || expiresAt <= at || expiresAt > row.hardExpiresAt then None
    else Some(row.(state := Reconnecting, reconnectExpiresAt := Some(expiresAt)))
  }

  predicate Consumable(c: Credential, hash: nat, side: Side, epoch: nat, now: int)
  {
    c.hash == hash && c.side == side && c.epoch == epoch && Usable(c) && c.expiresAt > now
  }

  function Consume(row: Row, i: nat, hash: nat, side: Side, epoch: nat, now: int): Option<Row>
  {
    if epoch == 0 || i >= |row.credentials| || !Consumable(row.credentials[i], hash, side, epoch, now) then None
    else Some(row.(credentials := row.credentials[i := row.credentials[i].(consumed := true)]))
  }

  predicate Due(row: Row, now: int)
  {
    && row.state in LIVE
    && (|| row.hardExpiresAt <= now
        || (row.state in {Requested, Offered, AgentReady, Joining} && row.joinExpiresAt <= now)
        || (row.state == Reconnecting && row.reconnectExpiresAt.Some? && row.reconnectExpiresAt.value <= now))
  }

  function ExpiryReason(row: Row, now: int): string
  {
    if row.hardExpiresAt <= now then "hard_expired"
    else if row.state == Reconnecting && row.reconnectExpiresAt.Some? && row.reconnectExpiresAt.value <= now then
      "reconnect_expired"
    else "join_expired"
  }

  function Expire(row: Row, now: int): Row
  {
    if Due(row, now) then End(row, Expired, ExpiryReason(row, now)) else row
  }

  /** Revoking an identity or replacing the trust root ends the live sessions in its scope. */
  function ForceTerminate(row: Row, reason: string): Row
  {
    if row.state in LIVE then End(row, Terminated, reason) else row
  }

  /** The table of sessions; every method is one transaction on one row, except the sweep. */
  class Store {
    var rows: map<string, Row>

    constructor ()
      ensures rows == map[]
    {
      rows := map[];
    }

    method TransitionDesktopSession(id: string, from: set<SessionState>, to: SessionState,
                                    reason: string) returns (ok: bool)
      modifies this
      ensures ok == (id in old(rows) && Transition(old(rows)[id], from, to, reason).Some?)
      ensures rows == if ok then old(rows)[id := Transition(old(rows)[id], from, to, reason).value] else old(rows)
    {
      if id !in rows || (IsTerminal(to) && reason == "") {
        return false;
      }
      var row := rows[id];
      if row.state !in from || !CanTransition(row.state, to) {
        return false;
      }
      row := row.(state := to, reason := None);
      if IsTerminal(to) {
        row := row.(reason := Some(reason), credentials := RevokeUsable(row.credentials));
      }
      rows := rows[id := row];
      return true;
    }

    method BeginDesktopReconnect(id: string, expectedEpoch: nat, n: Renewal) returns (ok: bool)
      modifies this
      ensures ok == (id in old(rows) && BeginReconnect(old(rows)[id], expectedEpoch, n).Some?)
      ensures rows == if ok then old(rows)[id := BeginReconnect(old(rows)[id], expectedEpoch, n).value] else old(rows)
    {
      if id !in rows || expectedEpoch == 0 {
        return false;
      }
      var row := rows[id];
      if (row.state != Active && row.state != Reconnecting) || row.epoch != expectedEpoch
         || n.expiresAt <= n.createdAt || n.expiresAt > row.hardExpiresAt {
        return false;
      }
      var next := (expectedEpoch + 1) % EPOCH_MODULUS;
      if next == 0 || n.browserHash == n.agentHash {
        return false;
      }
      row := row.(state := Reconnecting, epoch := next, reconnectExpiresAt := Some(n.expiresAt),
                  credentials := RevokeUsable(row.credentials));
      row := row.(credentials := row.credentials
                                 + [Credential(n.browserHash, Browser, next, n.expiresAt, false, false),
                                    Credential(n.agentHash, Agent, next, n.expiresAt, false, false)]);
      rows := rows[id := row];
      return true;
    }

    method MarkDesktopTransportLost(id: string, expectedEpoch: nat, expiresAt: int, at: int) returns (ok: bool)
      modifies this
      ensures ok == (id in old(rows) && MarkTransportLost(old(rows)[id], expectedEpoch, expiresAt, at).Some?)
      ensures rows == if ok then old(rows)[id := MarkTransportLost(old(rows)[id], expectedEpoch, expiresAt, at).value]
                      else old(rows)
    {
      if id !in rows || expectedEpoch == 0 {
        return false;
      }
      var row := rows[id];
      if row.state != Active || row.epoch != expectedEpoch || expiresAt <= at || expiresAt > row.hardExpiresAt {
        return false;
      }
      rows := rows[id := row.(state := Reconnecting, reconnectExpiresAt := Some(expiresAt))];
      return true;
    }

    /** Uses up the first credential that answers to the hash, side and epoch. */
    method ConsumeDesktopJoinCredential(id: string, hash: nat, side: Side, epoch: nat,
                                        now: int) returns (used: Option<nat>)
      modifies this
      ensures used.Some? ==> id in old(rows) && Consume(old(rows)[id], used.value, hash, side, epoch, now).Some?
                             && rows == old(rows)[id :=
                                 Consume(old(rows)[id], used.value, hash, side, epoch, now).value]
      ensures used.None? ==> rows == old(rows)
      ensures used.None? && id in rows && epoch != 0 ==>
                forall c <- rows[id].credentials :: !Consumable(c, hash, side, epoch, now)
    {
      if epoch == 0 || id !in rows {
        return None;
      }
      var row := rows[id];
      var i := 0;
      while i < |row.credentials|
        invariant 0 <= i <= |row.credentials|
        invariant forall k :: 0 <= k < i ==> !Consumable(row.credentials[k], hash, side, epoch, now)
        invariant rows == old(rows)
      {
        if Consumable(row.credentials[i], hash, side, epoch, now) {
          rows := rows[id := row.(credentials := row.credentials[i := row.credentials[i].(consumed := true)])];
          return Some(i);
        }
        i := i + 1;
      }
      return None;
    }

    /** The sweep: every overdue row ends as expired, no other row changes. */
    method ExpireDesktopSessions(now: int) returns (count: nat)
      modifies this
      ensures rows.Keys == old(rows.Keys)
      ensures forall id <- rows :: rows[id] == Expire(old(rows)[id], now)
      ensures count == |set id <- old(rows) | Due(old(rows)[id], now)|
    {
      hide Due, End, ExpiryReason;
      ghost var before := rows;
      var due := set id <- rows | Due(rows[id], now);
      count := |due|;
      var left := due;
      while left != {}
        invariant left <= due && rows.Keys == before.Keys
        invariant forall id <- before ::
                    rows[id] == if id in due && id !in left then Expire(before[id], now) else before[id]
        decreases left
      {
        var id :| id in left;
        assert rows[id] == before[id];
        rows := rows[id := End(rows[id], Expired, ExpiryReason(rows[id], now))];
        left := left - {id};
      }
    }
  }
}
