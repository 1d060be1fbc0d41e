/** Claims, limits and timestamps of the desktop relay. */
module RelayTypes {
  /** Nanoseconds since the Unix epoch, or the zero time that stands for "not set". */
  datatype Timestamp = Zero | At(nanos: int)

  predicate Later(t: Timestamp, now: int)
  {
    t.At? && t.nanos > now
  }

  predicate LaterThan(t: Timestamp, u: Timestamp)
  {
    t.At? && (u.Zero? || t.nanos > u.nanos)
  }

  /** `UnixMicro` rounds towards minus infinity, as division by a positive number does here. */
  function UnixMicro(nanos: int): int
  {
    nanos / 1000
  }

  predicate TimestampEqual(left: Timestamp, right: Timestamp)
  {
    if left.Zero? || right.Zero? then left.Zero? && right.Zero?
    else UnixMicro(left.nanos) == UnixMicro(right.nanos)
  }

  datatype Side = Browser | Agent

  datatype Claim = Claim(
    sessionId: string,
    homeId: string,
    side: Side,
    keyEpoch: nat,
    agentId: string,
    hardExpiresAt: Timestamp,
    reconnect: bool,
    reconnectExpiresAt: Timestamp)

  /** Letters and digits are taken from ASCII; see the README. */
  predicate ResourceChar(c: char)
  {
    'a' <= c <= 'z' || 'A' <= c <= 'Z' || '0' <= c <= '9' || c == '_' || c == '-'
  }

  predicate ValidResourceId(id: string)
  {
    8 <= |id| <= 128 && forall i :: 0 <= i < |id| ==> ResourceChar(id[i])
  }

  predicate ValidClaim(c: Claim, now: int)
  {
    && ValidResourceId(c.sessionId)
    && ValidResourceId(c.homeId)
    && ValidResourceId(c.agentId)
    && c.keyEpoch != 0
    && Later(c.hardExpiresAt, now)
    && (c.reconnect ==> Later(c.reconnectExpiresAt, now) && !LaterThan(c.reconnectExpiresAt, c.hardExpiresAt))
    && (!c.reconnect ==> c.reconnectExpiresAt.Zero?)
  }

  /** The test that lets a second claim onto an existing session. */
  predicate Agrees(s: Claim, c: Claim)
  {
    && s.keyEpoch == c.keyEpoch
    && s.homeId == c.homeId
    && s.agentId == c.agentId
    && s.reconnect == c.reconnect
    && TimestampEqual(s.reconnectExpiresAt, c.reconnectExpiresAt)
    && TimestampEqual(s.hardExpiresAt, c.hardExpiresAt)
  }

  /** Exactly these faults make a claim invalid. */
  lemma InvalidExactly(c: Claim, now: int)
    ensures !ValidClaim(c, now) <==>
              || BadId(c.sessionId) || BadId(c.homeId) || BadId(c.agentId)
              || c.keyEpoch == 0
              || c.hardExpiresAt == Zero || c.hardExpiresAt.nanos <= now
              || (c.reconnect && (c.reconnectExpiresAt == Zero || c.reconnectExpiresAt.nanos <= now
                                  || c.reconnectExpiresAt.nanos > c.hardExpiresAt.nanos))
              || (!c.reconnect && c.reconnectExpiresAt != Zero)
  {
    BadIdExactly(c.sessionId);
    BadIdExactly(c.homeId);
    BadIdExactly(c.agentId);
    hide ValidResourceId, BadId;
  }

  /** Too short, too long, or with a character that is no letter, digit, underscore or hyphen. */
  ghost predicate BadId(id: string)
  {
    |id| < 8 || |id| > 128 || exists i :: 0 <= i < |id| && !ResourceChar(id[i])
  }

  lemma BadIdExactly(id: string)
    ensures BadId(id) <==> !ValidResourceId(id)
  {
  }

  /** Claim agreement is an equivalence, so two sides that each match the session match each other. */
  lemma AgreesIsEquivalence(a: Claim, b: Claim, c: Claim)
    ensures Agrees(a, a)
    ensures Agrees(a, b) ==> Agrees(b, a)
    ensures Agrees(a, b) && Agrees(b, c) ==> Agrees(a, c)
  {
  }

  /** A timestamp after a trip through a column of microsecond precision. */
  function Stored(t: Timestamp): Timestamp
  {
    if t.Zero? then Zero else At(UnixMicro(t.nanos) * 1000)
  }

  /** The relation is exactly "the same once stored": no finer and no coarser. */
  lemma TimestampEqualIffStoredEqual(t: Timestamp, u: Timestamp)
    ensures TimestampEqual(t, u) <==> Stored(t) == Stored(u)
    ensures Stored(Stored(t)) == Stored(t)
    ensures TimestampEqual(t, Stored(t))
  {
    if t.At? {
      assert UnixMicro(t.nanos) * 1000 / 1000 == UnixMicro(t.nanos);
    }
    if u.At? {
      assert UnixMicro(u.nanos) * 1000 / 1000 == UnixMicro(u.nanos);
    }
  }

  datatype Limits = Limits(
    maxFrameBytes: nat,
    maxBytesPerSecond: nat,
    maxQueueBytes: nat,
    maxSessions: nat,
    maxSessionsPerHome: nat,
    maxSessionsPerAgent: nat)

  /** The largest encrypted payload (six MiB of clipboard plus framing) and its 12-byte header. */
  const MAX_FRAME_BOUND: nat := 6 * 1_048_576 + 128 + 64 + 12

  predicate ValidLimits(l: Limits)
  {
    && 0 < l.maxFrameBytes <= MAX_FRAME_BOUND
    && 0 < l.maxBytesPerSecond <= 52_428_800
    && 0 < l.maxQueueBytes <= 16_777_216
    && 0 < l.maxSessions <= 32
    && 0 < l.maxSessionsPerHome <= 4
    && 0 < l.maxSessionsPerAgent <= 1
  }

  /** The limits that the relay is made with when none are given. */
  const DEFAULT_LIMITS := Limits(6_291_660, 52_428_800, 524_288, 32, 4, 1)

  /** Exactly these limits are refused; the defaults are not, and most of them are as large as can be. */
  lemma LimitsExactly(l: Limits)
    ensures ValidLimits(DEFAULT_LIMITS)
    ensures ValidLimits(l) <==>
              && 1 <= l.maxFrameBytes <= DEFAULT_LIMITS.maxFrameBytes
              && 1 <= l.maxBytesPerSecond <= DEFAULT_LIMITS.maxBytesPerSecond
              && 1 <= l.maxQueueBytes <= 32 * DEFAULT_LIMITS.maxQueueBytes
              && 1 <= l.maxSessions <= DEFAULT_LIMITS.maxSessions
              && 1 <= l.maxSessionsPerHome <= DEFAULT_LIMITS.maxSessionsPerHome
              && l.maxSessionsPerAgent == 1
  {
  }

  datatype Reason =
    | TransportClosed | IdleTimeout | FrameLimit | RateLimit | SlowConsumer
    | JoinTimeout | ReconnectTimeout | HardExpired | Revoked(text: string)
}
