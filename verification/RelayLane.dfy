/**
 * One direction of a paired session: the read pump (producer) and the write pump (consumer)
 * over their pipe, with one step per critical section, channel operation or endpoint call.
 */
module RelayLane {
  import opened Common
  import opened RelayTypes
  import opened RelayPipe
  import opened RateWindow

  /** Where the read pump is. A frame it holds has been read but not queued. */
  datatype Producer =
    | Unstarted
    | Reading
    | Rating(frame: Frame)
    | Offering(frame: Frame, backpressured: bool)
    | Notifying
    | Parked(frame: Frame)
    | GraceOver(frame: Frame)
    | Ended(lost: seq<Frame>)

  /** Where the write pump is. */
  datatype Consumer =
    | Unstarted
    | Checking
    | Renotifying(frame: Frame)
    | Waiting
    | Writing(frame: Frame)
    | Completing(frame: Frame, ok: bool)
    | Releasing(frame: Frame, ok: bool)
    | Counting(frame: Frame)
    | WriteFailed(frame: Frame)
    | Ended(lost: seq<Frame>)

  /**
   * `read` and `delivered` log what the source handed over and what the destination accepted;
   * `arrivals` logs the calls of the rate limiter.
   */
  datatype Lane = Lane(
    pipe: Pipe,
    rate: Window,
    arrivals: seq<Arrival>,
    producer: Producer,
    consumer: Consumer,
    counted: nat,
    read: seq<Frame>,
    delivered: seq<Frame>)

  const IDLE_LANE := Lane(EMPTY_PIPE, FRESH_WINDOW, [], Producer.Unstarted, Consumer.Unstarted, 0, [], [])

  function Start(l: Lane): Lane
  {
    l.(producer := Reading, consumer := Checking)
  }

  datatype ReadError = Canceled | DeadlineExceeded | Broken

  datatype Move =
    | ReadFrame(frame: Frame)
    | ReadFails(error: ReadError)
    | CheckRate
    | Offer
    | SignalAvailable
    | TakeSpace
    | GraceTimer
    | CheckGrace
    | ProducerSeesDone
    | Take
    | SignalAgain
    | TakeAvailable
    | ConsumerSeesDone
    | WriteFrame(ok: bool)
    | Complete
    | SignalSpace
    | Count
    | CheckWriteError

  predicate Enabled(l: Lane, done: bool, m: Move)
  {
    match m
    case ReadFrame(_) => l.producer.Reading?
    case ReadFails(_) => l.producer.Reading?
    case CheckRate => l.producer.Rating?
    case Offer => l.producer.Offering?
    case SignalAvailable => l.producer.Notifying?
    case TakeSpace => l.producer.Parked? && l.pipe.space
    case GraceTimer => l.producer.Parked?
    case CheckGrace => l.producer.GraceOver?
    case ProducerSeesDone => l.producer.Parked? && done
    case Take => l.consumer.Checking?
    case SignalAgain => l.consumer.Renotifying?
    case TakeAvailable => l.consumer.Waiting? && l.pipe.available
    case ConsumerSeesDone => l.consumer.Waiting? && done
    case WriteFrame(_) => l.consumer.Writing?
    case Complete => l.consumer.Completing?
    case SignalSpace => l.consumer.Releasing?
    case Count => l.consumer.Counting?
    case CheckWriteError => l.consumer.WriteFailed?
  }

  /** `fails` is the reason with which the pump calls `fail` right after this step. */
  datatype Outcome = Outcome(lane: Lane, fails: Option<Reason>, pressure: bool)

  function Apply(limits: Limits, l: Lane, done: bool, now: nat, m: Move): Outcome
    requires Enabled(l, done, m)
  {
    match m
    case ReadFrame(f) =>
      var r := l.(read := l.read + [f]);
      if |f| > limits.maxFrameBytes then Outcome(r.(producer := Producer.Ended([f])), Some(FrameLimit), false)
      else Outcome(r.(producer := Rating(f)), None, false)
    case ReadFails(error) =>
      var r := l.(producer := Producer.Ended([]));
      if error.Canceled? && done then Outcome(r, None, false)
      else Outcome(r, Some(if error.DeadlineExceeded? then IdleTimeout else TransportClosed), false)
    case CheckRate =>
      var f := l.producer.frame;
      var a := Arrival(now, |f|);
      var r := l.(rate := Charge(l.rate, a), arrivals := l.arrivals + [a]);
      if Allowed(limits.maxBytesPerSecond, l.rate, a) then
        Outcome(r.(producer := Offering(f, false)), None, false)
      else Outcome(r.(producer := Producer.Ended([f])), Some(RateLimit), false)
    case Offer =>
      var f := l.producer.frame;
      if Fits(l.pipe, |f|, limits.maxQueueBytes) then
        Outcome(l.(pipe := Append(l.pipe, f), producer := Notifying), None, false)
      else Outcome(l.(producer := Parked(f)), None, !l.producer.backpressured)
    case SignalAvailable =>
      Outcome(l.(pipe := l.pipe.(available := true), producer := Reading), None, false)
    case TakeSpace =>
      Outcome(l.(pipe := l.pipe.(space := false), producer := Offering(l.producer.frame, true)), None, false)
    case GraceTimer => Outcome(l.(producer := GraceOver(l.producer.frame)), None, false)
    case CheckGrace =>
      Outcome(l.(producer := Producer.Ended([l.producer.frame])), if done then None else Some(SlowConsumer), false)
    case ProducerSeesDone => Outcome(l.(producer := Producer.Ended([l.producer.frame])), None, false)
    case Take =>
      if l.pipe.frames == [] then Outcome(l.(consumer := Waiting), None, false)
      else
        var f := l.pipe.frames[0];
        Outcome(l.(pipe := Pop(l.pipe), consumer := if |l.pipe.frames| > 1 then Renotifying(f) else Writing(f)), None,
                false)
    case SignalAgain =>
      Outcome(l.(pipe := l.pipe.(available := true), consumer := Writing(l.consumer.frame)), None, false)
    case TakeAvailable => Outcome(l.(pipe := l.pipe.(available := false), consumer := Checking), None, false)
    case ConsumerSeesDone => Outcome(l.(consumer := Consumer.Ended([])), None, false)
    case WriteFrame(ok) =>
      var f := l.consumer.frame;
      Outcome(l.(delivered := if ok then l.delivered + [f] else l.delivered, consumer := Completing(f, ok)), None,
              false)
    case Complete =>
      Outcome(l.(pipe := Release(l.pipe, |l.consumer.frame|), consumer := Releasing(l.consumer.frame, l.consumer.ok)),
              None, false)
    case SignalSpace =>
      Outcome(l.(pipe := l.pipe.(space := true),
                 consumer := if l.consumer.ok then Counting(l.consumer.frame)
                             else WriteFailed(l.consumer.frame)), None, false)
    case Count => Outcome(l.(counted := l.counted + |l.consumer.frame|, consumer := Checking), None, false)
    case CheckWriteError =>
      Outcome(l.(consumer := Consumer.Ended([l.consumer.frame])), if done then None else Some(TransportClosed), false)
  }

  // ---- First-in first-out ----

  /** Read but not queued. */
  function HeldByProducer(p: Producer): seq<Frame>
  {
    match p
    case Rating(f) => [f]
    case Offering(f, _) => [f]
    case Parked(f) => [f]
    case GraceOver(f) => [f]
    case Ended(lost) => lost
    case _ => []
  }

  /** Taken from the queue but not accepted by the destination. */
  function HeldByConsumer(c: Consumer): seq<Frame>
  {
    match c
    case Renotifying(f) => [f]
    case Writing(f) => [f]
    case Completing(f, ok) => if ok then [] else [f]
    case Releasing(f, ok) => if ok then [] else [f]
    case WriteFailed(f) => [f]
    case Ended(lost) => lost
    case _ => []
  }

  /** Every frame read is in exactly one place, and the places keep the order of reading. */
  ghost predicate Fifo(l: Lane)
  {
    l.read == l.delivered + HeldByConsumer(l.consumer) + l.pipe.frames + HeldByProducer(l.producer)
  }

  /** A step of the read pump; the others belong to the write pump. */
  predicate OfProducer(m: Move)
  {
    || m.ReadFrame? || m.ReadFails? || m.CheckRate? || m.Offer? || m.SignalAvailable?
    || m.TakeSpace? || m.GraceTimer? || m.CheckGrace? || m.ProducerSeesDone?
  }

  lemma FifoProducer(limits: Limits, l: Lane, done: bool, now: nat, m: Move)
    requires Fifo(l) && Enabled(l, done, m) && OfProducer(m)
    ensures Fifo(Apply(limits, l, done, now, m).lane)
  {
    var l' := Apply(limits, l, done, now, m).lane;
    var ahead := l.delivered + HeldByConsumer(l.consumer);
    if m.Offer? && l'.producer.Notifying? {
      var f := l.producer.frame;
      assert ahead + l.pipe.frames + [f] == ahead + (l.pipe.frames + [f]) + [];
    } else if m.ReadFrame? {
      assert l.read == ahead + l.pipe.frames + [];
      assert l'.read == ahead + l.pipe.frames + [m.frame];
    } else {
      assert HeldByProducer(l'.producer) == HeldByProducer(l.producer);
    }
  }

  lemma FifoConsumer(limits: Limits, l: Lane, done: bool, now: nat, m: Move)
    requires Fifo(l) && Enabled(l, done, m) && !OfProducer(m)
    ensures Fifo(Apply(limits, l, done, now, m).lane)
  {
    var l' := Apply(limits, l, done, now, m).lane;
    if m.Take? && l.pipe.frames != [] {
      var f := l.pipe.frames[0];
      assert HeldByConsumer(l'.consumer) == [f];
      assert l.delivered + [] + l.pipe.frames == l.delivered + [f] + l.pipe.frames[1..];
    } else if m.WriteFrame? && m.ok {
      var f := l.consumer.frame;
      assert l.delivered + [f] == (l.delivered + [f]) + [];
    } else {
      assert HeldByConsumer(l'.consumer) == HeldByConsumer(l.consumer);
    }
  }

  lemma FifoStep(limits: Limits, l: Lane, done: bool, now: nat, m: Move)
    requires Fifo(l) && Enabled(l, done, m)
    ensures Fifo(Apply(limits, l, done, now, m).lane)
  {
    hide Fifo, Apply;
    if OfProducer(m) {
      FifoProducer(limits, l, done, now, m);
    } else {
      FifoConsumer(limits, l, done, now, m);
    }
  }

  // ---- Byte accounting ----

  /** Bytes taken from the queue but not yet released by `complete`. */
  function InFlight(c: Consumer): nat
  {
    match c
    case Renotifying(f) => |f|
    case Writing(f) => |f|
    case Completing(f, _) => |f|
    case _ => 0
  }

  /** Bytes delivered but not yet added to the session's counter. */
  function Uncounted(c: Consumer): nat
  {
    match c
    case Completing(f, ok) => if ok then |f| else 0
    case Releasing(f, ok) => if ok then |f| else 0
    case Counting(f) => |f|
    case _ => 0
  }

  /** One outstanding frame makes up the whole backlog. */
  ghost predicate SoleOccupant(l: Lane)
  {
    || l.pipe.queuedBytes == InFlight(l.consumer)
    || exists i :: 0 <= i < |l.pipe.frames| && |l.pipe.frames[i]| == l.pipe.queuedBytes
  }

  ghost predicate FrameSizes(limits: Limits, l: Lane)
  {
    && (forall f <- l.pipe.frames :: |f| <= limits.maxFrameBytes)
    && InFlight(l.consumer) <= limits.maxFrameBytes
    && (!l.producer.Ended? ==> forall f <- HeldByProducer(l.producer) :: |f| <= limits.maxFrameBytes)
  }

  ghost predicate Backlog(l: Lane)
  {
    l.pipe.queuedBytes == TotalBytes(l.pipe.frames) + InFlight(l.consumer)
  }

  ghost predicate WithinBudget(limits: Limits, l: Lane)
  {
    l.pipe.queuedBytes <= limits.maxQueueBytes || SoleOccupant(l)
  }

  ghost predicate Counter(l: Lane)
  {
    l.counted + Uncounted(l.consumer) == TotalBytes(l.delivered)
  }

  ghost predicate Accounting(limits: Limits, l: Lane)
  {
    Backlog(l) && WithinBudget(limits, l) && FrameSizes(limits, l) && Counter(l)
  }

  lemma BacklogStep(limits: Limits, l: Lane, done: bool, now: nat, m: Move)
    requires Backlog(l) && Enabled(l, done, m)
    ensures Backlog(Apply(limits, l, done, now, m).lane)
  {
    if m.Offer? {
      TotalBytesAppend(l.pipe.frames, [l.producer.frame]);
      TotalBytesOne(l.producer.frame);
    }
  }

  lemma CounterStep(limits: Limits, l: Lane, done: bool, now: nat, m: Move)
    requires Counter(l) && Enabled(l, done, m)
    ensures Counter(Apply(limits, l, done, now, m).lane)
  {
    if m.WriteFrame? {
      TotalBytesAppend(l.delivered, [l.consumer.frame]);
      TotalBytesOne(l.consumer.frame);
    }
  }

  lemma FrameSizesStep(limits: Limits, l: Lane, done: bool, now: nat, m: Move)
    requires FrameSizes(limits, l) && Enabled(l, done, m)
    ensures FrameSizes(limits, Apply(limits, l, done, now, m).lane)
  {
    var l' := Apply(limits, l, done, now, m).lane;
    if OfProducer(m) {
      assert forall f <- HeldByProducer(l.producer) :: l.producer.Ended? || |f| <= limits.maxFrameBytes;
      assert forall f <- HeldByProducer(l'.producer) ::
               l'.producer.Ended? || f in HeldByProducer(l.producer) || m == ReadFrame(f);
      assert forall f <- l'.pipe.frames :: f in l.pipe.frames || f in HeldByProducer(l.producer);
    } else if m.Take? && l.pipe.frames != [] {
      assert l.pipe.frames[0] in l.pipe.frames;
    }
  }

  lemma WithinBudgetStep(limits: Limits, l: Lane, done: bool, now: nat, m: Move)
    requires Backlog(l) && WithinBudget(limits, l) && Enabled(l, done, m)
    ensures WithinBudget(limits, Apply(limits, l, done, now, m).lane)
  {
    var l' := Apply(limits, l, done, now, m).lane;
    var q := l.pipe.frames;
    if m.Offer? && Fits(l.pipe, |l.producer.frame|, limits.maxQueueBytes) {
      assert l'.pipe.frames[|q|] == l.producer.frame;
    } else if l'.pipe.queuedBytes > limits.maxQueueBytes {
      if l.pipe.queuedBytes != InFlight(l.consumer) {
        var i :| 0 <= i < |q| && |q[i]| == l.pipe.queuedBytes;
        TotalBytesAtLeast(q, i);
        if m.Take? && i > 0 {
          assert l'.pipe.frames[i - 1] == q[i];
        }
      }
    }
  }

  lemma AccountingStep(limits: Limits, l: Lane, done: bool, now: nat, m: Move)
    requires Accounting(limits, l) && Enabled(l, done, m)
    ensures Accounting(limits, Apply(limits, l, done, now, m).lane)
  {
    BacklogStep(limits, l, done, now, m);
    WithinBudgetStep(limits, l, done, now, m);
    FrameSizesStep(limits, l, done, now, m);
    CounterStep(limits, l, done, now, m);
  }

  /** The clamp in `complete` never changes anything. */
  lemma ClampNeverFires(limits: Limits, l: Lane)
    requires Accounting(limits, l) && l.consumer.Completing?
    ensures Release(l.pipe, |l.consumer.frame|).queuedBytes == l.pipe.queuedBytes - |l.consumer.frame| >= 0
  {
  }

  /** The backlog is bounded by the larger of the queue budget and one frame. */
  lemma BacklogBound(limits: Limits, l: Lane)
    requires Accounting(limits, l)
    ensures 0 <= l.pipe.queuedBytes
    ensures l.pipe.queuedBytes <= limits.maxQueueBytes || l.pipe.queuedBytes <= limits.maxFrameBytes
  {
  }

  /** How many of the frames carry any bytes. */
  function NonEmpty(frames: seq<Frame>): (n: nat)
    ensures n <= |frames|
  {
    if frames == [] then 0 else (if frames[0] == [] then 0 else 1) + NonEmpty(frames[1..])
  }

  lemma {:induction false} NonEmptyAtMostBytes(frames: seq<Frame>)
    ensures NonEmpty(frames) <= TotalBytes(frames)
  {
    if frames != [] {
      NonEmptyAtMostBytes(frames[1..]);
    }
  }

  /** Every frame with bytes besides the i-th adds to the total. */
  lemma {:induction false} NonEmptyBesides(frames: seq<Frame>, i: nat)
    requires i < |frames|
    ensures NonEmpty(frames) <= 1 + TotalBytes(frames) - |frames[i]|
  {
    if i == 0 {
      NonEmptyAtMostBytes(frames[1..]);
    } else {
      NonEmptyBesides(frames[1..], i - 1);
    }
  }

  /** Frames with bytes are bounded by the byte budget: the queue can grow past it only by empty frames. */
  lemma QueueLength(limits: Limits, l: Lane)
    requires Accounting(limits, l) && limits.maxQueueBytes >= 1
    ensures NonEmpty(l.pipe.frames) <= limits.maxQueueBytes
  {
    var q := l.pipe.frames;
    if l.pipe.queuedBytes <= limits.maxQueueBytes || l.pipe.queuedBytes == InFlight(l.consumer) {
      NonEmptyAtMostBytes(q);
    } else {
      var i :| 0 <= i < |q| && |q[i]| == l.pipe.queuedBytes;
      NonEmptyBesides(q, i);
    }
  }

  // ---- No lost wake-up ----

  ghost predicate Wakeups(limits: Limits, l: Lane)
  {
    && (l.consumer.Waiting? && l.pipe.frames != [] ==> l.pipe.available || l.producer.Notifying?)
    && (l.producer.Parked? && Fits(l.pipe, |l.producer.frame|, limits.maxQueueBytes) ==>
          l.pipe.space || l.consumer.Releasing?)
  }

  lemma WakeupsStep(limits: Limits, l: Lane, done: bool, now: nat, m: Move)
    requires Wakeups(limits, l) && Enabled(l, done, m)
    ensures Wakeups(limits, Apply(limits, l, done, now, m).lane)
  {
  }

  // ---- The limiter's history ----

  ghost predicate RateHistory(l: Lane)
  {
    l.rate == After(l.arrivals)
  }

  lemma RateHistoryStep(limits: Limits, l: Lane, done: bool, now: nat, m: Move)
    requires RateHistory(l) && Enabled(l, done, m)
    ensures RateHistory(Apply(limits, l, done, now, m).lane)
  {
    if m.CheckRate? {
      var a := Arrival(now, |l.producer.frame|);
      assert (l.arrivals + [a])[..|l.arrivals|] == l.arrivals;
    }
  }

  /** The limiter was asked about every frame read, in order, once each; only the newest may be pending. */
  ghost predicate Metered(l: Lane)
  {
    && |l.arrivals| <= |l.read|
    && (forall k :: 0 <= k < |l.arrivals| ==> l.arrivals[k].size == |l.read[k]|)
    && (l.producer.Rating? ==> |l.read| == |l.arrivals| + 1 && l.read[|l.arrivals|] == l.producer.frame)
    && (!l.producer.Rating? && !l.producer.Ended? ==> |l.read| == |l.arrivals|)
  }

  lemma MeteredStep(limits: Limits, l: Lane, done: bool, now: nat, m: Move)
    requires Metered(l) && Enabled(l, done, m)
    ensures Metered(Apply(limits, l, done, now, m).lane)
  {
  }

  // ---- Only what the limiter let through gets past it ----

  /** Frames that the read pump has handed on. */
  function Past(l: Lane): seq<Frame>
  {
    l.delivered + HeldByConsumer(l.consumer) + l.pipe.frames
  }

  /** Every frame handed on was let through; so was the one that waits to be. */
  ghost predicate Admitted(limits: Limits, l: Lane)
  {
    var n := |Past(l)|;
    && n <= |l.arrivals|
    && (forall k :: 0 <= k < n ==> LetThrough(limits.maxBytesPerSecond, l.arrivals, k))
    && (l.producer.Offering? || l.producer.Parked? || l.producer.GraceOver? ==>
          |l.arrivals| == n + 1 && LetThrough(limits.maxBytesPerSecond, l.arrivals, n))
    && (l.producer.Unstarted? || l.producer.Reading? || l.producer.Rating? || l.producer.Notifying? ==>
          |l.arrivals| == n)
  }

  lemma PastGrows(limits: Limits, l: Lane, done: bool, now: nat, m: Move)
    requires Enabled(l, done, m)
    ensures var l' := Apply(limits, l, done, now, m).lane;
            |Past(l')| == |Past(l)| + (if m.Offer? && l'.producer.Notifying? then 1 else 0)
  {
    hide Charge, Allowed, Fits;
  }

  lemma LetThroughStays(limit: nat, calls: seq<Arrival>, a: Arrival, n: nat)
    requires n <= |calls| && forall k :: 0 <= k < n ==> LetThrough(limit, calls, k)
    ensures forall k :: 0 <= k < n ==> LetThrough(limit, calls + [a], k)
    ensures n == |calls| && Allowed(limit, After(calls), a) ==> LetThrough(limit, calls + [a], n)
  {
    forall k | 0 <= k < n ensures LetThrough(limit, calls + [a], k) {
      assert LetThrough(limit, calls, k);
      assert (calls + [a])[..k] == calls[..k];
    }
    assert (calls + [a])[..|calls|] == calls;
  }

  lemma AdmittedStep(limits: Limits, l: Lane, done: bool, now: nat, m: Move)
    requires Admitted(limits, l) && RateHistory(l) && Enabled(l, done, m)
    ensures Admitted(limits, Apply(limits, l, done, now, m).lane)
  {
    PastGrows(limits, l, done, now, m);
    if m.CheckRate? {
      LetThroughStays(limits.maxBytesPerSecond, l.arrivals, Arrival(now, |l.producer.frame|), |Past(l)|);
    }
    hide Past, LetThrough, Charge, After, Fits;
  }

  /** Bytes handed on that arrived within any second are at most twice the limit. */
  lemma PastRate(limits: Limits, l: Lane, from: int)
    requires Admitted(limits, l) && Metered(l) && Fifo(l) && ClockOrdered(l.arrivals)
    ensures |Past(l)| <= |l.arrivals| && SizesIn(l.arrivals, |Past(l)|, from) <= 2 * limits.maxBytesPerSecond
    ensures forall k :: 0 <= k < |Past(l)| ==> l.arrivals[k].size == |Past(l)[k]|
  {
    var n, limit := |Past(l)|, limits.maxBytesPerSecond;
    LetThroughIsPassed(limit, l.arrivals, n, from);
    PassedGrows(limit, l.arrivals, n, from, from + SECOND);
    AnySecondAtMostTwice(limit, l.arrivals, from);
    assert forall k :: 0 <= k < n ==> l.read[k] == Past(l)[k];
  }

  // ---- The lane as a whole ----

  ghost predicate LaneInv(limits: Limits, l: Lane)
  {
    && Fifo(l)
    && Accounting(limits, l)
    && Wakeups(limits, l)
    && RateHistory(l)
    && Metered(l)
    && Admitted(limits, l)
    && (l.producer.Unstarted? <==> l.consumer.Unstarted?)
    && (l.producer.Ended? ==> |l.producer.lost| <= 1)
    && (l.consumer.Ended? ==> |l.consumer.lost| <= 1)
  }

  lemma LaneStep(limits: Limits, l: Lane, done: bool, now: nat, m: Move)
    requires LaneInv(limits, l) && Enabled(l, done, m)
    ensures LaneInv(limits, Apply(limits, l, done, now, m).lane)
  {
    hide Fifo, Accounting, Wakeups, RateHistory, Metered, Admitted;
    AdmittedStep(limits, l, done, now, m);
    FifoStep(limits, l, done, now, m);
    AccountingStep(limits, l, done, now, m);
    WakeupsStep(limits, l, done, now, m);
    RateHistoryStep(limits, l, done, now, m);
    MeteredStep(limits, l, done, now, m);
  }

  lemma IdleFrames()
    ensures Fifo(IDLE_LANE) && Metered(IDLE_LANE) && RateHistory(IDLE_LANE)
  {
  }

  lemma IdleBytes(limits: Limits)
    ensures Accounting(limits, IDLE_LANE) && Wakeups(limits, IDLE_LANE)
  {
  }

  lemma IdleAdmits(limits: Limits)
    ensures Admitted(limits, IDLE_LANE)
  {
  }

  lemma IdleLaneInv(limits: Limits)
    ensures LaneInv(limits, IDLE_LANE)
  {
    hide Fifo, Accounting, Wakeups, RateHistory, Metered, Admitted;
    IdleFrames();
    IdleBytes(limits);
    IdleAdmits(limits);
  }

  lemma StartStep(limits: Limits, l: Lane)
    requires LaneInv(limits, l) && l.producer.Unstarted?
    ensures LaneInv(limits, Start(l))
  {
    var l' := Start(l);
    assert HeldByProducer(l'.producer) == HeldByProducer(l.producer);
    assert HeldByConsumer(l'.consumer) == HeldByConsumer(l.consumer);
    assert InFlight(l'.consumer) == InFlight(l.consumer) && Uncounted(l'.consumer) == Uncounted(l.consumer);
  }

  /** What a step does to the rest of the lane's bookkeeping. */
  lemma StepFrame(limits: Limits, l: Lane, done: bool, now: nat, m: Move)
    requires LaneInv(limits, l) && Enabled(l, done, m)
    ensures var o := Apply(limits, l, done, now, m);
            && l.counted <= o.lane.counted
            && !l.producer.Unstarted? && !o.lane.producer.Unstarted?
            && (o.lane.producer.Ended? && !l.producer.Ended? ==> o.fails.Some? || done)
            && (o.lane.consumer.Ended? && !l.consumer.Ended? ==> o.fails.Some? || done)
            && (o.lane.arrivals == l.arrivals
                || exists size: nat :: o.lane.arrivals == l.arrivals + [Arrival(now, size)])
  {
    hide Fifo, Accounting, Wakeups, RateHistory, Metered, Charge, Allowed;
    if m.CheckRate? {
      assert Apply(limits, l, done, now, m).lane.arrivals == l.arrivals + [Arrival(now, |l.producer.frame|)];
    }
  }

  /** A step that waits for no endpoint, no timer and no cancellation, only for a lock. */
  predicate OwnMove(m: Move)
  {
    && !m.ReadFrame? && !m.ReadFails? && !m.WriteFrame?
    && !m.GraceTimer? && !m.ProducerSeesDone? && !m.ConsumerSeesDone?
  }

  /**
   * Backpressure cannot deadlock: while the read pump is parked and the write pump has not stopped
   * for good, the write pump is inside the endpoint's write, or one of the two can move by itself.
   */
  lemma ParkedIsServed(limits: Limits, l: Lane, done: bool)
    requires LaneInv(limits, l) && l.producer.Parked? && !l.consumer.Ended?
    ensures l.consumer.Writing? || exists m :: OwnMove(m) && Enabled(l, done, m)
  {
    if l.pipe.space {
      assert Enabled(l, done, TakeSpace);
    } else {
      match l.consumer
      case Checking => assert Enabled(l, done, Take);
      case Renotifying(_) => assert Enabled(l, done, SignalAgain);
      case Writing(_) =>
      case Completing(_, _) => assert Enabled(l, done, Complete);
      case Releasing(_, _) => assert Enabled(l, done, SignalSpace);
      case Counting(_) => assert Enabled(l, done, Count);
      case WriteFailed(_) => assert Enabled(l, done, CheckWriteError);
      case Waiting =>
        // The parked frame does not fit, so bytes are outstanding; a waiting consumer holds none.
        assert l.pipe.frames != [];
        assert Enabled(l, done, TakeAvailable);
      case Unstarted => assert false;
      case Ended(_) => assert false;
    }
  }

  // ---- Runs of a single lane ----

  datatype Timed = Timed(move: Move, done: bool, now: nat)

  ghost predicate LaneRun(limits: Limits, states: seq<Lane>, moves: seq<Timed>)
  {
    && |states| == |moves| + 1
    && states[0] == Start(IDLE_LANE)
    && forall i {:trigger moves[i]} :: 0 <= i < |moves| ==>
         && Enabled(states[i], moves[i].done, moves[i].move)
         && states[i + 1] == Apply(limits, states[i], moves[i].done, moves[i].now, moves[i].move).lane
  }

  lemma {:induction false} LaneRunIsSafe(limits: Limits, states: seq<Lane>, moves: seq<Timed>, i: nat)
    requires LaneRun(limits, states, moves) && i < |states|
    ensures LaneInv(limits, states[i])
  {
    hide LaneInv, Apply, Enabled;
    if i == 0 {
      IdleLaneInv(limits);
      StartStep(limits, IDLE_LANE);
    } else {
      LaneRunIsSafe(limits, states, moves, i - 1);
      var t := moves[i - 1];
      LaneStep(limits, states[i - 1], t.done, t.now, t.move);
    }
  }

  /** What the destination has accepted is a prefix of what the source has handed over, in every run. */
  lemma DeliveredIsPrefix(limits: Limits, states: seq<Lane>, moves: seq<Timed>, i: nat)
    requires LaneRun(limits, states, moves) && i < |states|
    ensures states[i].delivered <= states[i].read
  {
    hide LaneRun, Accounting, Wakeups, Metered, RateHistory;
    LaneRunIsSafe(limits, states, moves, i);
  }

  /** The byte budget does not bound the number of frames: any number of empty ones can queue up. */
  lemma {:induction false} EmptyFramesQueueWithoutBound(limits: Limits, n: nat)
    returns (states: seq<Lane>, moves: seq<Timed>)
    ensures LaneRun(limits, states, moves)
    ensures var l := states[|states| - 1];
            |l.pipe.frames| == n && l.pipe.queuedBytes == 0 && l.producer.Reading? && l.rate.bytes == 0
  {
    if n == 0 {
      states, moves := [Start(IDLE_LANE)], [];
    } else {
      states, moves := EmptyFramesQueueWithoutBound(limits, n - 1);
      states, moves := Extend(limits, states, moves, ReadFrame([]));
      states, moves := Extend(limits, states, moves, CheckRate);
      states, moves := Extend(limits, states, moves, Offer);
      states, moves := Extend(limits, states, moves, SignalAvailable);
    }
  }

  lemma Extend(limits: Limits, states: seq<Lane>, moves: seq<Timed>, m: Move)
    returns (states': seq<Lane>, moves': seq<Timed>)
    requires LaneRun(limits, states, moves)
    requires Enabled(states[|states| - 1], false, m)
    ensures LaneRun(limits, states', moves')
    ensures states'[|states'| - 1] == Apply(limits, states[|states| - 1], false, 0, m).lane
  {
    hide Apply, Enabled;
    var last := states[|states| - 1];
    states' := states + [Apply(limits, last, false, 0, m).lane];
    moves' := moves + [Timed(m, false, 0)];
  }
}
