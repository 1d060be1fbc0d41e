/** The bounded byte queue between a read pump and a write pump, one critical section at a time. */
module RelayPipe {
  import opened Common

  /** `available` and `space` are the two one-token notification channels. */
  datatype Pipe = Pipe(frames: seq<Frame>, queuedBytes: int, available: bool, space: bool)

  const EMPTY_PIPE := Pipe([], 0, false, false)

  /** A frame is admitted into an idle pipe whatever its size, otherwise only within the budget. */
  predicate Fits(p: Pipe, size: nat, limit: nat)
  {
    p.queuedBytes == 0 || p.queuedBytes + size <= limit
  }

  function Append(p: Pipe, f: Frame): Pipe
  {
    p.(frames := p.frames + [f], queuedBytes := p.queuedBytes + |f|)
  }

  function Pop(p: Pipe): Pipe
    requires p.frames != []
  {
    p.(frames := p.frames[1..])
  }

  function Release(p: Pipe, size: nat): Pipe
  {
    p.(queuedBytes := if p.queuedBytes - size < 0 then 0 else p.queuedBytes - size)
  }

  /** The mutable pipe: each method is what one goroutine does while it holds `pipe.mu`. */
  class PipeObject {
    var frames: seq<Frame>
    var queuedBytes: int
    var available: bool
    var space: bool

    function State(): Pipe
      reads this
    {
      Pipe(frames, queuedBytes, available, space)
    }

    constructor ()
      ensures State() == EMPTY_PIPE
    {
      frames, queuedBytes, available, space := [], 0, false, false;
    }

    method TryEnqueue(payload: Frame, limit: nat) returns (admitted: bool)
      modifies this
      ensures admitted <==> old(queuedBytes) == 0 || old(queuedBytes) + |payload| <= limit
      ensures admitted == Fits(old(State()), |payload|, limit)
      ensures State() == if admitted then Append(old(State()), payload) else old(State())
    {
      if queuedBytes == 0 || queuedBytes + |payload| <= limit {
        frames := frames + [payload];
        queuedBytes := queuedBytes + |payload|;
        return true;
      }
      return false;
    }

    method TryNext() returns (payload: Option<Frame>, more: bool)
      modifies this
      ensures payload.Some? == (old(frames) != [])
      ensures payload.Some? ==> payload.value == old(frames)[0] && State() == Pop(old(State()))
      ensures payload.None? ==> State() == old(State())
      ensures more == (|old(frames)| > 1)
    {
      if |frames| > 0 {
        payload := Some(frames[0]);
        frames := frames[1..];
        more := |frames| > 0;
      } else {
        payload, more := None, false;
      }
    }

    method Complete(size: nat)
      modifies this
      ensures State() == Release(old(State()), size)
    {
      queuedBytes := queuedBytes - size;
      if queuedBytes < 0 {
        queuedBytes := 0;
      }
    }

    method NotifyAvailable()
      modifies this
      ensures State() == old(State()).(available := true)
    {
      if !available {
        available := true;
      }
    }

    method NotifySpace()
      modifies this
      ensures State() == old(State()).(space := true)
    {
      if !space {
        space := true;
      }
    }
  }
}
