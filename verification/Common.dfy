/** Small definitions shared by the other modules. */
module Common {

  datatype Option<+T> = None | Some(value: T)

  type Byte = b: int | 0 <= b < 256

  type Bytes = seq<Byte>

  /** An opaque payload: the relay and the transfer code never look inside. */
  type Frame = Bytes

  /** Bytes held in a list of frames. */
  function TotalBytes(frames: seq<Frame>): (n: nat)
  {
    if frames == [] then 0 else |frames[0]| + TotalBytes(frames[1..])
  }

  lemma {:induction false} TotalBytesAppend(a: seq<Frame>, b: seq<Frame>)
    ensures TotalBytes(a + b) == TotalBytes(a) + TotalBytes(b)
  {
    if a == [] {
      assert a + b == b;
    } else {
      assert (a + b)[1..] == a[1..] + b;
      TotalBytesAppend(a[1..], b);
    }
  }

  lemma TotalBytesOne(f: Frame)
    ensures TotalBytes([f]) == |f|
  {
    assert [f][1..] == [];
  }

  /** No frame is longer than everything together. */
  lemma {:induction false} TotalBytesAtLeast(frames: seq<Frame>, i: nat)
    requires i < |frames|
    ensures |frames[i]| <= TotalBytes(frames)
  {
    if i > 0 {
      TotalBytesAtLeast(frames[1..], i - 1);
    }
  }

  /** Taking one element off the rest moves at most one element of s out of the rest. */
  lemma OneMore<T>(s: set<T>, left: set<T>, x: T)
    requires x in left
    ensures |s - (left - {x})| == |s - left| + (if x in s then 1 else 0)
  {
    assert s - (left - {x}) == (s - left) + (if x in s then {x} else {});
  }
}
