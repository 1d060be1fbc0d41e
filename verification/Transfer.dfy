/** The agent's resumable file transfers: the offset-checked receiver and the streaming sender. */
module Transfer {
  import opened Common

  /** The file is open at position `size`, the number of bytes the receiver has acknowledged. */
  datatype Upload = Upload(path: string, size: nat)

  datatype Receiver = Receiver(disk: map<string, Bytes>, uploads: map<string, Upload>)

  function Content(r: Receiver, path: string): Bytes
  {
    if path in r.disk then r.disk[path] else []
  }

  /** Writing at a position; a gap before it reads as zeros, and writing nothing changes nothing. */
  function WriteAt(content: Bytes, pos: nat, data: Bytes): Bytes
  {
    if data == [] then content
    else if |content| < pos then content + seq(pos - |content|, _ => 0) + data
    else if pos + |data| < |content| then content[..pos] + data + content[pos + |data|..]
    else content[..pos] + data
  }

  /** How the write of a chunk ends: in full, or with an error after some bytes reached the file. */
  datatype WriteResult = Written | Broke(bytes: nat)

  datatype Message =
    | Open(id: string, path: string, offset: int)
    | Data(id: string, offset: int, data: Bytes, result: WriteResult)
    | Complete(id: string, offset: int, closed: bool)

  datatype Reply =
    | Ready(size: nat)
    | Quiet
    | Done(path: string, size: nat)
    | OpenFailed | NotFound | OffsetMismatch | WriteFailed | CloseFailed

  datatype Handled = Handled(receiver: Receiver, reply: Reply)

  function Put(r: Receiver, path: string, content: Bytes): Receiver
  {
    r.(disk := r.disk[path := content])
  }

  /** Opening creates the file, cuts it back to the offset, and never leaves a gap. */
  function HandleOpen(r: Receiver, id: string, path: string, offset: int): Handled
  {
    var r' := r.(uploads := r.uploads - {id});
    var content := Content(r', path);
    if offset == 0 then Handled(Put(r', path, []).(uploads := r'.uploads[id := Upload(path, 0)]), Ready(0))
    else if offset < 0 || offset > |content| then Handled(Put(r', path, content), OpenFailed)
    else Handled(Put(r', path, content[..offset]).(uploads := r'.uploads[id := Upload(path, offset)]), Ready(offset))
  }

  function HandleData(r: Receiver, id: string, offset: int, data: Bytes, result: WriteResult): Handled
  {
    if id !in r.uploads then Handled(r, NotFound)
    else
      var u := r.uploads[id];
      if offset != u.size then Handled(r, OffsetMismatch)
      else match result
        case Written =>
          Handled(Put(r, u.path, WriteAt(Content(r, u.path), u.size, data))
                    .(uploads := r.uploads[id := Upload(u.path, u.size + |data|)]), Quiet)
        case Broke(n) =>
          var part := if n <= |data| then data[..n] else data;
          Handled(Put(r, u.path, WriteAt(Content(r, u.path), u.size, part)).(uploads := r.uploads - {id}), WriteFailed)
  }

  function HandleComplete(r: Receiver, id: string, offset: int, closed: bool): Handled
  {
    if id !in r.uploads then Handled(r, NotFound)
    else
      var u := r.uploads[id];
      var r' := r.(uploads := r.uploads - {id});
      if offset != u.size then Handled(r', OffsetMismatch)
      else if !closed then Handled(r', CloseFailed)
      else Handled(r', Done(u.path, u.size))
  }

  function Handle(r: Receiver, m: Message): Handled
  {
    match m
    case Open(id, path, offset) => HandleOpen(r, id, path, offset)
    case Data(id, offset, data, result) => HandleData(r, id, offset, data, result)
    case Complete(id, offset, closed) => HandleComplete(r, id, offset, closed)
  }

  /** The agent's upload table and the files behind it. */
  class Client {
    var disk: map<string, Bytes>
    var uploads: map<string, Upload>

    function State(): Receiver
      reads this
    {
      Receiver(disk, uploads)
    }

    constructor ()
      ensures State() == Receiver(map[], map[])
    {
      disk, uploads := map[], map[];
    }

    method StartUploadTransfer(id: string, path: string, offset: int) returns (reply: Reply)
      modifies this
      ensures Handled(State(), reply) == HandleOpen(old(State()), id, path, offset)
    {
      uploads := uploads - {id};
      var content := if path in disk then disk[path] else [];
      if offset == 0 {
        disk := disk[path := []];
        uploads := uploads[id := Upload(path, 0)];
        return Ready(0);
      }
      disk := disk[path := content];
      if offset < 0 || offset > |content| {
        return OpenFailed;
      }
      if |content| > offset {
        disk := disk[path := content[..offset]];
      }
      assert content[..offset] == disk[path];
      uploads := uploads[id := Upload(path, offset)];
      return Ready(offset);
    }

    method HandleTransferData(id: string, offset: int, data: Bytes, result: WriteResult) returns (reply: Reply)
      modifies this
      ensures Handled(State(), reply) == HandleData(old(State()), id, offset, data, result)
    {
      if id !in uploads {
        return NotFound;
      }
      var upload := uploads[id];
      if offset != upload.size {
        return OffsetMismatch;
      }
      var content := if upload.path in disk then disk[upload.path] else [];
      if result.Broke? {
        var part := if result.bytes <= |data| then data[..result.bytes] else data;
        disk := disk[upload.path := WriteAt(content, upload.size, part)];
        uploads := uploads - {id};
        return WriteFailed;
      }
      disk := disk[upload.path := WriteAt(content, upload.size, data)];
      uploads := uploads[id := upload.(size := upload.size + |data|)];
      return Quiet;
    }

    method HandleTransferComplete(id: string, offset: int, closed: bool) returns (reply: Reply)
      modifies this
      ensures Handled(State(), reply) == HandleComplete(old(State()), id, offset, closed)
    {
      if id !in uploads {
        return NotFound;
      }
      var upload := uploads[id];
      uploads := uploads - {id};
      if offset != upload.size {
        return OffsetMismatch;
      }
      if !closed {
        return CloseFailed;
      }
      return Done(upload.path, upload.size);
    }
  }

  // ---- A rejected chunk changes nothing ----

  lemma RejectedChangesNothing(r: Receiver, id: string, offset: int, data: Bytes, result: WriteResult)
    ensures HandleData(r, id, offset, data, result).reply in {NotFound, OffsetMismatch}
            ==> HandleData(r, id, offset, data, result).receiver == r
    ensures HandleData(r, id, offset, data, result).reply == Quiet <==>
              id in r.uploads && offset == r.uploads[id].size && result == Written
  {
  }

  // ---- What each message does, and what it leaves alone ----

  /** Everything but one path's file and one transfer stays as it was. */
  ghost predicate OnlyHere(r: Receiver, r': Receiver, id: string, path: string)
  {
    && (forall p :: p != path ==> (p in r'.disk <==> p in r.disk) && (p in r.disk ==> r'.disk[p] == r.disk[p]))
    && r'.uploads - {id} == r.uploads - {id}
  }

  /**
   * Opening succeeds exactly at an offset within the file, cuts it there, and replaces an earlier
   * transfer of the id.
   */
  lemma OpenExactly(r: Receiver, id: string, path: string, offset: int)
    ensures var h := HandleOpen(r, id, path, offset);
            var was := Content(r, path);
            && OnlyHere(r, h.receiver, id, path) && path in h.receiver.disk
            && (if 0 <= offset <= |was| then
                  && h.reply == Ready(offset) && Content(h.receiver, path) == was[..offset]
                  && id in h.receiver.uploads && h.receiver.uploads[id] == Upload(path, offset)
                else h.reply == OpenFailed && Content(h.receiver, path) == was && id !in h.receiver.uploads)
  {
  }

  /** A chunk is written at the held size or refused; a broken write keeps what arrived and forgets the transfer. */
  lemma DataExactly(r: Receiver, id: string, offset: int, data: Bytes, result: WriteResult)
    ensures var h := HandleData(r, id, offset, data, result);
            if id !in r.uploads then h == Handled(r, NotFound)
            else
              var u := r.uploads[id];
              var was := Content(r, u.path);
              if offset != u.size then h == Handled(r, OffsetMismatch)
              else
                && OnlyHere(r, h.receiver, id, u.path)
                && (result == Written ==>
                      && h.reply == Quiet && Content(h.receiver, u.path) == WriteAt(was, u.size, data)
                      && id in h.receiver.uploads && h.receiver.uploads[id] == Upload(u.path, u.size + |data|))
                && (result.Broke? ==>
                      && h.reply == WriteFailed && id !in h.receiver.uploads
                      && exists n :: 0 <= n <= |data| && Content(h.receiver, u.path) == WriteAt(was, u.size, data[..n]))
  {
    hide WriteAt;
    if id in r.uploads && result.Broke? {
      var n := if result.bytes <= |data| then result.bytes else |data|;
      assert data[..|data|] == data;
      assert offset == r.uploads[id].size ==>
               Content(HandleData(r, id, offset, data, result).receiver, r.uploads[id].path)
               == WriteAt(Content(r, r.uploads[id].path), r.uploads[id].size, data[..n]);
    }
  }

  /** What writing at a position does to each byte. */
  lemma WriteAtBytes(content: Bytes, pos: nat, data: Bytes)
    requires data != []
    ensures var w := WriteAt(content, pos, data);
            && |w| == (if |content| <= pos + |data| then pos + |data| else |content|)
            && forall k :: 0 <= k < |w| ==>
                 w[k] == if pos <= k < pos + |data| then data[k - pos] else if k < |content| then content[k] else 0
  {
  }

  /** Completing forgets the transfer whatever it answers, and touches no file and no other transfer. */
  lemma CompleteExactly(r: Receiver, id: string, offset: int, closed: bool)
    ensures var h := HandleComplete(r, id, offset, closed);
            && id !in h.receiver.uploads && h.receiver.disk == r.disk && h.receiver.uploads == r.uploads - {id}
            && (h.reply == NotFound <==> id !in r.uploads)
            && (h.reply == OffsetMismatch <==> id in r.uploads && offset != r.uploads[id].size)
            && (h.reply == CloseFailed <==> id in r.uploads && offset == r.uploads[id].size && !closed)
            && (id in r.uploads && offset == r.uploads[id].size && closed ==>
                  h.reply == Done(r.uploads[id].path, offset))
  {
    if id !in r.uploads {
      assert r.uploads - {id} == r.uploads;
    }
  }

  // ---- Reassembly under loss, duplication, reordering, breaks and resumes ----

  /** A chunk whose bytes are those of the source file at its offset. */
  ghost predicate Genuine(source: Bytes, offset: int, data: Bytes)
  {
    0 <= offset && offset + |data| <= |source| && data == source[offset..offset + |data|]
  }

  /** One transfer owns the path, and whatever it sends is cut from the source. */
  ghost predicate Fair(source: Bytes, id: string, path: string, m: Message)
  {
    && (m.Open? && m.path == path ==> m.id == id)
    && (m.Data? && m.id == id ==> Genuine(source, m.offset, m.data))
  }

  /** The file is a prefix of the source, and an open upload stands at its end. */
  ghost predicate Faithful(source: Bytes, id: string, path: string, r: Receiver)
  {
    && Content(r, path) <= source
    && forall k <- r.uploads :: r.uploads[k].path == path ==> k == id && r.uploads[k].size == |Content(r, path)|
  }

  lemma AppendGenuine(source: Bytes, content: Bytes, data: Bytes)
    requires content <= source && Genuine(source, |content|, data)
    ensures WriteAt(content, |content|, data) == content + data
    ensures content + data <= source
  {
    assert content == source[..|content|];
    assert source[..|content| + |data|] == source[..|content|] + source[|content|..|content| + |data|];
  }

  lemma DataKeeps(source: Bytes, id: string, path: string, r: Receiver, m: Message)
    requires Faithful(source, id, path, r) && Fair(source, id, path, m) && m.Data?
    ensures Faithful(source, id, path, Handle(r, m).receiver)
  {
    if m.id in r.uploads && m.offset == r.uploads[m.id].size && r.uploads[m.id].path == path {
      var content := Content(r, path);
      if m.result.Broke? {
        var part := if m.result.bytes <= |m.data| then m.data[..m.result.bytes] else m.data;
        assert part == source[m.offset..m.offset + |part|];
        AppendGenuine(source, content, part);
      } else {
        AppendGenuine(source, content, m.data);
      }
      hide WriteAt;
    }
  }

  lemma HandleKeeps(source: Bytes, id: string, path: string, r: Receiver, m: Message)
    requires Faithful(source, id, path, r) && Fair(source, id, path, m)
    ensures Faithful(source, id, path, Handle(r, m).receiver)
  {
    if m.Data? {
      hide HandleData, Faithful;
      DataKeeps(source, id, path, r, m);
    }
  }

  function Receive(r: Receiver, messages: seq<Message>): Receiver
    decreases |messages|
  {
    if messages == [] then r else Receive(Handle(r, messages[0]).receiver, messages[1..])
  }

  lemma {:induction false} StaysFaithful(source: Bytes, id: string, path: string, r: Receiver, messages: seq<Message>)
    requires Faithful(source, id, path, r)
    requires forall m <- messages :: Fair(source, id, path, m)
    ensures Faithful(source, id, path, Receive(r, messages))
    decreases |messages|
  {
    if messages != [] {
      HandleKeeps(source, id, path, r, messages[0]);
      StaysFaithful(source, id, path, Handle(r, messages[0]).receiver, messages[1..]);
    }
  }

  /** No other upload is open on the path. What the file holds is left open. */
  ghost predicate Sole(r: Receiver, id: string, path: string)
  {
    forall k <- r.uploads :: r.uploads[k].path == path ==> k == id
  }

  /** The receiver once a transfer has been opened. */
  function Begun(r: Receiver, id: string, path: string, offset: nat): Receiver
  {
    HandleOpen(r, id, path, offset).receiver
  }

  /** What is kept of the file by opening at the offset is the source's; at offset zero nothing is kept. */
  predicate StartsRight(source: Bytes, r: Receiver, path: string, offset: nat)
  {
    offset <= |Content(r, path)| && Content(r, path)[..offset] <= source
  }

  /** An opened transfer stands on the source exactly when what it keeps of the file is the source's. */
  lemma BeginsFaithfulExactly(source: Bytes, id: string, path: string, r: Receiver, offset: nat)
    requires Sole(r, id, path) && HandleOpen(r, id, path, offset).reply.Ready?
    ensures Faithful(source, id, path, Begun(r, id, path, offset)) <==> StartsRight(source, r, path, offset)
    ensures offset == 0 ==> StartsRight(source, r, path, offset)
  {
  }

  lemma RightStartOpens(source: Bytes, id: string, path: string, r: Receiver, offset: nat)
    requires StartsRight(source, r, path, offset)
    ensures HandleOpen(r, id, path, offset).reply == Ready(offset)
  {
  }

  /**
   * Whatever messages arrive after a transfer has begun, in whatever order and number, with breaks
   * and re-openings at any offset: the file never holds a byte that is not the source's byte at
   * that position.
   */
  lemma NeverCorrupt(source: Bytes, id: string, path: string, r: Receiver, offset: nat, messages: seq<Message>)
    requires Sole(r, id, path) && StartsRight(source, r, path, offset)
    requires forall m <- messages :: Fair(source, id, path, m)
    ensures Faithful(source, id, path, Receive(Begun(r, id, path, offset), messages))
  {
    RightStartOpens(source, id, path, r, offset);
    BeginsFaithfulExactly(source, id, path, r, offset);
    StaysFaithful(source, id, path, Begun(r, id, path, offset), messages);
  }

  /** A completion reply is sent exactly when the final offset is what the receiver holds; then that is the file. */
  lemma CompletionIsExact(source: Bytes, id: string, path: string, r: Receiver, start: nat, messages: seq<Message>,
                          offset: int, closed: bool)
    requires Sole(r, id, path) && StartsRight(source, r, path, start)
    requires forall m <- messages :: Fair(source, id, path, m)
    ensures var after := Receive(Begun(r, id, path, start), messages);
            var h := HandleComplete(after, id, offset, closed);
            && (h.reply.Done? <==> id in after.uploads && after.uploads[id].size == offset && closed)
            && (h.reply.Done? && h.reply.path == path ==>
                  0 <= offset <= |source| && h.reply.size == offset && Content(h.receiver, path) == source[..offset])
  {
    NeverCorrupt(source, id, path, r, start, messages);
  }

  // ---- Several transfers on one path ----

  /** The source has only zeros in the stretch. */
  ghost predicate Zeros(source: Bytes, from: nat, to: nat)
  {
    forall k :: from <= k < to && k < |source| ==> source[k] == 0
  }

  /** Genuine bytes keep a prefix a prefix exactly when they leave no gap where the source is not zero. */
  lemma WriteExactly(source: Bytes, content: Bytes, pos: nat, data: Bytes)
    requires content <= source && Genuine(source, pos, data) && data != []
    ensures WriteAt(content, pos, data) <= source <==> Zeros(source, |content|, pos)
  {
    var w := WriteAt(content, pos, data);
    assert forall k :: 0 <= k < |content| ==> content[k] == source[k];
    assert forall k :: 0 <= k < |data| ==> data[k] == source[pos + k];
    if |content| < pos {
      assert forall k :: |content| <= k < pos ==> w[k] == 0;
      assert forall k :: pos <= k < |w| ==> w[k] == source[k];
      if w <= source {
        assert forall k :: |content| <= k < pos ==> w[k] == source[k];
      }
    } else {
      assert forall k :: 0 <= k < |w| ==> w[k] == source[k];
    }
  }

  /** What a message writes, and into which path, if it writes at all. */
  function WrittenBy(r: Receiver, m: Message): Option<(string, nat, Bytes)>
  {
    if m.Data? && m.id in r.uploads && m.offset == r.uploads[m.id].size then
      Some((r.uploads[m.id].path, r.uploads[m.id].size,
            if m.result.Broke? && m.result.bytes <= |m.data| then m.data[..m.result.bytes] else m.data))
    else None
  }

  ghost predicate LeavesGap(source: Bytes, path: string, r: Receiver, m: Message)
  {
    var w := WrittenBy(r, m);
    w.Some? && w.value.0 == path && w.value.2 != [] && !Zeros(source, |Content(r, path)|, w.value.1)
  }

  /**
   * Any number of transfers on one path, all of one source: a message keeps the file a prefix of
   * the source if and only if it does not write past a gap.
   */
  lemma MessageExactly(source: Bytes, path: string, r: Receiver, m: Message)
    requires Content(r, path) <= source
    requires m.Data? && m.id in r.uploads && r.uploads[m.id].path == path ==> Genuine(source, m.offset, m.data)
    ensures Content(Handle(r, m).receiver, path) <= source <==> !LeavesGap(source, path, r, m)
  {
    hide WriteAt, Zeros;
    var w := WrittenBy(r, m);
    if w.Some? && w.value.0 == path {
      var part := w.value.2;
      assert part == source[w.value.1..w.value.1 + |part|];
      if part != [] {
        WriteExactly(source, Content(r, path), w.value.1, part);
      } else {
        WritingNothing(Content(r, path), w.value.1);
      }
    }
  }

  /** Every write that a sequence of messages makes to the path is cut from the source. */
  ghost predicate AllGenuine(source: Bytes, path: string, r: Receiver, messages: seq<Message>)
    decreases |messages|
  {
    messages == [] ||
    (var m := messages[0];
     && (m.Data? && m.id in r.uploads && r.uploads[m.id].path == path ==> Genuine(source, m.offset, m.data))
     && AllGenuine(source, path, Handle(r, m).receiver, messages[1..]))
  }

  ghost predicate NoGaps(source: Bytes, path: string, r: Receiver, messages: seq<Message>)
    decreases |messages|
  {
    messages == [] ||
    (!LeavesGap(source, path, r, messages[0]) && NoGaps(source, path, Handle(r, messages[0]).receiver, messages[1..]))
  }

  /** The file is a prefix of the source after every message. */
  ghost predicate AlwaysPrefix(source: Bytes, path: string, r: Receiver, messages: seq<Message>)
    decreases |messages|
  {
    Content(r, path) <= source
    && (messages == [] || AlwaysPrefix(source, path, Handle(r, messages[0]).receiver, messages[1..]))
  }

  /**
   * Any number of transfers of one source to one path, interleaved in any way: the file is a prefix of
   * the source throughout if and only if no message writes past a gap.
   */
  lemma {:induction false} ManyTransfersExactly(source: Bytes, path: string, r: Receiver, messages: seq<Message>)
    requires Content(r, path) <= source && AllGenuine(source, path, r, messages)
    ensures AlwaysPrefix(source, path, r, messages) <==> NoGaps(source, path, r, messages)
    ensures NoGaps(source, path, r, messages) ==> Content(Receive(r, messages), path) <= source
    decreases |messages|
  {
    hide LeavesGap, Handle;
    if messages != [] {
      var r' := Handle(r, messages[0]).receiver;
      MessageExactly(source, path, r, messages[0]);
      if Content(r', path) <= source {
        ManyTransfersExactly(source, path, r', messages[1..]);
      }
    }
  }

  /**
   * A completion reply is sent for the right file if and only if the file is then a prefix of the source
   * and as long as this transfer's own count; another transfer may have cut or grown it.
   */
  lemma DoneIsRightExactly(source: Bytes, id: string, path: string, r: Receiver, offset: int, closed: bool)
    requires id in r.uploads && r.uploads[id].path == path && HandleComplete(r, id, offset, closed).reply.Done?
    ensures var h := HandleComplete(r, id, offset, closed);
            && h.reply == Done(path, r.uploads[id].size) && offset == r.uploads[id].size
            && ((offset <= |source| && Content(h.receiver, path) == source[..offset]) <==>
                  Content(r, path) <= source && |Content(r, path)| == r.uploads[id].size)
  {
  }

  lemma WritingNothing(content: Bytes, pos: nat)
    ensures WriteAt(content, pos, []) == content
  {
  }

  /** No write past a gap, and still a completion reply for a wrong file: the second opening empties it. */
  lemma TruncatedCompletes()
    ensures var source: Bytes := [1, 2];
            var messages := [Open("a", "f", 0), Data("a", 0, [1], Written), Open("b", "f", 0)];
            var r := Receive(Receiver(map[], map[]), messages);
            && NoGaps(source, "f", Receiver(map[], map[]), messages)
            && HandleComplete(r, "a", 1, true).reply == Done("f", 1)
            && Content(r, "f") == []
  {
    Openings();
    Writings();
    hide Handle;
    var r := Receiver(map[], map[]);
    var m1, m2, m3 := Open("a", "f", 0), Data("a", 0, [1], Written), Open("b", "f", 0);
    var ms := [m1, m2, m3];
    assert ms[1..] == [m2, m3] && ms[1..][1..] == [m3] && ms[1..][1..][1..] == [];
    assert Receive(r, ms) == Receive(FIRST_OPEN, ms[1..]) == Receive(FIRST_BYTE, ms[1..][1..]);
    assert Receive(FIRST_BYTE, ms[1..][1..]) == Receive(BOTH_OPEN, []);
    assert NoGaps([1, 2], "f", BOTH_OPEN, ms[1..][1..][1..]);
    assert NoGaps([1, 2], "f", FIRST_BYTE, ms[1..][1..]);
    assert NoGaps([1, 2], "f", FIRST_OPEN, ms[1..]);
  }

  // The receiver along two uploads of one source to one path.
  const FIRST_OPEN := Receiver(map["f" := []], map["a" := Upload("f", 0)])
  const FIRST_BYTE := Receiver(map["f" := [1]], map["a" := Upload("f", 1)])
  const BOTH_OPEN := Receiver(map["f" := []], map["a" := Upload("f", 1), "b" := Upload("f", 0)])
  const GAP := Receiver(map["f" := [0, 2]], map["a" := Upload("f", 2), "b" := Upload("f", 0)])

  lemma Openings()
    ensures Handle(Receiver(map[], map[]), Open("a", "f", 0)).receiver == FIRST_OPEN
    ensures Handle(FIRST_BYTE, Open("b", "f", 0)).receiver == BOTH_OPEN
  {
  }

  lemma Writings()
    ensures Handle(FIRST_OPEN, Data("a", 0, [1], Written)).receiver == FIRST_BYTE
    ensures Handle(BOTH_OPEN, Data("a", 1, [2], Written)).receiver == GAP
  {
    assert WriteAt([], 0, [1]) == [1];
    var zero: Bytes := seq(1, _ => 0);
    assert zero == [0] && WriteAt([], 1, [2]) == [] + zero + [2] == [0, 2];
  }

  /** Two uploads of one source to one path: the second truncates, the first writes on behind the gap and completes. */
  lemma TwoUploadsCorrupt()
    ensures var source: Bytes := [1, 2];
            var r := Receive(Receiver(map[], map[]), [
              Open("a", "f", 0), Data("a", 0, [1], Written), Open("b", "f", 0), Data("a", 1, [2], Written)]);
            && HandleComplete(r, "a", 2, true).reply == Done("f", 2)
            && Content(r, "f") == [0, 2] != source
  {
    Openings();
    Writings();
    hide Handle;
    var r := Receiver(map[], map[]);
    var m1, m2, m3, m4 := Open("a", "f", 0), Data("a", 0, [1], Written), Open("b", "f", 0), Data("a", 1, [2], Written);
    var ms := [m1, m2, m3, m4];
    assert ms[1..] == [m2, m3, m4] && ms[1..][1..] == [m3, m4];
    assert [m3, m4][1..] == [m4] && [m4][1..] == [];
    assert Receive(r, ms) == Receive(FIRST_OPEN, ms[1..]) == Receive(FIRST_BYTE, ms[1..][1..]);
    assert Receive(FIRST_BYTE, [m3, m4]) == Receive(BOTH_OPEN, [m4]) == Receive(GAP, []);
  }

  // ---- The sender ----

  const CHUNK := 32768

  datatype Chunk = Chunk(offset: nat, data: Bytes)

  /** Consecutive pieces of the source starting at a position. */
  ghost predicate Consecutive(source: Bytes, chunks: seq<Chunk>, from: nat)
  {
    chunks == [] ||
    (&& chunks[0].offset == from && 0 < |chunks[0].data| <= CHUNK
     && Genuine(source, from, chunks[0].data)
     && Consecutive(source, chunks[1..], from + |chunks[0].data|))
  }

  function EndOf(chunks: seq<Chunk>, from: nat): nat
  {
    if chunks == [] then from else EndOf(chunks[1..], from + |chunks[0].data|)
  }

  lemma {:induction false} ConsecutiveAppend(source: Bytes, chunks: seq<Chunk>, from: nat, data: Bytes)
    requires Consecutive(source, chunks, from)
    requires 0 < |data| <= CHUNK && Genuine(source, EndOf(chunks, from), data)
    ensures Consecutive(source, chunks + [Chunk(EndOf(chunks, from), data)], from)
    ensures EndOf(chunks + [Chunk(EndOf(chunks, from), data)], from) == EndOf(chunks, from) + |data|
    decreases |chunks|
  {
    var c := Chunk(EndOf(chunks, from), data);
    if chunks == [] {
      assert [c][1..] == [];
    } else {
      assert (chunks + [c])[1..] == chunks[1..] + [c];
      ConsecutiveAppend(source, chunks[1..], from + |chunks[0].data|, data);
    }
  }

  /**
   * What one read does: it gives up to n bytes, with `early` reporting the end of the file along with
   * its last bytes rather than by one more read; or it breaks; or the connection is gone.
   */
  datatype ReadAttempt = UpTo(n: nat, early: bool) | ReadBroke | ConnectionLost

  /** Where a request ends: at its length if it has one and the file is long enough, else at end of file. */
  function StopAt(source: Bytes, offset: nat, length: int): nat
  {
    if length > 0 && offset + length <= |source| then offset + length else |source|
  }

  /** No read breaks and none comes back empty. */
  ghost predicate AllMove(attempts: seq<ReadAttempt>)
  {
    forall i :: 0 <= i < |attempts| ==> attempts[i].UpTo? && attempts[i].n > 0
  }

  /**
   * The download loop over any schedule of short reads; `finished` is the final offset it announces
   * unless the transfer was cancelled. With reads that all move, it ends after at most one read
   * more than there are bytes.
   */
  method StreamDownload(source: Bytes, offset: nat, length: int, attempts: seq<ReadAttempt>, cancelled: bool)
    returns (chunks: seq<Chunk>, finished: Option<nat>)
    requires offset <= |source|
    ensures Consecutive(source, chunks, offset)
    ensures EndOf(chunks, offset) <= StopAt(source, offset, length)
    ensures forall c <- chunks :: 1 <= |c.data| <= 32_768
    ensures finished.Some? ==> !cancelled && finished.value == EndOf(chunks, offset) == StopAt(source, offset, length)
    ensures finished.None? && !cancelled && AllMove(attempts) ==> |attempts| <= EndOf(chunks, offset) - offset
  {
    chunks, finished := [], None;
    var currentOffset := offset;
    var remaining := length;
    var i := 0;
    while true
      invariant 0 <= i <= |attempts|
      invariant Consecutive(source, chunks, offset) && currentOffset == EndOf(chunks, offset)
      invariant offset <= currentOffset <= StopAt(source, offset, length)
      invariant length > 0 ==> remaining == length - (currentOffset - offset)
      invariant length <= 0 ==> remaining == length
      invariant AllMove(attempts) ==> i <= currentOffset - offset
      invariant forall c <- chunks :: 1 <= |c.data| <= CHUNK
      decreases |attempts| - i
    {
      if remaining == 0 && length > 0 {
        break;
      }
      if i == |attempts| {
        return;
      }
      var attempt := attempts[i];
      i := i + 1;
      if !attempt.UpTo? {
        return;
      }
      var size := if 0 < remaining < CHUNK then remaining else CHUNK;
      var left := |source| - currentOffset;
      var n := if attempt.n < size then attempt.n else size;
      n := if n < left then n else left;
      if n > 0 {
        var data := source[currentOffset..currentOffset + n];
        ConsecutiveAppend(source, chunks, offset, data);
        chunks := chunks + [Chunk(currentOffset, data)];
        currentOffset := currentOffset + n;
        if remaining > 0 {
          remaining := remaining - n;
        }
      }
      if left == 0 || (attempt.early && currentOffset == |source|) {
        break;
      }
    }
    if cancelled {
      return;
    }
    finished := Some(currentOffset);
  }

  function AsMessages(id: string, chunks: seq<Chunk>): (ms: seq<Message>)
    ensures |ms| == |chunks|
    ensures forall k :: 0 <= k < |ms| ==> ms[k] == Data(id, chunks[k].offset, chunks[k].data, Written)
  {
    seq(|chunks|, k requires 0 <= k < |chunks| => Data(id, chunks[k].offset, chunks[k].data, Written))
  }

  /**
   * A whole stream, fed to a receiver that stands at its first offset, is taken completely: the
   * file becomes the source up to the stream's end. With StreamDownload this holds for every
   * schedule of short reads and for every resume at the size the receiver reported.
   */
  lemma {:induction false} StreamRebuildsSlice(source: Bytes, id: string, path: string, r: Receiver,
                                               chunks: seq<Chunk>, from: nat)
    requires Faithful(source, id, path, r) && id in r.uploads && r.uploads[id] == Upload(path, from)
    requires Consecutive(source, chunks, from)
    ensures var after := Receive(r, AsMessages(id, chunks));
            && id in after.uploads && after.uploads[id] == Upload(path, EndOf(chunks, from))
            && EndOf(chunks, from) <= |source|
            && Content(after, path) == source[..EndOf(chunks, from)]
    decreases |chunks|
  {
    var ms := AsMessages(id, chunks);
    if chunks == [] {
      assert Content(r, path) == source[..from];
    } else {
      var c := chunks[0];
      HandleKeeps(source, id, path, r, ms[0]);
      assert ms[1..] == AsMessages(id, chunks[1..]);
      StreamRebuildsSlice(source, id, path, Handle(r, ms[0]).receiver, chunks[1..], from + |c.data|);
    }
  }

  /** Resuming at the size the receiver reports: opening there keeps everything already held. */
  lemma ResumeKeepsAll(source: Bytes, id: string, path: string, r: Receiver)
    requires Faithful(source, id, path, r)
    ensures var h := HandleOpen(r, id, path, |Content(r, path)|);
            h.reply == Ready(|Content(r, path)|) && Content(h.receiver, path) == Content(r, path)
            && id in h.receiver.uploads && h.receiver.uploads[id] == Upload(path, |Content(r, path)|)
  {
  }

  /**
   * After any history of breaks, repeats and losses: reopening at the size held, streaming on from
   * there and completing gives exactly the source up to the stream's end.
   */
  lemma ResumedTransferCompletes(source: Bytes, id: string, path: string, r: Receiver, start: nat,
                                 messages: seq<Message>, chunks: seq<Chunk>)
    requires Sole(r, id, path) && StartsRight(source, r, path, start)
    requires forall m <- messages :: Fair(source, id, path, m)
    requires Consecutive(source, chunks, |Content(Receive(Begun(r, id, path, start), messages), path)|)
    ensures var broken := Receive(Begun(r, id, path, start), messages);
            var held := |Content(broken, path)|;
            var end := EndOf(chunks, held);
            var resumed := HandleOpen(broken, id, path, held).receiver;
            var h := HandleComplete(Receive(resumed, AsMessages(id, chunks)), id, end, true);
            end <= |source| && h.reply == Done(path, end) && Content(h.receiver, path) == source[..end]
  {
    hide Begun, Sole, StartsRight;
    var broken := Receive(Begun(r, id, path, start), messages);
    var held := |Content(broken, path)|;
    NeverCorrupt(source, id, path, r, start, messages);
    ResumeKeepsAll(source, id, path, broken);
    HandleKeeps(source, id, path, broken, Open(id, path, held));
    hide Faithful, HandleOpen, Receive, Consecutive, EndOf;
    StreamRebuildsSlice(source, id, path, HandleOpen(broken, id, path, held).receiver, chunks, held);
  }
}
