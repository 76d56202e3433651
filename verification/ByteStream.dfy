/** The ByteStream service (internal/server/cas_service.go: Write, Read, QueryWriteStatus). */
module ByteStream {
  import opened Digests
  import Cas
  import Names = ResourceNames

  const READ_CHUNK_SIZE: nat := 1024 * 1024

  datatype WriteRequest = WriteRequest(name: Text, offset: Int64, data: Bytes, finish: bool)

  /** What Recv returns after the last message. */
  datatype Ending = EndOfStream | Broken

  datatype WriteOutcome = Committed(size: int) | InvalidArgument | Internal | ReceiveFailed | ReplyFailed

  // ---- What a message sequence uploads ----

  datatype Gathered = Payload(bytes: Bytes) | OutOfOrder | Cut

  /** The loop of Write over the messages, having buffered `soFar`. */
  function Gather(msgs: seq<WriteRequest>, ending: Ending, soFar: Bytes): Gathered {
    if msgs == [] then (if ending.EndOfStream? then Payload(soFar) else Cut)
    else if msgs[0].data != [] && msgs[0].offset != |soFar| then OutOfOrder
    else if msgs[0].finish then Payload(soFar + msgs[0].data)
    else Gather(msgs[1..], ending, soFar + msgs[0].data)
  }

  /** What Write answers when neither the disk nor the store fails. */
  function Verdict(msgs: seq<WriteRequest>, ending: Ending): WriteOutcome {
    if msgs == [] then ReceiveFailed
    else match Names.WriteResource(msgs[0].name)
      case Err(_) => InvalidArgument
      case Ok(d) =>
        match Gather(msgs, ending, [])
        case OutOfOrder => InvalidArgument
        case Cut => ReceiveFailed
        case Payload(p) => if |p| == d.size then Committed(|p|) else InvalidArgument
  }

  /** The store after a Write that commits. */
  function Uploaded(m: Cas.Blobs, msgs: seq<WriteRequest>, ending: Ending): Cas.Blobs
    requires Verdict(msgs, ending).Committed?
  {
    Cas.Stored(m, Names.WriteResource(msgs[0].name).value, Gather(msgs, ending, []).bytes)
  }

  /** The loop of Write: messages are buffered until one finishes or the stream ends. */
  method Buffer(msgs: seq<WriteRequest>, ending: Ending, sturdy: bool) returns (r: Result<Bytes, WriteOutcome>)
    requires msgs != []
    ensures match Gather(msgs, ending, [])
      case Payload(p) => r == Ok(p) || (r == Err(Internal) && !sturdy)
      case OutOfOrder => r == Err(InvalidArgument) || (r == Err(Internal) && !sturdy)
      case Cut => r == Err(ReceiveFailed) || (r == Err(Internal) && !sturdy)
  {
    var tmp: Bytes, i := [], 0;
    assert msgs[0..] == msgs;
    while true
      invariant i < |msgs| && Gather(msgs[i..], ending, tmp) == Gather(msgs, ending, [])
      decreases |msgs| - i
    {
      var req := msgs[i];
      if |req.data| > 0 {
        if req.offset != |tmp| {
          return Err(InvalidArgument);
        }
        if !sturdy {
          if * {
            return Err(Internal);
          }
        }
      }
      tmp := tmp + req.data;
      if req.finish {
        break;
      }
      i := i + 1;
      if i == |msgs| {
        if ending.Broken? {
          return Err(ReceiveFailed);
        }
        break;
      }
    }
    r := Ok(tmp);
  }

  /** Write.  `sturdy` says that the temporary file never fails, `connected` that the reply goes out.  A reply
      that fails comes after the blob is stored. */
  method Write(store: Cas.Store, msgs: seq<WriteRequest>, ending: Ending, sturdy: bool, connected: bool)
    returns (r: WriteOutcome)
    modifies store`blobs
    ensures r == Verdict(msgs, ending) || r == Internal || (r == ReplyFailed && Verdict(msgs, ending).Committed?)
    ensures sturdy && store.reliable && connected ==> r == Verdict(msgs, ending)
    ensures connected ==> r != ReplyFailed
    ensures store.blobs ==
      if r.Committed? || r.ReplyFailed? then Uploaded(old(store.blobs), msgs, ending) else old(store.blobs)
  {
    if msgs == [] {
      return ReceiveFailed;
    }
    var parsed := Names.WriteResource(msgs[0].name);
    if parsed.Err? {
      return InvalidArgument;
    }
    var d := parsed.value;
    if !sturdy {
      if * {
        return Internal;
      }
    }
    var buffered := Buffer(msgs, ending, sturdy);
    if buffered.Err? {
      return buffered.error;
    }
    var tmp := buffered.value;
    if |tmp| != d.size {
      return InvalidArgument;
    }
    if !sturdy {
      if * {
        return Internal;
      }
    }
    var ok := store.PutStream(d, tmp);
    if !ok {
      return Internal;
    }
    if !connected {
      if * {
        return ReplyFailed;
      }
    }
    r := Committed(|tmp|);
  }

  // ---- The same, without a loop ----

  function Payloads(msgs: seq<WriteRequest>): Bytes {
    if msgs == [] then [] else msgs[0].data + Payloads(msgs[1..])
  }

  /** How many messages count: those up to the first that finishes. */
  function Taken(msgs: seq<WriteRequest>): (n: nat)
    ensures n <= |msgs|
  {
    if msgs == [] then 0 else if msgs[0].finish then 1 else 1 + Taken(msgs[1..])
  }

  predicate Finishes(msgs: seq<WriteRequest>) {
    exists i :: 0 <= i < |msgs| && msgs[i].finish
  }

  /** Every message with data says how much came before it. */
  predicate Contiguous(msgs: seq<WriteRequest>, from: nat) {
    forall i :: 0 <= i < |msgs| && msgs[i].data != [] ==> msgs[i].offset == from + |Payloads(msgs[..i])|
  }

  lemma PayloadsPrefix(msgs: seq<WriteRequest>, i: nat)
    requires 0 < i <= |msgs|
    ensures Payloads(msgs[..i]) == msgs[0].data + Payloads(msgs[1..][..i - 1])
  {
    assert msgs[..i][1..] == msgs[1..][..i - 1];
  }

  lemma ContiguousNext(msgs: seq<WriteRequest>, from: nat)
    requires msgs != []
    ensures Contiguous(msgs, from) <==>
      (msgs[0].data != [] ==> msgs[0].offset == from) && Contiguous(msgs[1..], from + |msgs[0].data|)
  {
    assert msgs[..0] == [];
    if Contiguous(msgs, from) {
      forall i | 0 <= i < |msgs[1..]| && msgs[1..][i].data != []
        ensures msgs[1..][i].offset == from + |msgs[0].data| + |Payloads(msgs[1..][..i])|
      {
        PayloadsPrefix(msgs, i + 1);
        assert msgs[i + 1] == msgs[1..][i];
      }
    }
    if (msgs[0].data != [] ==> msgs[0].offset == from) && Contiguous(msgs[1..], from + |msgs[0].data|) {
      forall i | 0 <= i < |msgs| && msgs[i].data != []
        ensures msgs[i].offset == from + |Payloads(msgs[..i])|
      {
        if i > 0 {
          PayloadsPrefix(msgs, i);
          assert msgs[i] == msgs[1..][i - 1];
        }
      }
    }
  }

  lemma TakenNext(msgs: seq<WriteRequest>)
    requires msgs != [] && !msgs[0].finish
    ensures msgs[..Taken(msgs)][1..] == msgs[1..][..Taken(msgs[1..])] && msgs[..Taken(msgs)][0] == msgs[0]
    ensures Finishes(msgs) <==> Finishes(msgs[1..])
  {
    if i :| 0 <= i < |msgs| && msgs[i].finish {
      assert msgs[1..][i - 1].finish;
    }
  }

  /** What a sequence uploads, in one look: the payloads up to the first finish or the end of the stream, if
      each starts where those before it stop. */
  lemma {:induction false} GatherMeans(msgs: seq<WriteRequest>, ending: Ending, soFar: Bytes)
    ensures var taken := msgs[..Taken(msgs)];
      Gather(msgs, ending, soFar) ==
        if !Contiguous(taken, |soFar|) then OutOfOrder
        else if Finishes(msgs) || ending.EndOfStream? then Payload(soFar + Payloads(taken))
        else Cut
  {
    var taken := msgs[..Taken(msgs)];
    if msgs == [] {
      assert soFar + [] == soFar;
    } else if msgs[0].finish {
      assert taken == [msgs[0]];
      ContiguousNext(taken, |soFar|);
      assert Payloads(taken) == msgs[0].data + [] == msgs[0].data;
      assert taken[1..] == [];
    } else {
      TakenNext(msgs);
      ContiguousNext(taken, |soFar|);
      GatherMeans(msgs[1..], ending, soFar + msgs[0].data);
      assert soFar + (msgs[0].data + Payloads(taken[1..])) == soFar + msgs[0].data + Payloads(taken[1..]);
    }
  }

  /** Write commits exactly the well-formed uploads of the declared size. */
  lemma {:induction false} CommittedMeans(msgs: seq<WriteRequest>, ending: Ending)
    ensures Verdict(msgs, ending).Committed? <==>
      && msgs != []
      && Names.WriteResource(msgs[0].name).Ok?
      && Contiguous(msgs[..Taken(msgs)], 0)
      && (Finishes(msgs) || ending.EndOfStream?)
      && |Payloads(msgs[..Taken(msgs)])| == Names.WriteResource(msgs[0].name).value.size
    ensures Verdict(msgs, ending).Committed? ==>
      && Gather(msgs, ending, []).bytes == Payloads(msgs[..Taken(msgs)])
      && Verdict(msgs, ending) == Committed(|Payloads(msgs[..Taken(msgs)])|)
    ensures Verdict(msgs, ending) == ReceiveFailed <==>
      || msgs == []
      || (&& Names.WriteResource(msgs[0].name).Ok? && Contiguous(msgs[..Taken(msgs)], 0)
          && !Finishes(msgs) && ending.Broken?)
    ensures Verdict(msgs, ending) !in {Internal, ReplyFailed}
  {
    GatherMeans(msgs, ending, []);
    assert [] + Payloads(msgs[..Taken(msgs)]) == Payloads(msgs[..Taken(msgs)]);
  }

  // ---- Write does not look at the hash ----

  /** An upload in one message. */
  function OneMessage(uuid: Text, hash: Text, payload: Bytes): WriteRequest
    requires |payload| < TWO_63
  {
    WriteRequest(Names.UploadName(uuid, Digest(hash, |payload|), None), 0, payload, true)
  }

  /** Any payload can be written under any hash of the right form. */
  lemma {:induction false} AnyHashIsTaken(m: Cas.Blobs, uuid: Text, hash: Text, payload: Bytes, ending: Ending)
    requires |payload| < TWO_63 && Validate(Digest(hash, |payload|)).None? && Names.SLASH !in uuid
    ensures var msgs, d := [OneMessage(uuid, hash, payload)], Digest(hash, |payload|);
      && Names.WriteResource(msgs[0].name) == Ok(d)
      && Verdict(msgs, ending) == Committed(|payload|) && Gather(msgs, ending, []) == Payload(payload)
      && Uploaded(m, msgs, ending) == Cas.Stored(m, d, payload)
  {
    Names.WriteRoundTrip(None, uuid, Digest(hash, |payload|), None);
    assert [] + payload == payload;
  }

  // ---- Read ----

  /** The reader of a blob.  A Read fills as much of the buffer as it likes, at least one octet while there are
      any, and may tell the end together with the last octets or on its own. */
  class BlobReader {
    const data: Bytes
    var pos: nat

    ghost predicate Valid()
      reads this
    {
      pos <= |data|
    }

    constructor (data: Bytes)
      ensures Valid() && this.data == data && pos == 0
    {
      this.data, pos := data, 0;
    }

    method Read(buf: array<Byte>) returns (n: nat, eof: bool)
      requires Valid() && buf.Length > 0
      modifies this`pos, buf
      ensures Valid() && n <= buf.Length && pos == old(pos) + n
      ensures buf[..n] == data[old(pos)..pos]
      ensures n == 0 ==> eof
      ensures eof ==> pos == |data|
    {
      var left := |data| - pos;
      if left == 0 {
        return 0, true;
      }
      n :| 1 <= n <= buf.Length && n <= left;
      forall i | 0 <= i < n {
        buf[i] := data[pos + i];
      }
      pos := pos + n;
      eof := false;
      if pos == |data| {
        eof := *;
      }
    }
  }

  datatype ReadStatus = Done | BadName | NotFound | Panicked | SendFailed

  function Concat(chunks: seq<Bytes>): Bytes {
    if chunks == [] then [] else Concat(chunks[..|chunks| - 1]) + chunks[|chunks| - 1]
  }

  predicate WellChunked(chunks: seq<Bytes>) {
    forall i :: 0 <= i < |chunks| ==> 0 < |chunks[i]| <= 1_048_576
  }

  /** The loop of Read: chunks are sent until the reader is at its end, or a send fails. */
  method SendChunks(reader: BlobReader, connected: bool) returns (ok: bool, sent: seq<Bytes>)
    requires reader.Valid() && reader.pos == 0
    modifies reader`pos
    ensures WellChunked(sent) && Concat(sent) <= reader.data
    ensures ok ==> Concat(sent) == reader.data
    ensures connected ==> ok
  {
    var buf := new Byte[READ_CHUNK_SIZE];
    sent := [];
    while true
      invariant reader.Valid() && WellChunked(sent) && Concat(sent) == reader.data[..reader.pos]
      decreases |reader.data| - reader.pos
    {
      var from := reader.pos;
      var n, eof := reader.Read(buf);
      if n > 0 {
        if !connected {
          if * {
            return false, sent;
          }
        }
        assert reader.data[..from] + reader.data[from..reader.pos] == reader.data[..reader.pos];
        sent := sent + [buf[..n]];
      }
      if eof {
        return true, sent;
      }
    }
  }

  /** Read.  `connected` says that sends never fail. */
  method Read(store: Cas.Store, name: Text, offset: Int64, limit: Int64, connected: bool)
    returns (status: ReadStatus, sent: seq<Bytes>)
    ensures WellChunked(sent)
    ensures status.Done? || status.SendFailed? || sent == []
    ensures connected ==> !status.SendFailed?
    ensures match Names.ReadResource(name)
      case Err(_) => status.BadName?
      case Ok(d) =>
        match Cas.Lookup(store.blobs, d)
        case None => status.NotFound?
        case Some(b) =>
          if offset < 0 then status.Panicked?
          else Delivers(status, Concat(sent), Cas.Slice(b, offset, limit))
  {
    sent := [];
    var parsed := Names.ReadResource(name);
    if parsed.Err? {
      return BadName, sent;
    }
    var outcome := store.Reader(parsed.value, offset, limit);
    match outcome {
      case NotFound => status := ReadStatus.NotFound;
      case Panics => status := Panicked;
      case Data(bytes) =>
        var reader := new BlobReader(bytes);
        var ok;
        ok, sent := SendChunks(reader, connected);
        status := if ok then Done else SendFailed;
    }
  }

  /** All of the range when the call is done, and otherwise its beginning. */
  predicate Delivers(status: ReadStatus, sent: Bytes, range: Bytes) {
    (status.Done? && sent == range) || (status.SendFailed? && sent <= range)
  }

  // ---- Write, then read ----

  /** Puts by other calls. */
  function PutAll(m: Cas.Blobs, others: seq<(Digest, Bytes)>): Cas.Blobs {
    if others == [] then m
    else Cas.Stored(PutAll(m, others[..|others| - 1]), others[|others| - 1].0, others[|others| - 1].1)
  }

  lemma {:induction false} OthersLeaveKey(m: Cas.Blobs, others: seq<(Digest, Bytes)>, d: Digest)
    requires forall i :: 0 <= i < |others| ==> others[i].0.hash != d.hash
    ensures Cas.Lookup(PutAll(m, others), d) == Cas.Lookup(m, d)
    decreases |others|
  {
    if others != [] {
      OthersLeaveKey(m, others[..|others| - 1], d);
    }
  }

  /** What a Write commits, under any chunking, is what is found afterwards, whatever is put to other keys. */
  lemma {:induction false} CommittedIsFound(m: Cas.Blobs, msgs: seq<WriteRequest>, ending: Ending,
      others: seq<(Digest, Bytes)>, d: Digest)
    requires Verdict(msgs, ending).Committed? && Names.WriteResource(msgs[0].name) == Ok(d)
    requires forall i :: 0 <= i < |others| ==> others[i].0.hash != d.hash
    ensures Cas.Lookup(PutAll(Uploaded(m, msgs, ending), others), d) == Some(Payloads(msgs[..Taken(msgs)]))
  {
    var after, payload := Uploaded(m, msgs, ending), Gather(msgs, ending, []).bytes;
    assert after == Cas.Stored(m, d, payload) && |payload| == d.size;
    CommittedMeans(msgs, ending);
    OthersLeaveKey(after, others, d);
  }

  /** A client uploads, others put to other keys, and a client reads a range of it back: it gets those octets
      of the payloads, in chunks that are neither empty nor over 1 MiB. */
  method WriteThenRead(store: Cas.Store, msgs: seq<WriteRequest>, ending: Ending, others: seq<(Digest, Bytes)>,
      name: Text, offset: Int64, limit: Int64)
    returns (w: WriteOutcome, status: ReadStatus, sent: seq<Bytes>)
    requires offset >= 0 && store.reliable
    requires Verdict(msgs, ending).Committed? ==>
      && Names.ReadResource(name) == Ok(Names.WriteResource(msgs[0].name).value)
      && forall i :: 0 <= i < |others| ==> others[i].0.hash != Names.WriteResource(msgs[0].name).value.hash
    modifies store`blobs
    ensures w == Verdict(msgs, ending) && WellChunked(sent)
    ensures w.Committed? ==>
      && w.size == |Payloads(msgs[..Taken(msgs)])|
      && status.Done? && Concat(sent) == Cas.Slice(Payloads(msgs[..Taken(msgs)]), offset, limit)
  {
    w := Write(store, msgs, ending, true, true);
    PutOthers(store, others);
    status, sent := Read(store, name, offset, limit, true);
    if w.Committed? {
      CommittedMeans(msgs, ending);
      CommittedIsFound(old(store.blobs), msgs, ending, others, Names.WriteResource(msgs[0].name).value);
    }
  }

  method PutOthers(store: Cas.Store, others: seq<(Digest, Bytes)>)
    requires store.reliable
    modifies store`blobs
    ensures store.blobs == PutAll(old(store.blobs), others)
  {
    for i := 0 to |others|
      invariant store.blobs == PutAll(old(store.blobs), others[..i])
    {
      assert others[..i + 1][..i] == others[..i];
      var ok := store.Put(others[i].0, others[i].1);
    }
    assert others[..|others|] == others;
  }

  // ---- QueryWriteStatus ----

  datatype WriteStatus = WriteStatus(committedSize: int, complete: bool)

  method QueryWriteStatus(store: Cas.Store, name: Text) returns (r: Option<WriteStatus>)
    ensures match Names.WriteResource(name)
      case Err(_) => r == None
      case Ok(d) => r == Some(if Cas.Present(store.blobs, d) then WriteStatus(d.size, true) else WriteStatus(0, false))
  {
    var parsed := Names.WriteResource(name);
    if parsed.Err? {
      return None;
    }
    var ok := store.Contains(parsed.value);
    r := Some(if ok then WriteStatus(parsed.value.size, true) else WriteStatus(0, false));
  }

  /** After a Write that commits, the write is reported complete with the size that was reported to its client. */
  lemma {:induction false} CommittedIsComplete(m: Cas.Blobs, msgs: seq<WriteRequest>, ending: Ending)
    requires Verdict(msgs, ending).Committed?
    ensures var d := Names.WriteResource(msgs[0].name).value;
      Cas.Present(Uploaded(m, msgs, ending), d) && d.size == Verdict(msgs, ending).size
  {
  }
}
