/** The content-addressable store (internal/cas): blobs keyed by hash alone, with the empty blob always
    present, and the action cache beside it. */
module Cas {
  import opened Digests
  import Wire

  datatype OutputFile = OutputFile(path: Text, digest: Digest, executable: bool)
  datatype OutputDirectory = OutputDirectory(path: Text, treeDigest: Digest, rootDigest: Digest)
  datatype OutputSymlink = OutputSymlink(path: Text, target: Text)

  datatype ActionResult = ActionResult(
    exitCode: int, stdout: Option<Digest>, stderr: Option<Digest>,
    files: seq<OutputFile>, directories: seq<OutputDirectory>, symlinks: seq<OutputSymlink>)

  /** Every string of the result is valid UTF-8, so it marshals. */
  predicate CleanResult(ar: ActionResult) {
    && (ar.stdout.Some? ==> Wire.ValidUtf8(ar.stdout.value.hash))
    && (ar.stderr.Some? ==> Wire.ValidUtf8(ar.stderr.value.hash))
    && (forall f :: f in ar.files ==> Wire.ValidUtf8(f.path) && Wire.ValidUtf8(f.digest.hash))
    && (forall d :: d in ar.directories ==>
          Wire.ValidUtf8(d.path) && Wire.ValidUtf8(d.treeDigest.hash) && Wire.ValidUtf8(d.rootDigest.hash))
    && (forall l :: l in ar.symlinks ==> Wire.ValidUtf8(l.path) && Wire.ValidUtf8(l.target))
  }

  type Blobs = map<Text, Bytes>

  predicate Present(m: Blobs, d: Digest) {
    IsEmpty(d) || d.hash in m
  }

  function Lookup(m: Blobs, d: Digest): Option<Bytes> {
    if IsEmpty(d) then Some([])
    else if d.hash in m then Some(m[d.hash])
    else None
  }

  function Stored(m: Blobs, d: Digest, data: Bytes): Blobs {
    if IsEmpty(d) then m else m[d.hash := data]
  }

  /** Storing a blob under its own digest. */
  function PutBlob(sha: HashFn, m: Blobs, b: Bytes): Blobs {
    Stored(m, FromBytes(sha, b), b)
  }

  /** A blob resolves to itself. */
  predicate Holds(sha: HashFn, m: Blobs, b: Bytes) {
    Lookup(m, FromBytes(sha, b)) == Some(b)
  }

  /** Every blob sits under its own hash. */
  ghost predicate Integrity(sha: HashFn, m: Blobs) {
    forall h :: h in m ==> sha(m[h]) == h
  }

  /** The outcome of opening a ranged reader.  A negative offset makes MemStore slice out of range. */
  datatype ReadOutcome = Data(bytes: Bytes) | NotFound | Panics

  /** The bytes MemStore serves for a range: a limit that is not positive means "to the end". */
  function Slice(b: Bytes, offset: nat, limit: int): Bytes {
    var tail := if offset > |b| then [] else b[offset..];
    if 0 < limit < |tail| then tail[..limit] else tail
  }

  /** What MemStore answers to a ranged read. */
  function Read(m: Blobs, d: Digest, offset: Int64, limit: Int64): ReadOutcome {
    match Lookup(m, d)
    case None => NotFound
    case Some(b) => if offset < 0 then Panics else Data(Slice(b, offset, limit))
  }

  /** A range is the octets from `offset`, or the end if that is nearer, to `limit` octets on, if positive, or
      the end. */
  lemma SliceIsRange(b: Bytes, offset: nat, limit: int)
    ensures var from := if offset < |b| then offset else |b|;
      var to := if 0 < limit && from + limit < |b| then from + limit else |b|;
      Slice(b, offset, limit) == b[from..to]
  {
    var from := if offset < |b| then offset else |b|;
    if 0 < limit && from + limit < |b| {
      assert b[from..][..limit] == b[from..from + limit];
    }
  }

  /** MemStore; when `reliable` is false, also a backend whose writes may fail, such as S3. */
  class Store {
    const reliable: bool
    var blobs: Blobs
    var action: map<Text, ActionResult>

    constructor (reliable: bool)
      ensures blobs == map[] && action == map[] && this.reliable == reliable
    {
      this.reliable := reliable;
      blobs, action := map[], map[];
    }

    method Contains(d: Digest) returns (ok: bool)
      ensures ok <==> Lookup(blobs, d).Some?
    {
      ok := IsEmpty(d) || d.hash in blobs;
    }

    method Get(d: Digest) returns (r: Option<Bytes>)
      ensures r == Lookup(blobs, d)
    {
      if IsEmpty(d) {
        return Some([]);
      }
      if d.hash !in blobs {
        return None;
      }
      r := Some(blobs[d.hash]);
    }

    method Reader(d: Digest, offset: Int64, limit: Int64) returns (r: ReadOutcome)
      ensures r == Read(blobs, d, offset, limit)
    {
      var got := Get(d);
      if got.None? {
        return NotFound;
      }
      var b := got.value;
      var from := offset;
      if from > |b| {
        from := |b|;
      }
      if from < 0 {
        return Panics;
      }
      b := b[from..];
      if limit > 0 && limit < |b| {
        b := b[..limit];
      }
      r := Data(b);
    }

    method Put(d: Digest, data: Bytes) returns (ok: bool)
      modifies this`blobs
      ensures blobs == if ok then Stored(old(blobs), d, data) else old(blobs)
      ensures reliable || IsEmpty(d) ==> ok
    {
      if IsEmpty(d) {
        return true;
      }
      if !reliable {
        if * {
          return false;
        }
      }
      blobs := blobs[d.hash := data];
      ok := true;
    }

    /** The stream is read to its end and put; an empty blob's is only drained. */
    method PutStream(d: Digest, data: Bytes) returns (ok: bool)
      modifies this`blobs
      ensures blobs == if ok then Stored(old(blobs), d, data) else old(blobs)
      ensures reliable || IsEmpty(d) ==> ok
    {
      ok := Put(d, data);
    }

    /** None stands for a miss and for a failed read alike. */
    method GetActionResult(d: Digest) returns (r: Option<ActionResult>)
      ensures r.Some? ==> d.hash in action && r.value == action[d.hash]
      ensures r.None? && reliable ==> d.hash !in action
    {
      if !reliable {
        if * {
          return None;
        }
      }
      r := if d.hash in action then Some(action[d.hash]) else None;
    }

    /** A result that holds invalid UTF-8 does not marshal, and nothing is put. */
    method PutActionResult(d: Digest, ar: ActionResult) returns (ok: bool)
      modifies this`action
      ensures action == if ok then old(action)[d.hash := ar] else old(action)
      ensures ok ==> CleanResult(ar)
      ensures reliable ==> (ok <==> CleanResult(ar))
    {
      if !CleanResult(ar) {
        return false;
      }
      if !reliable {
        if * {
          return false;
        }
      }
      action := action[d.hash := ar];
      ok := true;
    }
  }

  lemma PutKeepsHolding(sha: HashFn, m: Blobs, b: Bytes, c: Bytes)
    requires NoCollision(sha, {b, c})
    ensures Holds(sha, PutBlob(sha, m, b), b)
    ensures Holds(sha, m, c) ==> Holds(sha, PutBlob(sha, m, b), c)
  {
    DigestIdentifies(sha, {b, c}, b, c);
    assert sha([]) == EMPTY_HASH;
  }

  /** `later` was reached from `m` by only gaining blobs stored under their own hash. */
  ghost predicate Gained(sha: HashFn, m: Blobs, later: Blobs) {
    && m.Keys <= later.Keys
    && forall h :: h in later ==> (h in m && later[h] == m[h]) || sha(later[h]) == h
  }

  lemma HoldsLater(sha: HashFn, m: Blobs, later: Blobs, b: Bytes)
    requires Holds(sha, m, b) && Gained(sha, m, later) && NoCollision(sha, later.Values + {b})
    ensures Holds(sha, later, b)
  {
    var d := FromBytes(sha, b);
    if !IsEmpty(d) {
      assert d.hash in m && d.hash in later && later[d.hash] in later.Values;
    }
  }
}
