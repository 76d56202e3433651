/** What sits under a key (internal/server/cas_service.go: putOne, BatchUpdateBlobs, BatchReadBlobs;
    internal/cas/memstore.go): every way to change the store, and which of them keep each blob under its own
    hash. */
module Integrity {
  import opened Digests
  import Cas
  import opened Trees
  import ByteStream

  // ---- putOne and BatchUpdateBlobs ----

  datatype Status = OK | InvalidArgument | NotFound | Internal

  datatype UpdateRequest = UpdateRequest(digest: Digest, data: Bytes)

  datatype UpdateResponse = UpdateResponse(digest: Digest, status: Status)

  /** The checks of putOne: form, size, and hash. */
  predicate Honest(sha: HashFn, r: UpdateRequest) {
    Validate(r.digest).None? && WrapInt64(|r.data|) == r.digest.size && sha(r.data) == r.digest.hash
  }

  /** An honest request names its data by exactly the digest the server computes. */
  lemma HonestMeans(sha: HashFn, r: UpdateRequest)
    ensures Honest(sha, r) <==> r.digest == FromBytes(sha, r.data) && r.digest.size >= 0
  {
    assert |sha(r.data)| == HASH_LENGTH;
  }

  method PutOne(sha: HashFn, store: Cas.Store, r: UpdateRequest) returns (status: Status)
    modifies store`blobs
    ensures
      if Honest(sha, r) then status == OK || (status == Internal && !store.reliable)
      else status == InvalidArgument
    ensures store.blobs == if status.OK? then Cas.PutBlob(sha, old(store.blobs), r.data) else old(store.blobs)
  {
    if Validate(r.digest).Some? {
      return InvalidArgument;
    }
    if WrapInt64(|r.data|) != r.digest.size {
      return InvalidArgument;
    }
    var got := FromBytes(sha, r.data);
    if got.hash != r.digest.hash {
      return InvalidArgument;
    }
    var ok := store.Put(r.digest, r.data);
    status := if ok then OK else Internal;
  }

  /** The store after the accepted requests, in order. */
  function Accepted(sha: HashFn, m: Cas.Blobs, requests: seq<UpdateRequest>, responses: seq<UpdateResponse>): Cas.Blobs
    requires |requests| == |responses|
  {
    if requests == [] then m
    else
      var n := |requests| - 1;
      var before := Accepted(sha, m, requests[..n], responses[..n]);
      if responses[n].status.OK? then Cas.PutBlob(sha, before, requests[n].data) else before
  }

  predicate Answers(sha: HashFn, r: UpdateRequest, response: UpdateResponse, reliable: bool) {
    && response.digest == r.digest
    && (response.status.OK? ==> Honest(sha, r))
    && (Honest(sha, r) && reliable ==> response.status.OK?)
    && (!Honest(sha, r) ==> response.status.InvalidArgument?)
  }

  lemma OneMoreAccepted(sha: HashFn, m: Cas.Blobs, requests: seq<UpdateRequest>, responses: seq<UpdateResponse>,
      i: nat, r: UpdateResponse)
    requires i == |responses| < |requests|
    ensures Accepted(sha, m, requests[..i + 1], responses + [r]) ==
      var before := Accepted(sha, m, requests[..i], responses);
      if r.status.OK? then Cas.PutBlob(sha, before, requests[i].data) else before
  {
    assert requests[..i + 1][..i] == requests[..i] && (responses + [r])[..i] == responses;
  }

  method BatchUpdateBlobs(sha: HashFn, store: Cas.Store,
      requests: seq<UpdateRequest>) returns (responses: seq<UpdateResponse>)
    modifies store`blobs
    ensures |responses| == |requests|
    ensures forall i :: 0 <= i < |requests| ==> Answers(sha, requests[i], responses[i], store.reliable)
    ensures store.blobs == Accepted(sha, old(store.blobs), requests, responses)
  {
    responses := [];
    for i := 0 to |requests|
      invariant |responses| == i
      invariant forall j :: 0 <= j < i ==> Answers(sha, requests[j], responses[j], store.reliable)
      invariant store.blobs == Accepted(sha, old(store.blobs), requests[..i], responses)
    {
      var status := PutOne(sha, store, requests[i]);
      var response := UpdateResponse(requests[i].digest, status);
      OneMoreAccepted(sha, old(store.blobs), requests, responses, i, response);
      responses := responses + [response];
    }
    assert requests[..|requests|] == requests;
  }

  function Payloads(requests: seq<UpdateRequest>): set<Bytes> {
    set i | 0 <= i < |requests| :: requests[i].data
  }

  /** After a batch every accepted blob can be read, whatever else the batch held. */
  lemma {:induction false} AcceptedIsHeld(sha: HashFn, m: Cas.Blobs, requests: seq<UpdateRequest>,
      responses: seq<UpdateResponse>, i: nat)
    requires i < |requests| == |responses| && responses[i].status.OK?
    requires NoCollision(sha, Payloads(requests))
    ensures Cas.Holds(sha, Accepted(sha, m, requests, responses), requests[i].data)
    decreases |requests|
  {
    var n := |requests| - 1;
    var before := Accepted(sha, m, requests[..n], responses[..n]);
    assert requests[n].data in Payloads(requests) && requests[i].data in Payloads(requests);
    NoCollisionSubset(sha, {requests[n].data, requests[i].data}, Payloads(requests));
    Cas.PutKeepsHolding(sha, before, requests[n].data, requests[i].data);
    if i < n {
      forall b | b in Payloads(requests[..n]) ensures b in Payloads(requests) {
        var k :| 0 <= k < n && requests[..n][k].data == b;
        assert requests[k].data == b;
      }
      NoCollisionSubset(sha, Payloads(requests[..n]), Payloads(requests));
      AcceptedIsHeld(sha, m, requests[..n], responses[..n], i);
    }
  }

  datatype ReadResponse = ReadResponse(digest: Digest, data: Bytes, status: Status)

  function Answer(m: Cas.Blobs, d: Digest): ReadResponse {
    match Cas.Lookup(m, d)
    case Some(data) => ReadResponse(d, data, OK)
    case None => ReadResponse(d, [], NotFound)
  }

  method BatchReadBlobs(store: Cas.Store, digests: seq<Digest>) returns (responses: seq<ReadResponse>)
    ensures |responses| == |digests|
    ensures forall i :: 0 <= i < |digests| ==> responses[i] == Answer(store.blobs, digests[i])
    ensures forall i :: 0 <= i < |digests| ==>
      && responses[i].digest == digests[i]
      && (if IsEmpty(digests[i]) then responses[i].status.OK? && responses[i].data == []
          else if digests[i].hash in store.blobs
          then responses[i].status.OK? && responses[i].data == store.blobs[digests[i].hash]
          else responses[i].status.NotFound? && responses[i].data == [])
  {
    responses := [];
    for i := 0 to |digests|
      invariant |responses| == i
      invariant forall j :: 0 <= j < i ==> responses[j] == Answer(store.blobs, digests[j])
    {
      var data := store.Get(digests[i]);
      var response :=
        if data.Some? then ReadResponse(digests[i], data.value, OK)
        else ReadResponse(digests[i], [], NotFound);
      responses := responses + [response];
    }
  }

  /** A client that uploads a batch and then reads it back gets what it uploaded. */
  method UpdateThenRead(sha: HashFn, store: Cas.Store, requests: seq<UpdateRequest>, digests: seq<Digest>)
    returns (updates: seq<UpdateResponse>, answers: seq<ReadResponse>)
    requires NoCollision(sha, Payloads(requests))
    modifies store`blobs
    ensures |updates| == |requests| && |answers| == |digests|
    ensures forall i, k :: 0 <= i < |requests| && 0 <= k < |digests| ==>
      updates[i].status.OK? && digests[k] == requests[i].digest ==>
        answers[k] == ReadResponse(digests[k], requests[i].data, OK)
  {
    updates := BatchUpdateBlobs(sha, store, requests);
    forall i | 0 <= i < |requests| && updates[i].status.OK?
      ensures Cas.Lookup(store.blobs, requests[i].digest) == Some(requests[i].data)
    {
      AcceptedIsHeld(sha, old(store.blobs), requests, updates, i);
      HonestMeans(sha, requests[i]);
    }
    answers := BatchReadBlobs(store, digests);
  }

  // ---- Every way to change the store ----

  datatype Change =
    | Update(request: UpdateRequest)
    | Captured(step: Step)
    | Streamed(msgs: seq<ByteStream.WriteRequest>, ending: ByteStream.Ending)

  /** The store after a change that goes through: a putOne, a put of capture or attachStream, or a Write. */
  function After(sha: HashFn, m: Cas.Blobs, c: Change): Cas.Blobs {
    match c
    case Update(r) => if Honest(sha, r) then Cas.PutBlob(sha, m, r.data) else m
    case Captured(step) => Cas.PutBlob(sha, m, StepBytes(sha, step))
    case Streamed(msgs, ending) =>
      if ByteStream.Verdict(msgs, ending).Committed? then ByteStream.Uploaded(m, msgs, ending) else m
  }

  function AfterAll(sha: HashFn, m: Cas.Blobs, changes: seq<Change>): Cas.Blobs {
    if changes == [] then m
    else After(sha, AfterAll(sha, m, changes[..|changes| - 1]), changes[|changes| - 1])
  }

  /** The payload of a Write that commits hashes to the digest its name declares. */
  predicate Truthful(sha: HashFn, c: Change) {
    match c
    case Streamed(msgs, ending) =>
      ByteStream.Verdict(msgs, ending).Committed? ==>
        ByteStream.Names.WriteResource(msgs[0].name).value.hash == sha(ByteStream.Gather(msgs, ending, []).bytes)
    case _ => true
  }

  lemma StoringOwnKeepsIntegrity(sha: HashFn, m: Cas.Blobs, d: Digest, data: Bytes)
    requires Cas.Integrity(sha, m)
    ensures Cas.Integrity(sha, Cas.Stored(m, d, data)) <==> IsEmpty(d) || sha(data) == d.hash
  {
    if !IsEmpty(d) {
      assert d.hash in Cas.Stored(m, d, data) && Cas.Stored(m, d, data)[d.hash] == data;
    }
  }

  /** putOne and every put of capture keep integrity; Write, which checks the size of its payload and not its
      hash, keeps it exactly when the payload hashes to the declared digest. */
  lemma ChangeKeepsIntegrity(sha: HashFn, m: Cas.Blobs, c: Change)
    requires Cas.Integrity(sha, m)
    ensures Cas.Integrity(sha, After(sha, m, c)) <==> Truthful(sha, c)
  {
    match c
    case Update(r) => StoringOwnKeepsIntegrity(sha, m, FromBytes(sha, r.data), r.data);
    case Captured(step) => StoringOwnKeepsIntegrity(sha, m, FromBytes(sha, StepBytes(sha, step)), StepBytes(sha, step));
    case Streamed(msgs, ending) => StreamKeepsIntegrity(sha, m, msgs, ending);
  }

  lemma {:induction false} StreamKeepsIntegrity(sha: HashFn, m: Cas.Blobs, msgs: seq<ByteStream.WriteRequest>,
      ending: ByteStream.Ending)
    requires Cas.Integrity(sha, m)
    ensures Cas.Integrity(sha, After(sha, m, Streamed(msgs, ending))) <==> Truthful(sha, Streamed(msgs, ending))
  {
    if ByteStream.Verdict(msgs, ending).Committed? {
      var d, p := ByteStream.Names.WriteResource(msgs[0].name).value, ByteStream.Gather(msgs, ending, []).bytes;
      StoringOwnKeepsIntegrity(sha, m, d, p);
      assert sha([]) == EMPTY_HASH;
      assert IsEmpty(d) ==> p == [];
    }
  }

  /** A payload written under another hash than its own is committed, and ends integrity. */
  lemma AnyHashIsTaken(sha: HashFn, m: Cas.Blobs, uuid: Text, hash: Text, payload: Bytes, ending: ByteStream.Ending)
    requires Cas.Integrity(sha, m)
    requires payload != [] && |payload| < TWO_63 && Validate(Digest(hash, |payload|)).None?
    requires ByteStream.Names.SLASH !in uuid
    requires sha(payload) != hash
    ensures var c := Streamed([ByteStream.OneMessage(uuid, hash, payload)], ending);
      && After(sha, m, c) == m[hash := payload]
      && !Truthful(sha, c) && !Cas.Integrity(sha, After(sha, m, c))
  {
    var msgs := [ByteStream.OneMessage(uuid, hash, payload)];
    ByteStream.AnyHashIsTaken(m, uuid, hash, payload, ending);
    ChangeKeepsIntegrity(sha, m, Streamed(msgs, ending));
  }

  /** A hash with an upper-case digit passes Validate, and no blob is ever looked for under it: what is written
      there is stored where FromBytes never leads. */
  lemma {:induction false} UpperCaseIsLost(sha: HashFn, m: Cas.Blobs, uuid: Text, hash: Text, payload: Bytes,
      ending: ByteStream.Ending, i: nat)
    requires |hash| == HASH_LENGTH && (forall j :: 0 <= j < |hash| ==> IsHex(hash[j]))
    requires i < |hash| && !IsLowerHex(hash[i])
    requires payload != [] && |payload| < TWO_63 && ByteStream.Names.SLASH !in uuid
    ensures After(sha, m, Streamed([ByteStream.OneMessage(uuid, hash, payload)], ending)) == m[hash := payload]
    ensures forall b: Bytes :: FromBytes(sha, b).hash != hash
  {
    ByteStream.AnyHashIsTaken(m, uuid, hash, payload, ending);
    assert IsLowerHex(EMPTY_HASH[i]);
    forall b: Bytes ensures FromBytes(sha, b).hash != hash {
      assert IsLowerHex(sha(b)[i]);
    }
  }

  /** Over whole runs. */
  lemma {:induction false} RunKeepsIntegrity(sha: HashFn, m: Cas.Blobs, changes: seq<Change>)
    requires Cas.Integrity(sha, m) && forall i :: 0 <= i < |changes| ==> Truthful(sha, changes[i])
    ensures Cas.Integrity(sha, AfterAll(sha, m, changes))
    decreases |changes|
  {
    if changes != [] {
      var front := changes[..|changes| - 1];
      RunKeepsIntegrity(sha, m, front);
      ChangeKeepsIntegrity(sha, AfterAll(sha, m, front), changes[|changes| - 1]);
    }
  }

  /** With integrity nobody is ever given data that does not hash to what was asked for. */
  lemma IntegrityMeans(sha: HashFn, m: Cas.Blobs, d: Digest)
    requires Cas.Integrity(sha, m) && Cas.Lookup(m, d).Some?
    ensures sha(Cas.Lookup(m, d).value) == d.hash
  {
    assert sha([]) == EMPTY_HASH;
  }

  /** Once a blob's key is taken, Get of its digest returns it, after any later truthful changes. */
  lemma {:induction false} PutIsFound(sha: HashFn, m: Cas.Blobs, changes: seq<Change>, later: Cas.Blobs, b: Bytes)
    requires Cas.Integrity(sha, m) && forall i :: 0 <= i < |changes| ==> Truthful(sha, changes[i])
    requires later == AfterAll(sha, m, changes)
    requires Cas.Present(m, FromBytes(sha, b)) && NoCollision(sha, later.Values + {b})
    ensures Cas.Lookup(later, FromBytes(sha, b)) == Some(b)
  {
    RunKeepsIntegrity(sha, m, changes);
    if !IsEmpty(FromBytes(sha, b)) {
      KeysStay(sha, m, changes, sha(b));
    }
  }

  lemma {:induction false} KeysStay(sha: HashFn, m: Cas.Blobs, changes: seq<Change>, hash: Text)
    requires hash in m
    ensures hash in AfterAll(sha, m, changes)
    decreases |changes|
  {
    if changes != [] {
      KeysStay(sha, m, changes[..|changes| - 1], hash);
    }
  }

  // ---- Keying by hash alone ----

  /** A store that would key by the whole digest. */
  type Sized = map<Digest, Bytes>

  function SizedLookup(m: Sized, d: Digest): Option<Bytes> {
    if IsEmpty(d) then Some([]) else if d in m then Some(m[d]) else None
  }

  function SizedPut(sha: HashFn, m: Sized, b: Bytes): Sized {
    if IsEmpty(FromBytes(sha, b)) then m else m[FromBytes(sha, b) := b]
  }

  function PutEach(sha: HashFn, m: Cas.Blobs, blobs: seq<Bytes>): Cas.Blobs {
    if blobs == [] then m else Cas.PutBlob(sha, PutEach(sha, m, blobs[..|blobs| - 1]), blobs[|blobs| - 1])
  }

  function SizedPutEach(sha: HashFn, m: Sized, blobs: seq<Bytes>): Sized {
    if blobs == [] then m else SizedPut(sha, SizedPutEach(sha, m, blobs[..|blobs| - 1]), blobs[|blobs| - 1])
  }

  /** Both stores hold the same blobs, each blob under its own digest. */
  ghost predicate Refines(sha: HashFn, m: Cas.Blobs, s: Sized) {
    SizedWithin(sha, m, s) && HashedWithin(sha, m, s)
  }

  ghost predicate SizedWithin(sha: HashFn, m: Cas.Blobs, s: Sized) {
    forall d :: d in s ==> d.hash in m && m[d.hash] == s[d] && d == FromBytes(sha, s[d])
  }

  ghost predicate HashedWithin(sha: HashFn, m: Cas.Blobs, s: Sized) {
    forall h :: h in m ==> sha(m[h]) == h && FromBytes(sha, m[h]) in s
  }

  lemma EntryKeepsHashed(sha: HashFn, m: Cas.Blobs, s: Sized, b: Bytes, own: Digest)
    requires HashedWithin(sha, m, s) && own == FromBytes(sha, b)
    ensures HashedWithin(sha, m[own.hash := b], s[own := b])
  {
  }

  lemma {:induction false} PutKeepsRefinement(sha: HashFn, m: Cas.Blobs, s: Sized, b: Bytes)
    requires Refines(sha, m, s) && NoCollision(sha, m.Values + {b})
    ensures Refines(sha, Cas.PutBlob(sha, m, b), SizedPut(sha, s, b))
  {
    EntryKeepsHashed(sha, m, s, b, FromBytes(sha, b));
  }

  /** What a refinement means for a client that asks for any digest: what the finer store finds, the coarser
      finds too; and what only the coarser finds has the hash asked for and another size. */
  lemma RefinedLookup(sha: HashFn, m: Cas.Blobs, s: Sized, d: Digest)
    requires Refines(sha, m, s)
    ensures SizedLookup(s, d).Some? ==> Cas.Lookup(m, d) == SizedLookup(s, d)
    ensures Cas.Lookup(m, d).Some? && SizedLookup(s, d).None? ==>
      var own := FromBytes(sha, Cas.Lookup(m, d).value); own.hash == d.hash && own.size != d.size
  {
  }

  /** After the same honest puts, the store keyed by hash refines one keyed by hash and size. */
  lemma {:induction false} HashAloneRefines(sha: HashFn, blobs: seq<Bytes>)
    requires NoCollision(sha, set b | b in blobs)
    ensures Refines(sha, PutEach(sha, map[], blobs), SizedPutEach(sha, map[], blobs))
    ensures PutEach(sha, map[], blobs).Values <= (set b | b in blobs)
    decreases |blobs|
  {
    if blobs != [] {
      var front, last := blobs[..|blobs| - 1], blobs[|blobs| - 1];
      assert blobs == front + [last];
      var all := set b | b in blobs;
      NoCollisionSubset(sha, (set b | b in front), all);
      HashAloneRefines(sha, front);
      var m := PutEach(sha, map[], front);
      NoCollisionSubset(sha, m.Values + {last}, all);
      PutKeepsRefinement(sha, m, SizedPutEach(sha, map[], front), last);
    }
  }
}
