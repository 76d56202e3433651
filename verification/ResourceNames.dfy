/** ByteStream resource names (internal/server/cas_service.go: parseReadResource, parseWriteResource,
    digestFrom; internal/digest/digest.go: Key). */
module ResourceNames {
  import opened Digests
  import opened Strings

  const SLASH: Byte := 47

  const BLOBS := Ascii("blobs")
  const UPLOADS := Ascii("uploads")
  const COMPRESSED_BLOBS := Ascii("compressed-blobs")

  datatype NameError = Compressed | NoSuchForm | BadSize | BadDigest(error: DigestError)

  /** digest.Key. */
  function Key(d: Digest): Text {
    d.hash + [SLASH] + FormatInt(d.size)
  }

  function DigestFrom(hash: Text, size: Text): (r: Result<Digest, NameError>)
    ensures r.Ok? ==> Validate(r.value).None? && r.value.hash == hash && ParseInt(size) == Some(r.value.size)
    ensures r.Ok? <==> ParseInt(size).Some? && Validate(Digest(hash, ParseInt(size).value)).None?
  {
    match ParseInt(size)
    case None => Err(BadSize)
    case Some(n) =>
      match Validate(Digest(hash, n))
      case Some(e) => Err(BadDigest(e))
      case None => Ok(Digest(hash, n))
  }

  // ---- What the loops look for ----

  lemma Reserved()
    ensures BLOBS != UPLOADS && BLOBS != COMPRESSED_BLOBS && UPLOADS != COMPRESSED_BLOBS
    ensures SLASH !in BLOBS && SLASH !in UPLOADS
  {
    assert |BLOBS| == 5 && |UPLOADS| == 7 && |COMPRESSED_BLOBS| == 16;
  }

  predicate BlobsAt(parts: seq<Text>, i: nat) {
    i + 2 < |parts| && parts[i] == BLOBS
  }

  predicate CompressedAt(parts: seq<Text>, i: nat) {
    i < |parts| && parts[i] == COMPRESSED_BLOBS
  }

  predicate UploadAt(parts: seq<Text>, i: nat) {
    i + 4 < |parts| && parts[i] == UPLOADS && parts[i + 2] == BLOBS
  }

  /** The first segment at which the read loop stops. */
  ghost predicate StopsAt(parts: seq<Text>, i: nat) {
    && (BlobsAt(parts, i) || CompressedAt(parts, i))
    && forall j :: 0 <= j < i ==> !BlobsAt(parts, j) && !CompressedAt(parts, j)
  }

  function Stopped(parts: seq<Text>, i: nat): Result<Digest, NameError>
    requires BlobsAt(parts, i) || CompressedAt(parts, i)
  {
    if BlobsAt(parts, i) then DigestFrom(parts[i + 1], parts[i + 2]) else Err(Compressed)
  }

  /** A read name means what its first "blobs" with two segments after it says; it is refused if a
      "compressed-blobs" comes earlier, or if there is neither. */
  ghost predicate ReadMeans(parts: seq<Text>, r: Result<Digest, NameError>) {
    if exists i: nat :: StopsAt(parts, i)
    then exists i: nat :: StopsAt(parts, i) && r == Stopped(parts, i)
    else r == Err(NoSuchForm)
  }

  ghost predicate UploadsAt(parts: seq<Text>, i: nat) {
    UploadAt(parts, i) && forall j :: 0 <= j < i ==> !UploadAt(parts, j)
  }

  /** A write name means what its first "uploads" with "blobs" two segments on says. */
  ghost predicate WriteMeans(parts: seq<Text>, r: Result<Digest, NameError>) {
    if exists i: nat :: UploadsAt(parts, i)
    then exists i: nat :: UploadsAt(parts, i) && r == DigestFrom(parts[i + 3], parts[i + 4])
    else r == Err(NoSuchForm)
  }

  function ReadResource(name: Text): (r: Result<Digest, NameError>)
    ensures ReadMeans(Split(name, SLASH), r)
    ensures r.Ok? ==> Validate(r.value).None?
  {
    ReadFrom(Split(name, SLASH), 0)
  }

  function ReadFrom(parts: seq<Text>, i: nat): (r: Result<Digest, NameError>)
    requires i <= |parts| && forall j :: 0 <= j < i ==> !BlobsAt(parts, j) && !CompressedAt(parts, j)
    ensures ReadMeans(parts, r) && (r.Ok? ==> Validate(r.value).None?)
    decreases |parts| - i
  {
    if i == |parts| then Err(NoSuchForm)
    else if parts[i] == COMPRESSED_BLOBS then (Reserved(); assert StopsAt(parts, i); Err(Compressed))
    else if parts[i] == BLOBS && i + 2 < |parts| then (assert StopsAt(parts, i); DigestFrom(parts[i + 1], parts[i + 2]))
    else ReadFrom(parts, i + 1)
  }

  function WriteResource(name: Text): (r: Result<Digest, NameError>)
    ensures WriteMeans(Split(name, SLASH), r)
    ensures r.Ok? ==> Validate(r.value).None?
  {
    WriteFrom(Split(name, SLASH), 0)
  }

  function WriteFrom(parts: seq<Text>, i: nat): (r: Result<Digest, NameError>)
    requires i <= |parts| && forall j :: 0 <= j < i ==> !UploadAt(parts, j)
    ensures WriteMeans(parts, r) && (r.Ok? ==> Validate(r.value).None?)
    decreases |parts| - i
  {
    if i == |parts| then Err(NoSuchForm)
    else if parts[i] == UPLOADS && i + 4 < |parts| && parts[i + 2] == BLOBS
    then (assert UploadsAt(parts, i); DigestFrom(parts[i + 3], parts[i + 4]))
    else WriteFrom(parts, i + 1)
  }

  lemma StopsAtOne(parts: seq<Text>, i: nat, k: nat)
    requires StopsAt(parts, i) && StopsAt(parts, k)
    ensures i == k
  {
    assert i < k ==> !BlobsAt(parts, i);
    assert k < i ==> !BlobsAt(parts, k);
  }

  lemma UploadsAtOne(parts: seq<Text>, i: nat, k: nat)
    requires UploadsAt(parts, i) && UploadsAt(parts, k)
    ensures i == k
  {
    assert i < k ==> !UploadAt(parts, i);
    assert k < i ==> !UploadAt(parts, k);
  }

  /** What a name means is determined: at most one result fits. */
  lemma ReadMeansOne(parts: seq<Text>, a: Result<Digest, NameError>, b: Result<Digest, NameError>)
    requires ReadMeans(parts, a) && ReadMeans(parts, b)
    ensures a == b
  {
    forall i: nat, k: nat | StopsAt(parts, i) && StopsAt(parts, k) ensures i == k {
      StopsAtOne(parts, i, k);
    }
  }

  lemma WriteMeansOne(parts: seq<Text>, a: Result<Digest, NameError>, b: Result<Digest, NameError>)
    requires WriteMeans(parts, a) && WriteMeans(parts, b)
    ensures a == b
  {
    forall i: nat, k: nat | UploadsAt(parts, i) && UploadsAt(parts, k) ensures i == k {
      UploadsAtOne(parts, i, k);
    }
  }

  // ---- Round trips ----

  /** An instance name, if any, and what comes after it. */
  function Prefixed(instance: Option<Text>, rest: Text): Text {
    match instance
    case None => rest
    case Some(t) => t + [SLASH] + rest
  }

  function Segments(instance: Option<Text>): seq<Text> {
    match instance
    case None => []
    case Some(t) => Split(t, SLASH)
  }

  lemma SplitPrefixed(instance: Option<Text>, rest: Text)
    ensures Split(Prefixed(instance, rest), SLASH) == Segments(instance) + Split(rest, SLASH)
  {
    if instance.Some? {
      SplitJoin(instance.value, rest, SLASH);
    } else {
      assert [] + Split(rest, SLASH) == Split(rest, SLASH);
    }
  }

  /** Trailing segments, such as a file name. */
  function Suffixed(name: Text, trailing: Option<Text>): Text {
    match trailing
    case None => name
    case Some(t) => name + [SLASH] + t
  }

  lemma SplitSuffixed(name: Text, trailing: Option<Text>)
    ensures Split(Suffixed(name, trailing), SLASH) == Split(name, SLASH) + Segments(trailing)
  {
    if trailing.Some? {
      SplitJoin(name, trailing.value, SLASH);
    } else {
      assert Split(name, SLASH) + [] == Split(name, SLASH);
    }
  }

  function Under(segment: Text, rest: Text): Text {
    segment + [SLASH] + rest
  }

  lemma SplitUnder(segment: Text, rest: Text)
    requires SLASH !in segment
    ensures Split(Under(segment, rest), SLASH) == [segment] + Split(rest, SLASH)
  {
    SplitWhole(segment, SLASH);
    SplitJoin(segment, rest, SLASH);
  }

  lemma SplitUnderTwo(first: Text, second: Text, rest: Text)
    requires SLASH !in first && SLASH !in second
    ensures Split(Under(first, Under(second, rest)), SLASH) == [first, second] + Split(rest, SLASH)
  {
    SplitUnder(second, rest);
    SplitUnder(first, Under(second, rest));
  }

  /** blobs/{hash}/{size}, perhaps with more after it. */
  function BlobName(d: Digest, trailing: Option<Text>): Text {
    Under(BLOBS, Suffixed(Key(d), trailing))
  }

  /** uploads/{uuid}/blobs/{hash}/{size}, perhaps with more after it. */
  function UploadName(uuid: Text, d: Digest, trailing: Option<Text>): Text {
    Under(UPLOADS, Under(uuid, BlobName(d, trailing)))
  }

  lemma SplitKey(d: Digest)
    requires Validate(d).None?
    ensures Split(Key(d), SLASH) == [d.hash, FormatInt(d.size)]
  {
    assert SLASH !in d.hash;
    SplitWhole(d.hash, SLASH);
    SplitWhole(FormatInt(d.size), SLASH);
    SplitJoin(d.hash, FormatInt(d.size), SLASH);
  }

  lemma DigestFromKey(d: Digest)
    requires Validate(d).None?
    ensures DigestFrom(d.hash, FormatInt(d.size)) == Ok(d)
  {
    ParseFormatted(d.size);
  }

  lemma SplitBlobName(d: Digest, trailing: Option<Text>)
    requires Validate(d).None?
    ensures Split(BlobName(d, trailing), SLASH) == [BLOBS, d.hash, FormatInt(d.size)] + Segments(trailing)
  {
    Reserved();
    SplitKey(d);
    SplitSuffixed(Key(d), trailing);
    SplitUnder(BLOBS, Suffixed(Key(d), trailing));
    assert [BLOBS] + ([d.hash, FormatInt(d.size)] + Segments(trailing))
        == [BLOBS, d.hash, FormatInt(d.size)] + Segments(trailing);
  }

  lemma SplitUploadName(uuid: Text, d: Digest, trailing: Option<Text>)
    requires Validate(d).None? && SLASH !in uuid
    ensures Split(UploadName(uuid, d, trailing), SLASH)
         == [UPLOADS, uuid] + ([BLOBS, d.hash, FormatInt(d.size)] + Segments(trailing))
  {
    Reserved();
    SplitBlobName(d, trailing);
    SplitUnderTwo(UPLOADS, uuid, BlobName(d, trailing));
  }

  lemma FoundAfter(before: seq<Text>, d: Digest, more: seq<Text>)
    requires BLOBS !in before && COMPRESSED_BLOBS !in before && Validate(d).None?
    ensures ReadMeans(before + ([BLOBS, d.hash, FormatInt(d.size)] + more), Ok(d))
  {
    var parts, n := before + ([BLOBS, d.hash, FormatInt(d.size)] + more), |before|;
    DigestFromKey(d);
    assert parts[n] == BLOBS && parts[n + 1] == d.hash && parts[n + 2] == FormatInt(d.size);
    forall j | 0 <= j < n ensures !BlobsAt(parts, j) && !CompressedAt(parts, j) {
      assert parts[j] == before[j] && before[j] in before;
    }
    assert StopsAt(parts, n);
  }

  /** A read name gives back the digest it was made of, for every instance name with neither reserved segment. */
  lemma ReadRoundTrip(instance: Option<Text>, d: Digest, trailing: Option<Text>)
    requires Validate(d).None? && BLOBS !in Segments(instance) && COMPRESSED_BLOBS !in Segments(instance)
    ensures ReadResource(Prefixed(instance, BlobName(d, trailing))) == Ok(d)
  {
    SplitBlobName(d, trailing);
    SplitPrefixed(instance, BlobName(d, trailing));
    FoundAfter(Segments(instance), d, Segments(trailing));
    var name := Prefixed(instance, BlobName(d, trailing));
    ReadMeansOne(Split(name, SLASH), ReadResource(name), Ok(d));
  }

  lemma UploadAfter(before: seq<Text>, uuid: Text, d: Digest, more: seq<Text>)
    requires UPLOADS !in before && Validate(d).None?
    ensures WriteMeans(before + ([UPLOADS, uuid] + ([BLOBS, d.hash, FormatInt(d.size)] + more)), Ok(d))
  {
    var parts, n := before + ([UPLOADS, uuid] + ([BLOBS, d.hash, FormatInt(d.size)] + more)), |before|;
    DigestFromKey(d);
    assert parts[n] == UPLOADS && parts[n + 2] == BLOBS && parts[n + 3] == d.hash && parts[n + 4] == FormatInt(d.size);
    forall j | 0 <= j < n ensures !UploadAt(parts, j) {
      assert parts[j] == before[j] && before[j] in before;
    }
    assert UploadsAt(parts, n);
  }

  /** A write name gives back the digest it was made of, for every instance name without an "uploads" segment,
      every slash-free uuid and whatever trails. */
  lemma WriteRoundTrip(instance: Option<Text>, uuid: Text, d: Digest, trailing: Option<Text>)
    requires Validate(d).None? && UPLOADS !in Segments(instance) && SLASH !in uuid
    ensures WriteResource(Prefixed(instance, UploadName(uuid, d, trailing))) == Ok(d)
  {
    SplitUploadName(uuid, d, trailing);
    SplitPrefixed(instance, UploadName(uuid, d, trailing));
    UploadAfter(Segments(instance), uuid, d, Segments(trailing));
    var name := Prefixed(instance, UploadName(uuid, d, trailing));
    WriteMeansOne(Split(name, SLASH), WriteResource(name), Ok(d));
  }

  /** The names in octets, as clients write them: "blobs/", "uploads/", and the key, which is the hash and the size
      as the name spells them. */
  lemma NamesInOctets(uuid: Text, d: Digest)
    ensures BlobName(d, None) == [98, 108, 111, 98, 115, 47] + Key(d)
    ensures UploadName(uuid, d, None) ==
      [117, 112, 108, 111, 97, 100, 115, 47] + uuid + [47, 98, 108, 111, 98, 115, 47] + Key(d)
  {
    assert BLOBS == [98, 108, 111, 98, 115] && UPLOADS == [117, 112, 108, 111, 97, 100, 115];
    assert [98, 108, 111, 98, 115] + [47] == [98, 108, 111, 98, 115, 47];
    assert [117, 112, 108, 111, 97, 100, 115] + [47] == [117, 112, 108, 111, 97, 100, 115, 47];
    assert BLOBS + [SLASH] + Key(d) == [98, 108, 111, 98, 115, 47] + Key(d);
    assert UPLOADS + [SLASH] + (uuid + [SLASH] + (BLOBS + [SLASH] + Key(d))) ==
      [117, 112, 108, 111, 97, 100, 115, 47] + uuid + [47, 98, 108, 111, 98, 115, 47] + Key(d);
  }

  /** Where the size is written without sign or leading zero the key is spelled as the name was. */
  lemma KeyAsWritten(hash: Text, size: Text)
    requires DigestFrom(hash, size).Ok?
    requires size != [] && AllDigits(size) && (size == [48] || size[0] != 48)
    ensures Key(DigestFrom(hash, size).value) == hash + [47] + size
  {
    DigitsOfValue(size);
  }

  /** A read name whose first reserved segment is "compressed-blobs" is refused as such. */
  lemma CompressedIsRefused(instance: Option<Text>, rest: Text)
    requires [98, 108, 111, 98, 115] !in Segments(instance)
    ensures var compressed := [99, 111, 109, 112, 114, 101, 115, 115, 101, 100, 45, 98, 108, 111, 98, 115];
      ReadResource(Prefixed(instance, compressed + [47] + rest)) == Err(Compressed)
  {
    var compressed := [99, 111, 109, 112, 114, 101, 115, 115, 101, 100, 45, 98, 108, 111, 98, 115];
    assert COMPRESSED_BLOBS == compressed && BLOBS == [98, 108, 111, 98, 115];
    SplitUnder(compressed, rest);
    SplitPrefixed(instance, Under(compressed, rest));
    var before, parts := Segments(instance), Segments(instance) + ([compressed] + Split(rest, SLASH));
    assert parts[|before|] == COMPRESSED_BLOBS;
    FirstCompressed(parts, |before|);
    ReadMeansOne(parts, ReadResource(Prefixed(instance, Under(compressed, rest))), Err(Compressed));
  }

  lemma {:induction false} FirstCompressed(parts: seq<Text>, n: nat)
    requires n < |parts| && parts[n] == COMPRESSED_BLOBS && BLOBS !in parts[..n]
    ensures ReadMeans(parts, Err(Compressed))
    decreases n
  {
    Reserved();
    if k :| 0 <= k < n && parts[k] == COMPRESSED_BLOBS {
      assert parts[..k] <= parts[..n];
      FirstCompressed(parts, k);
    } else {
      forall j | 0 <= j < n ensures !BlobsAt(parts, j) && !CompressedAt(parts, j) {
        assert parts[j] in parts[..n];
      }
      assert StopsAt(parts, n) && Stopped(parts, n) == Err(Compressed);
    }
  }

  /** Keys identify valid digests. */
  lemma KeyIdentifies(a: Digest, b: Digest)
    requires Validate(a).None? && Validate(b).None?
    ensures Key(a) == Key(b) <==> a == b
  {
    ReadRoundTrip(None, a, None);
    ReadRoundTrip(None, b, None);
  }

  /** A client may read by the very name it wrote to. */
  lemma UploadNamesCanBeRead(uuid: Text, d: Digest)
    requires Validate(d).None? && SLASH !in uuid && uuid != BLOBS && uuid != COMPRESSED_BLOBS
    ensures ReadResource(UploadName(uuid, d, None)) == Ok(d)
  {
    var name := UploadName(uuid, d, None);
    Reserved();
    SplitUploadName(uuid, d, None);
    FoundAfter([UPLOADS, uuid], d, []);
    ReadMeansOne(Split(name, SLASH), ReadResource(name), Ok(d));
  }
}
