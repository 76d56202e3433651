/** Ranged reads of an S3 object (internal/cas/cas.go: byteRange, S3Store.Reader) against those of MemStore. */
module ByteRange {
  import opened Digests
  import opened Strings
  import Cas

  const BYTES_UNIT := Ascii("bytes=")

  /** byteRange: a Range header value, or "" for the whole object.  The sum is Go's, and may wrap. */
  function Header(offset: Int64, limit: Int64): Text {
    if offset <= 0 && limit <= 0 then []
    else if limit <= 0 then BYTES_UNIT + (FormatInt(offset) + [MINUS])
    else BYTES_UNIT + (FormatInt(offset) + [MINUS] + FormatInt(WrapInt64(offset + limit - 1)))
  }

  /** The header in octets: "bytes=", the first position, a dash, and the last position if there is a limit. */
  lemma HeaderInOctets(offset: Int64, limit: Int64)
    ensures offset > 0 && limit <= 0 ==> Header(offset, limit) == [98, 121, 116, 101, 115, 61] + Digits(offset) + [45]
    ensures offset >= 0 && limit > 0 && offset + limit <= TWO_63 ==>
      Header(offset, limit) == [98, 121, 116, 101, 115, 61] + Digits(offset) + [45] + Digits(offset + limit - 1)
  {
    assert BYTES_UNIT == [98, 121, 116, 101, 115, 61];
    assert forall a: Text, b: Text :: BYTES_UNIT + (a + [45] + b) == BYTES_UNIT + a + [45] + b;
  }

  // ---- RFC 9110, section 14.1.2 ----

  /** One byte-range-spec: first-pos "-" [last-pos], or "-" suffix-length. */
  datatype RangeSpec = From(first: nat) | FromTo(first: nat, last: nat) | Suffix(length: nat)

  /** The range a header value asks for; None when it is not a valid ranges-specifier of one byte range. */
  function ParseRange(header: Text): Option<RangeSpec> {
    if |header| < |BYTES_UNIT| || header[..|BYTES_UNIT|] != BYTES_UNIT then None
    else ParseSpec(Split(header[|BYTES_UNIT|..], MINUS))
  }

  function ParseSpec(parts: seq<Text>): Option<RangeSpec> {
    if |parts| != 2 || !AllDigits(parts[0]) || !AllDigits(parts[1]) then None
    else if parts[0] == [] then (if parts[1] == [] then None else Some(Suffix(Value(parts[1]))))
    else if parts[1] == [] then Some(From(Value(parts[0])))
    else if Value(parts[1]) < Value(parts[0]) then None
    else Some(FromTo(Value(parts[0]), Value(parts[1])))
  }

  /** What a server that honours ranges sends of an object: the selected octets (206); 416 when the range
      selects none; and it may ignore or reject what it cannot parse (section 14.2).  Or there is no object. */
  datatype Served = Sent(bytes: Bytes) | Unsatisfiable | Undetermined | NoSuchKey

  function Select(b: Bytes, spec: RangeSpec): Served {
    match spec
    case From(first) => if first < |b| then Sent(b[first..]) else Unsatisfiable
    case FromTo(first, last) =>
      if first >= |b| || last < first then Unsatisfiable
      else Sent(b[first..if last >= |b| then |b| else last + 1])
    case Suffix(length) =>
      if length == 0 || |b| == 0 then Unsatisfiable
      else Sent(b[if length >= |b| then 0 else |b| - length..])
  }

  /** GetObject with the header of the read. */
  function ServedFor(b: Bytes, offset: Int64, limit: Int64): Served {
    if Header(offset, limit) == [] then Sent(b)
    else match ParseRange(Header(offset, limit))
      case None => Undetermined
      case Some(spec) => Select(b, spec)
  }

  /** S3Store.Reader on a bucket that holds the same blobs: the empty blob is never asked for. */
  function S3Read(m: Cas.Blobs, d: Digest, offset: Int64, limit: Int64): Served {
    if IsEmpty(d) then Sent([])
    else if d.hash !in m then NoSuchKey
    else ServedFor(m[d.hash], offset, limit)
  }

  /** The same for the caller: the same octets, or not found. */
  predicate SameRead(s: Served, r: Cas.ReadOutcome) {
    (s.Sent? && r == Cas.Data(s.bytes)) || (s.NoSuchKey? && r.NotFound?)
  }

  // ---- The header says what was meant ----

  lemma DigitsHaveNoMinus(n: nat)
    ensures MINUS !in Digits(n)
  {
    assert AllDigits(Digits(n));
  }

  lemma ParseUnit(rest: Text)
    ensures ParseRange(BYTES_UNIT + rest) == ParseSpec(Split(rest, MINUS))
  {
    var header := BYTES_UNIT + rest;
    assert header[..|BYTES_UNIT|] == BYTES_UNIT && header[|BYTES_UNIT|..] == rest;
  }

  lemma SplitTwo(a: Text, b: Text)
    requires MINUS !in a
    ensures Split(a + [MINUS] + b, MINUS) == [a] + Split(b, MINUS)
  {
    SplitWhole(a, MINUS);
    SplitJoin(a, b, MINUS);
  }

  lemma OpenRange(offset: Int64)
    requires offset > 0
    ensures ParseRange(BYTES_UNIT + (FormatInt(offset) + [MINUS])) == Some(From(offset))
  {
    DigitsHaveNoMinus(offset);
    SplitTwo(Digits(offset), []);
    assert Digits(offset) + [MINUS] + [] == Digits(offset) + [MINUS];
    ParseUnit(FormatInt(offset) + [MINUS]);
    ValueOfDigits(offset);
  }

  lemma ClosedRange(first: Int64, last: Int64)
    requires 0 <= first
    ensures ParseRange(BYTES_UNIT + (FormatInt(first) + [MINUS] + FormatInt(last))) ==
      if first <= last then Some(FromTo(first, last)) else None
  {
    DigitsHaveNoMinus(first);
    SplitTwo(Digits(first), FormatInt(last));
    ParseUnit(FormatInt(first) + [MINUS] + FormatInt(last));
    ValueOfDigits(first);
    if last >= 0 {
      DigitsHaveNoMinus(last);
      SplitWhole(Digits(last), MINUS);
      ValueOfDigits(last);
    } else {
      SplitNegative(-(last as int));
    }
  }

  /** A negative last position is rendered with a second dash, which no range has. */
  lemma SplitNegative(n: nat)
    ensures |Split([MINUS] + Digits(n), MINUS)| == 2
  {
    DigitsHaveNoMinus(n);
    SplitWhole(Digits(n), MINUS);
    SplitTwo([], Digits(n));
    assert [] + [MINUS] + Digits(n) == [MINUS] + Digits(n);
  }

  /** The end position of the read does not overflow. */
  predicate InRange(offset: Int64, limit: Int64) {
    limit <= 0 || offset + limit - 1 < TWO_63
  }

  /** The range that a read asks for; none when its offset is negative or its end overflows. */
  function Meant(offset: Int64, limit: Int64): Option<RangeSpec> {
    if offset < 0 then None
    else if limit <= 0 then Some(From(offset))
    else if InRange(offset, limit) then Some(FromTo(offset, offset + limit - 1))
    else None
  }

  /** A negative first position has a dash of its own, and the header no range. */
  lemma NegativeRange(first: Int64, last: Int64)
    requires first < 0
    ensures ParseRange(BYTES_UNIT + (FormatInt(first) + [MINUS] + FormatInt(last))) == None
  {
    SplitNegative(-(first as int));
    SplitJoin(FormatInt(first), FormatInt(last), MINUS);
    ParseUnit(FormatInt(first) + [MINUS] + FormatInt(last));
  }

  /** With a limit. */
  lemma LimitedHeaderParses(offset: Int64, limit: Int64)
    requires limit > 0
    ensures ParseRange(Header(offset, limit)) == Meant(offset, limit)
  {
    var last := WrapInt64(offset + limit - 1);
    LimitedHeader(offset, limit, last);
    if offset < 0 {
      NegativeRange(offset, last);
    } else {
      LastPosition(offset, limit);
      ClosedRange(offset, last);
    }
  }

  lemma LimitedHeader(offset: Int64, limit: Int64, last: Int64)
    requires limit > 0 && last == WrapInt64(offset + limit - 1)
    ensures Header(offset, limit) == BYTES_UNIT + (FormatInt(offset) + [MINUS] + FormatInt(last))
  {
  }

  /** The last position wraps to a negative one exactly if it overflows. */
  lemma LastPosition(offset: Int64, limit: Int64)
    requires offset >= 0 && limit > 0
    ensures WrapInt64(offset + limit - 1) ==
      if InRange(offset, limit) then offset + limit - 1 else offset + limit - 1 - TWO_64
  {
    var n := offset + limit - 1;
    assert 0 <= n < TWO_64 && n % TWO_64 == n;
  }

  lemma HeaderParses(offset: Int64, limit: Int64)
    ensures Header(offset, limit) == [] <==> offset <= 0 && limit <= 0
    ensures Header(offset, limit) != [] ==> ParseRange(Header(offset, limit)) == Meant(offset, limit)
  {
    assert |BYTES_UNIT| == 6;
    if limit > 0 {
      LimitedHeaderParses(offset, limit);
    } else if offset > 0 {
      OpenRange(offset);
    }
  }

  lemma SelectIsSlice(b: Bytes, offset: Int64, limit: Int64)
    requires 0 <= offset < |b| && InRange(offset, limit)
    ensures Select(b, Meant(offset, limit).value) == Sent(Cas.Slice(b, offset, limit))
  {
    var tail := b[offset..];
    if 0 < limit < |tail| {
      assert b[offset..offset + limit] == tail[..limit];
    }
  }

  /** The read asks for all of the object, or starts inside it and ends without overflow. */
  predicate Inside(b: Bytes, offset: Int64, limit: Int64) {
    InRange(offset, limit) && (0 <= offset < |b| || (offset == 0 && limit <= 0))
  }

  /** The object itself: S3 serves the slice exactly when the read is inside.  At or past the end it answers 416
      where the slice is empty. */
  lemma ServedIsSlice(b: Bytes, offset: Int64, limit: Int64)
    requires offset >= 0
    ensures ServedFor(b, offset, limit) == Sent(Cas.Slice(b, offset, limit)) <==> Inside(b, offset, limit)
    ensures InRange(offset, limit) && !Inside(b, offset, limit) ==>
      ServedFor(b, offset, limit) == Unsatisfiable && Cas.Slice(b, offset, limit) == []
    ensures !InRange(offset, limit) ==> ServedFor(b, offset, limit) == Undetermined
  {
    HeaderParses(offset, limit);
    if offset < |b| && InRange(offset, limit) {
      SelectIsSlice(b, offset, limit);
    }
  }

  /** For every store, digest, offset and limit, S3Store.Reader and MemStore.Reader agree exactly when the blob
      is absent; or is the empty blob and the offset is not negative; or the read is inside the blob. */
  lemma {:induction false} RangedReadsAgree(m: Cas.Blobs, d: Digest, offset: Int64, limit: Int64)
    ensures SameRead(S3Read(m, d, offset, limit), Cas.Read(m, d, offset, limit)) <==>
      if IsEmpty(d) then offset >= 0
      else d.hash in m ==> Inside(m[d.hash], offset, limit)
  {
    if !IsEmpty(d) && d.hash in m && offset >= 0 {
      ServedIsSlice(m[d.hash], offset, limit);
    }
  }

  /** At a negative offset MemStore panics on every blob it has, while S3 sends an empty blob, and the whole of
      any other if no limit is set. */
  lemma {:induction false} NegativeOffset(m: Cas.Blobs, d: Digest, offset: Int64, limit: Int64)
    requires offset < 0 && Cas.Present(m, d)
    ensures Cas.Read(m, d, offset, limit) == Cas.Panics
    ensures IsEmpty(d) || limit <= 0 ==> S3Read(m, d, offset, limit) == Sent(Cas.Lookup(m, d).value)
    ensures !IsEmpty(d) && limit > 0 ==> S3Read(m, d, offset, limit) == Undetermined
  {
    HeaderParses(offset, limit);
  }

  /** A read at the end, which the two stores answer differently. */
  lemma PastTheEnd()
    ensures ServedFor([7], 1, 0) == Unsatisfiable && Cas.Slice([7], 1, 0) == []
  {
    ServedIsSlice([7], 1, 0);
  }
}
