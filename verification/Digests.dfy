/** The vocabulary of the build farm: octets, Go's fixed-width integers, and REAPI digests
    (internal/digest/digest.go). */
module Digests {

  datatype Option<+T> = None | Some(value: T)

  datatype Result<+T, +E> = Ok(value: T) | Err(error: E)

  type Byte = b: int | 0 <= b < 256
  type Bytes = seq<Byte>

  /** A Go string is a sequence of octets; nothing makes it valid UTF-8. */
  type Text = Bytes

  const TWO_63: int := 0x8000_0000_0000_0000
  const TWO_64: int := 0x1_0000_0000_0000_0000

  type Int64 = n: int | -TWO_63 <= n < TWO_63

  /** Conversion to int64 in Go: two's complement wrap-around. */
  function WrapInt64(n: int): (r: Int64)
    ensures -TWO_63 <= n < TWO_63 ==> r == n
  {
    var m := n % TWO_64;
    if m < TWO_63 then m else m - TWO_64
  }

  /** The octets of an ASCII literal. */
  function Ascii(s: string): (r: Text)
    ensures |r| == |s|
  {
    seq(|s|, i requires 0 <= i < |s| => s[i] as int % 256)
  }

  const HASH_LENGTH: nat := 64

  predicate IsDigit(c: Byte) { 48 <= c <= 57 }

  predicate IsLowerHex(c: Byte) { IsDigit(c) || 97 <= c <= 102 }

  predicate IsHex(c: Byte) { IsLowerHex(c) || 65 <= c <= 70 }

  /** The octets of a lower-case hexadecimal literal; anything else in it counts as '0'. */
  function HexLiteral(s: string): (r: Text)
    ensures |r| == |s| && forall i :: 0 <= i < |r| ==> IsLowerHex(r[i])
  {
    seq(|s|, i requires 0 <= i < |s| =>
      if '0' <= s[i] <= '9' || 'a' <= s[i] <= 'f' then s[i] as int else 48)
  }

  /** The published SHA-256 hash of zero bytes. */
  const EMPTY_HASH: Text :=
    HexLiteral("e3b0c44298fc1c149afbf4c8996fb92427ae41e4649b934ca495991b7852b855")

  /** What the model assumes of SHA-256 (FIPS 180-4) rendered by hex.EncodeToString: every hash is 64
      lower-case hexadecimal digits, and the hash of no bytes is the published constant.  Every
      statement holds for all such functions; the absence of collisions is never part of the type. */
  ghost predicate RendersSha256(f: Bytes -> Text) {
    && f([]) == EMPTY_HASH
    && forall b: Bytes :: |f(b)| == HASH_LENGTH && forall i :: 0 <= i < HASH_LENGTH ==> IsLowerHex(f(b)[i])
  }

  function ConstantHash(b: Bytes): Text { EMPTY_HASH }

  type HashFn = f: Bytes -> Text | RendersSha256(f) ghost witness ConstantHash

  datatype Digest = Digest(hash: Text, size: Int64)

  function FromBytes(sha: HashFn, b: Bytes): Digest {
    Digest(sha(b), WrapInt64(|b|))
  }

  predicate IsEmpty(d: Digest) {
    d.size == 0 && d.hash == EMPTY_HASH
  }

  datatype DigestError = BadLength | BadHex | NegativeSize

  /** digest.Validate on a non-nil digest; None means no error. */
  function Validate(d: Digest): Option<DigestError> {
    if |d.hash| != HASH_LENGTH then Some(BadLength)
    else if exists i :: 0 <= i < |d.hash| && !IsHex(d.hash[i]) then Some(BadHex)
    else if d.size < 0 then Some(NegativeSize)
    else None
  }

  /** The value of a hexadecimal digit, or 16. */
  function Nibble(c: Byte): nat {
    if 48 <= c <= 57 then c - 48 else if 97 <= c <= 102 then c - 87 else if 65 <= c <= 70 then c - 55 else 16
  }

  /** The text spells the octets, two hexadecimal digits each. */
  predicate Spells(hash: Text, raw: Bytes) {
    && |hash| == 2 * |raw|
    && forall i :: 0 <= i < |raw| ==> Nibble(hash[2 * i]) == raw[i] / 16 && Nibble(hash[2 * i + 1]) == raw[i] % 16
  }

  /** A digest is valid exactly when its hash spells the 32 octets of a SHA-256, in either case, and its size is
      not negative. */
  lemma ValidMeans(d: Digest)
    ensures Validate(d).None? <==> d.size >= 0 && exists raw: Bytes :: |raw| == 32 && Spells(d.hash, raw)
  {
    if Validate(d).None? {
      var raw: Bytes := seq(32, i requires 0 <= i < 32 => Octet(d.hash[2 * i], d.hash[2 * i + 1]));
      assert Spells(d.hash, raw);
    }
    if d.size >= 0 && exists raw: Bytes :: |raw| == 32 && Spells(d.hash, raw) {
      var raw: Bytes :| |raw| == 32 && Spells(d.hash, raw);
      forall k | 0 <= k < 64 ensures IsHex(d.hash[k]) {
        var i := k / 2;
        assert k == 2 * i || k == 2 * i + 1;
        assert raw[i] / 16 < 16 && raw[i] % 16 < 16;
      }
    }
  }

  function Octet(high: Byte, low: Byte): (r: Byte)
    ensures Nibble(high) < 16 && Nibble(low) < 16 ==> r / 16 == Nibble(high) && r % 16 == Nibble(low)
  {
    if Nibble(high) < 16 && Nibble(low) < 16 then 16 * Nibble(high) + Nibble(low) else 0
  }

  /** No two different blobs of `blobs` share a hash.  The empty blob always counts as in play,
      because every store answers for it without storing it. */
  ghost predicate NoCollision(sha: HashFn, blobs: set<Bytes>) {
    forall a, b :: a in blobs + {[]} && b in blobs + {[]} && sha(a) == sha(b) ==> a == b
  }

  lemma NoCollisionSubset(sha: HashFn, small: set<Bytes>, large: set<Bytes>)
    requires NoCollision(sha, large) && small <= large
    ensures NoCollision(sha, small)
  {
    assert small + {[]} <= large + {[]};
  }

  /** IsEmpty accepts exactly the digest of no bytes. */
  lemma EmptyDigest(sha: HashFn, d: Digest)
    ensures IsEmpty(d) <==> d == FromBytes(sha, [])
  {
    assert sha([]) == EMPTY_HASH;
  }

  /** Where nothing collides, digest.FromBytes identifies a blob, and only the empty blob gets the
      digest that stores treat as always present. */
  lemma DigestIdentifies(sha: HashFn, blobs: set<Bytes>, a: Bytes, b: Bytes)
    requires NoCollision(sha, blobs) && a in blobs && b in blobs
    ensures FromBytes(sha, a) == FromBytes(sha, b) <==> a == b
    ensures IsEmpty(FromBytes(sha, a)) <==> a == []
  {
    assert sha([]) == EMPTY_HASH;
    assert [] in blobs + {[]};
  }
}
