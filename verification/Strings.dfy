/** The text functions the server leans on: strings.Split, strconv.ParseInt and the %d of fmt, in base 10. */
module Strings {
  import opened Digests

  // ---- Splitting ----

  /** strings.Split on a one-octet separator. */
  function Split(s: Text, sep: Byte): (parts: seq<Text>)
    ensures |parts| > 0
  {
    if s == [] then [[]]
    else
      var rest := Split(s[1..], sep);
      if s[0] == sep then [[]] + rest else [[s[0]] + rest[0]] + rest[1..]
  }

  lemma {:induction false} SplitWhole(s: Text, sep: Byte)
    requires sep !in s
    ensures Split(s, sep) == [s]
  {
    if s != [] {
      SplitWhole(s[1..], sep);
      assert [s[0]] + s[1..] == s;
    }
  }

  /** Splitting undoes joining, whatever is on either side of the separator. */
  lemma {:induction false} SplitJoin(a: Text, b: Text, sep: Byte)
    ensures Split(a + [sep] + b, sep) == Split(a, sep) + Split(b, sep)
  {
    var all := a + [sep] + b;
    if a == [] {
      assert all[1..] == b;
    } else {
      assert all[1..] == a[1..] + [sep] + b && all[0] == a[0];
      SplitJoin(a[1..], b, sep);
    }
  }

  lemma {:induction false} SplitParts(s: Text, sep: Byte, i: nat)
    requires i < |Split(s, sep)|
    ensures sep !in Split(s, sep)[i]
  {
    if s != [] {
      var rest := Split(s[1..], sep);
      if s[0] == sep {
        if i > 0 { SplitParts(s[1..], sep, i - 1); }
      } else {
        SplitParts(s[1..], sep, i);
      }
    }
  }

  // ---- Numbers ----

  const ZERO: Byte := 48
  const PLUS: Byte := 43
  const MINUS: Byte := 45

  predicate AllDigits(s: Text) {
    forall i :: 0 <= i < |s| ==> IsDigit(s[i])
  }

  function Digits(n: nat): (s: Text)
    ensures s != [] && AllDigits(s)
  {
    if n < 10 then [ZERO + n] else Digits(n / 10) + [ZERO + n % 10]
  }

  function Value(s: Text): nat
    requires AllDigits(s)
  {
    if s == [] then 0 else 10 * Value(s[..|s| - 1]) + (s[|s| - 1] - ZERO)
  }

  lemma {:induction false} ValueOfDigits(n: nat)
    ensures Value(Digits(n)) == n
  {
    if n >= 10 {
      ValueOfDigits(n / 10);
      var s := Digits(n);
      assert s[..|s| - 1] == Digits(n / 10);
    }
  }

  lemma DigitsNext(v: nat, d: nat)
    requires v > 0 && d < 10
    ensures Digits(10 * v + d) == Digits(v) + [ZERO + d]
  {
    assert (10 * v + d) / 10 == v && (10 * v + d) % 10 == d;
  }

  /** The other half: a number written without leading zeros is what its value is printed as. */
  lemma {:induction false} DigitsOfValue(s: Text)
    requires s != [] && AllDigits(s) && (s == [48] || s[0] != 48)
    ensures Digits(Value(s)) == s
    ensures Value(s) == 0 <==> s == [48]
    decreases |s|
  {
    var front, last := s[..|s| - 1], s[|s| - 1];
    assert s == front + [last];
    if |s| == 1 {
      assert Value(front) == 0;
    } else {
      DigitsOfValue(front);
      DigitsNext(Value(front), last - ZERO);
    }
  }

  /** %d. */
  function FormatInt(n: Int64): Text {
    if n < 0 then [MINUS] + Digits(-(n as int)) else Digits(n)
  }

  /** strconv.ParseInt(s, 10, 64): an optional sign and decimal digits, in range. */
  function ParseInt(s: Text): Option<Int64> {
    var signed := s != [] && (s[0] == PLUS || s[0] == MINUS);
    var digits := if signed then s[1..] else s;
    if digits == [] || !AllDigits(digits) then None
    else
      var n: int := if signed && s[0] == MINUS then -(Value(digits) as int) else Value(digits);
      if -TWO_63 <= n < TWO_63 then Some(n) else None
  }

  /** Digits are their value if that fits int64; a plus changes nothing, and a minus negates. */
  lemma ParseSigned(s: Text)
    requires s != [] && AllDigits(s)
    ensures ParseInt(s) == if Value(s) <= 0x7FFF_FFFF_FFFF_FFFF then Some(Value(s)) else None
    ensures ParseInt([43] + s) == ParseInt(s)
    ensures ParseInt([45] + s) == if Value(s) <= 0x8000_0000_0000_0000 then Some(-(Value(s) as int)) else None
  {
    assert ([43] + s)[1..] == s && ([45] + s)[1..] == s;
  }

  /** Every int64 survives being printed and parsed. */
  lemma ParseFormatted(n: Int64)
    ensures ParseInt(FormatInt(n)) == Some(n)
  {
    var size: nat := if n < 0 then -(n as int) else n;
    ValueOfDigits(size);
    ParseSigned(Digits(size));
  }

  /** Nothing else is a number. */
  lemma ParseOnly(s: Text)
    requires ParseInt(s).Some?
    ensures (s != [] && AllDigits(s)) || (|s| > 1 && s[0] in {43, 45} && AllDigits(s[1..]))
  {
  }
}
