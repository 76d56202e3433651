/** The protobuf wire format of the REAPI messages that make up directory trees: what proto.Marshal
    and proto.Unmarshal do with Digest, FileNode, DirectoryNode, SymlinkNode, Directory and Tree.
    Every one of their fields is a varint or length-delimited. */
module Wire {
  import opened Digests
  import opened Named

  // ---- Records ----

  datatype Field = Varint(num: nat, value: nat) | Len(num: nat, payload: Bytes)

  datatype Fields = Nil | Cons(head: Field, tail: Fields)

  /** Field numbers start at 1. */
  predicate Numbered(fs: Fields) {
    fs.Nil? || (fs.head.num > 0 && Numbered(fs.tail))
  }

  function Append(a: Fields, b: Fields): (r: Fields)
    ensures Numbered(a) && Numbered(b) ==> Numbered(r)
  {
    match a
    case Nil => b
    case Cons(f, rest) => Cons(f, Append(rest, b))
  }

  function EncodeVarint(n: nat): (r: Bytes)
    ensures |r| > 0
  {
    if n < 128 then [n] else [128 + n % 128] + EncodeVarint(n / 128)
  }

  function DecodeVarint(b: Bytes): (r: Option<(nat, Bytes)>)
    ensures r.Some? ==> |r.value.1| < |b|
  {
    if b == [] then None
    else if b[0] < 128 then Some((b[0], b[1..]))
    else match DecodeVarint(b[1..])
      case None => None
      case Some((high, rest)) => Some((b[0] - 128 + 128 * high, rest))
  }

  lemma {:induction false} VarintRoundTrip(n: nat, rest: Bytes)
    ensures DecodeVarint(EncodeVarint(n) + rest) == Some((n, rest))
  {
    var b := EncodeVarint(n) + rest;
    if n < 128 {
      assert b[1..] == rest;
    } else {
      VarintRoundTrip(n / 128, rest);
      assert b[1..] == EncodeVarint(n / 128) + rest;
    }
  }

  function EncodeField(f: Field): (r: Bytes)
    ensures |r| > 0
  {
    match f
    case Varint(num, value) => EncodeVarint(8 * num) + EncodeVarint(value)
    case Len(num, payload) => EncodeVarint(8 * num + 2) + EncodeVarint(|payload|) + payload
  }

  function EncodeFields(fs: Fields): Bytes {
    match fs
    case Nil => []
    case Cons(f, rest) => EncodeField(f) + EncodeFields(rest)
  }

  function DecodeField(b: Bytes): (r: Option<(Field, Bytes)>)
    ensures r.Some? ==> |r.value.1| < |b|
  {
    match DecodeVarint(b)
    case None => None
    case Some((key, body)) =>
      match DecodeVarint(body)
      case None => None
      case Some((n, rest)) =>
        if key / 8 == 0 then None
        else if key % 8 == 0 then Some((Varint(key / 8, n), rest))
        else if key % 8 == 2 && n <= |rest| then Some((Len(key / 8, rest[..n]), rest[n..]))
        else None
  }

  function DecodeFields(b: Bytes): Option<Fields>
    decreases |b|
  {
    if b == [] then Some(Nil)
    else match DecodeField(b)
      case None => None
      case Some((f, rest)) =>
        match DecodeFields(rest)
        case None => None
        case Some(fs) => Some(Cons(f, fs))
  }

  lemma DecodeTwoVarints(key: nat, n: nat, rest: Bytes)
    requires key >= 8
    ensures var b := EncodeVarint(key) + EncodeVarint(n) + rest;
      && (key % 8 == 0 ==> DecodeField(b) == Some((Varint(key / 8, n), rest)))
      && (key % 8 == 2 && n <= |rest| ==> DecodeField(b) == Some((Len(key / 8, rest[..n]), rest[n..])))
  {
    var body := EncodeVarint(n) + rest;
    VarintRoundTrip(key, body);
    VarintRoundTrip(n, rest);
    assert EncodeVarint(key) + EncodeVarint(n) + rest == EncodeVarint(key) + body;
  }

  lemma VarintFieldRoundTrip(num: nat, value: nat, rest: Bytes)
    requires num > 0
    ensures DecodeField(EncodeField(Varint(num, value)) + rest) == Some((Varint(num, value), rest))
  {
    var key := 8 * num;
    assert key / 8 == num && key % 8 == 0;
    DecodeTwoVarints(key, value, rest);
  }

  lemma LenFieldRoundTrip(num: nat, payload: Bytes, rest: Bytes)
    requires num > 0
    ensures DecodeField(EncodeField(Len(num, payload)) + rest) == Some((Len(num, payload), rest))
  {
    var key, after := 8 * num + 2, payload + rest;
    assert key / 8 == num && key % 8 == 2;
    DecodeTwoVarints(key, |payload|, after);
    assert after[..|payload|] == payload && after[|payload|..] == rest;
    var head := EncodeVarint(key) + EncodeVarint(|payload|);
    assert head + payload + rest == head + after;
  }

  lemma FieldRoundTrip(f: Field, rest: Bytes)
    requires f.num > 0
    ensures DecodeField(EncodeField(f) + rest) == Some((f, rest))
  {
    match f
    case Varint(num, value) => VarintFieldRoundTrip(num, value, rest);
    case Len(num, payload) => LenFieldRoundTrip(num, payload, rest);
  }

  lemma {:induction false} FieldsRoundTrip(fs: Fields)
    requires Numbered(fs)
    ensures DecodeFields(EncodeFields(fs)) == Some(fs)
  {
    if fs.Cons? {
      FieldRoundTrip(fs.head, EncodeFields(fs.tail));
      FieldsRoundTrip(fs.tail);
    }
  }

  // ---- Strings and scalars ----

  predicate Continuation(c: Byte) { 0x80 <= c <= 0xBF }

  /** RFC 3629, section 4.  proto.Marshal refuses a string field that is not valid UTF-8, and
      proto.Unmarshal refuses to read one. */
  predicate ValidUtf8(s: Text) {
    if s == [] then true
    else if s[0] < 0x80 then ValidUtf8(s[1..])
    else if 0xC2 <= s[0] <= 0xDF then |s| >= 2 && Continuation(s[1]) && ValidUtf8(s[2..])
    else if 0xE0 <= s[0] <= 0xEF then
      && |s| >= 3 && Continuation(s[1]) && Continuation(s[2])
      && (s[0] == 0xE0 ==> s[1] >= 0xA0) && (s[0] == 0xED ==> s[1] <= 0x9F)
      && ValidUtf8(s[3..])
    else if 0xF0 <= s[0] <= 0xF4 then
      && |s| >= 4 && Continuation(s[1]) && Continuation(s[2]) && Continuation(s[3])
      && (s[0] == 0xF0 ==> s[1] >= 0x90) && (s[0] == 0xF4 ==> s[1] <= 0x8F)
      && ValidUtf8(s[4..])
    else false
  }

  // ---- UTF-8, by its encoding ----

  /** A Unicode scalar value. */
  predicate Scalar(c: nat) { c < 0xD800 || 0xE000 <= c < 0x11_0000 }

  /** RFC 3629, section 3. */
  function EncodeRune(c: nat): (b: Bytes)
    requires Scalar(c)
    ensures |b| > 0
  {
    if c < 0x80 then [c]
    else if c < 0x800 then [0xC0 + c / 0x40, 0x80 + c % 0x40]
    else if c < 0x1_0000 then [0xE0 + c / 0x1000, 0x80 + c / 0x40 % 0x40, 0x80 + c % 0x40]
    else [0xF0 + c / 0x4_0000, 0x80 + c / 0x1000 % 0x40, 0x80 + c / 0x40 % 0x40, 0x80 + c % 0x40]
  }

  predicate Scalars(cs: seq<nat>) {
    forall i :: 0 <= i < |cs| ==> Scalar(cs[i])
  }

  function EncodeRunes(cs: seq<nat>): Bytes
    requires Scalars(cs)
  {
    if cs == [] then [] else EncodeRune(cs[0]) + EncodeRunes(cs[1..])
  }

  /** What the second octet may be depends on the first. */
  lemma LongRune(c: nat)
    requires Scalar(c) && c >= 0x800
    ensures var b := EncodeRune(c);
      && (c < 0x1_0000 ==>
            && 0xE0 <= b[0] <= 0xEF && Continuation(b[1]) && Continuation(b[2])
            && (b[0] == 0xE0 ==> b[1] >= 0xA0) && (b[0] == 0xED ==> b[1] <= 0x9F))
      && (c >= 0x1_0000 ==>
            && 0xF0 <= b[0] <= 0xF4 && Continuation(b[1]) && Continuation(b[2]) && Continuation(b[3])
            && (b[0] == 0xF0 ==> b[1] >= 0x90) && (b[0] == 0xF4 ==> b[1] <= 0x8F))
  {
  }

  lemma RuneIsValid(c: nat, rest: Text)
    requires Scalar(c)
    ensures ValidUtf8(EncodeRune(c) + rest) <==> ValidUtf8(rest)
  {
    var s := EncodeRune(c) + rest;
    if c < 0x80 {
      assert s[1..] == rest;
    } else if c < 0x800 {
      assert s[2..] == rest && 0xC2 <= s[0] <= 0xDF;
    } else if c < 0x1_0000 {
      LongRune(c);
      assert s[3..] == rest && 0xE0 <= s[0] <= 0xEF;
    } else {
      LongRune(c);
      assert s[4..] == rest && 0xF0 <= s[0] <= 0xF4;
    }
  }

  lemma TwoOctets(a: Byte, b: Byte) returns (c: nat)
    requires 0xC2 <= a <= 0xDF && Continuation(b)
    ensures Scalar(c) && EncodeRune(c) == [a, b]
  {
    var x: int, y: int := a - 0xC0, b - 0x80;
    c := x * 0x40 + y;
    assert c / 0x40 == x && c % 0x40 == y;
  }

  lemma ThreeOctets(a: Byte, b: Byte, d: Byte) returns (c: nat)
    requires 0xE0 <= a <= 0xEF && Continuation(b) && Continuation(d)
    requires (a == 0xE0 ==> b >= 0xA0) && (a == 0xED ==> b <= 0x9F)
    ensures Scalar(c) && EncodeRune(c) == [a, b, d]
  {
    var x: int, y: int, z: int := a - 0xE0, b - 0x80, d - 0x80;
    c := x * 0x1000 + y * 0x40 + z;
    assert c / 0x1000 == x && c / 0x40 == x * 0x40 + y && c % 0x40 == z;
    assert (x * 0x40 + y) % 0x40 == y;
  }

  lemma FourOctets(a: Byte, b: Byte, d: Byte, e: Byte) returns (c: nat)
    requires 0xF0 <= a <= 0xF4 && Continuation(b) && Continuation(d) && Continuation(e)
    requires (a == 0xF0 ==> b >= 0x90) && (a == 0xF4 ==> b <= 0x8F)
    ensures Scalar(c) && EncodeRune(c) == [a, b, d, e]
  {
    var w: int, x: int, y: int, z: int := a - 0xF0, b - 0x80, d - 0x80, e - 0x80;
    c := w * 0x4_0000 + x * 0x1000 + y * 0x40 + z;
    assert c / 0x4_0000 == w && c / 0x1000 == w * 0x40 + x && c / 0x40 == (w * 0x40 + x) * 0x40 + y && c % 0x40 == z;
    assert (w * 0x40 + x) % 0x40 == x && ((w * 0x40 + x) * 0x40 + y) % 0x40 == y;
  }

  /** The scalar value that the first octets of a valid string encode. */
  lemma FirstRune(s: Text) returns (c: nat, rest: Text)
    requires ValidUtf8(s) && s != []
    ensures Scalar(c) && s == EncodeRune(c) + rest
  {
    if s[0] < 0x80 {
      c, rest := s[0], s[1..];
    } else if s[0] <= 0xDF {
      c := TwoOctets(s[0], s[1]);
      rest := s[2..];
    } else if s[0] <= 0xEF {
      c := ThreeOctets(s[0], s[1], s[2]);
      rest := s[3..];
    } else {
      c := FourOctets(s[0], s[1], s[2], s[3]);
      rest := s[4..];
    }
  }

  lemma {:induction false} RunesAreValid(cs: seq<nat>)
    requires Scalars(cs)
    ensures ValidUtf8(EncodeRunes(cs))
  {
    if cs != [] {
      RunesAreValid(cs[1..]);
      RuneIsValid(cs[0], EncodeRunes(cs[1..]));
    }
  }

  lemma {:induction false} RunesOf(s: Text) returns (cs: seq<nat>)
    requires ValidUtf8(s)
    ensures Scalars(cs) && EncodeRunes(cs) == s
    decreases |s|
  {
    if s == [] {
      cs := [];
    } else {
      var c, rest := FirstRune(s);
      RuneIsValid(c, rest);
      assert |s| == |EncodeRune(c)| + |rest|;
      var more := RunesOf(rest);
      cs := [c] + more;
      assert cs[1..] == more;
    }
  }

  /** A string is valid exactly when it encodes a sequence of Unicode scalar values. */
  lemma Utf8Means(s: Text)
    ensures ValidUtf8(s) <==> exists cs: seq<nat> :: Scalars(cs) && EncodeRunes(cs) == s
  {
    if ValidUtf8(s) {
      var cs := RunesOf(s);
    }
    if cs: seq<nat> :| Scalars(cs) && EncodeRunes(cs) == s {
      RunesAreValid(cs);
    }
  }

  function StringField(num: nat, s: Text): (fs: Fields)
    requires num > 0
    ensures Numbered(fs)
  {
    if s == [] then Nil else Cons(Len(num, s), Nil)
  }

  function IntField(num: nat, n: nat): (fs: Fields)
    requires num > 0
    ensures Numbered(fs)
  {
    if n == 0 then Nil else Cons(Varint(num, n), Nil)
  }

  // ---- Messages ----

  datatype FileRef = FileRef(digest: Digest, executable: bool)

  datatype Directory = Directory(files: seq<Named<FileRef>>, directories: seq<Named<Digest>>,
      symlinks: seq<Named<Text>>)

  datatype Tree = Tree(root: Directory, children: seq<Directory>)

  const NIL_DIGEST := Digest([], 0)
  const EMPTY_DIRECTORY := Directory([], [], [])

  predicate CleanDigest(d: Digest) { ValidUtf8(d.hash) }
  predicate CleanFile(f: Named<FileRef>) { ValidUtf8(f.name) && CleanDigest(f.value.digest) }
  predicate CleanSubdirectory(d: Named<Digest>) { ValidUtf8(d.name) && CleanDigest(d.value) }
  predicate CleanSymlink(l: Named<Text>) { ValidUtf8(l.name) && ValidUtf8(l.value) }

  /** Every string of the message is valid UTF-8. */
  predicate Clean(d: Directory) {
    && (forall f :: f in d.files ==> CleanFile(f))
    && (forall s :: s in d.directories ==> CleanSubdirectory(s))
    && (forall l :: l in d.symlinks ==> CleanSymlink(l))
  }

  function DigestFields(d: Digest): (fs: Fields)
    ensures Numbered(fs)
  {
    Append(StringField(1, d.hash), IntField(2, if d.size < 0 then d.size + TWO_64 else d.size))
  }

  function EncodeDigest(d: Digest): Bytes { EncodeFields(DigestFields(d)) }

  function FileFields(f: Named<FileRef>): (fs: Fields)
    ensures Numbered(fs)
  {
    Append(StringField(1, f.name),
      Cons(Len(2, EncodeDigest(f.value.digest)), IntField(4, if f.value.executable then 1 else 0)))
  }

  function SubdirectoryFields(d: Named<Digest>): (fs: Fields)
    ensures Numbered(fs)
  {
    Append(StringField(1, d.name), Cons(Len(2, EncodeDigest(d.value)), Nil))
  }

  function SymlinkFields(l: Named<Text>): (fs: Fields)
    ensures Numbered(fs)
  {
    Append(StringField(1, l.name), StringField(2, l.value))
  }

  function EncodeFile(f: Named<FileRef>): Bytes { EncodeFields(FileFields(f)) }
  function EncodeSubdirectory(d: Named<Digest>): Bytes { EncodeFields(SubdirectoryFields(d)) }
  function EncodeSymlink(l: Named<Text>): Bytes { EncodeFields(SymlinkFields(l)) }

  /** A repeated message field: one record per element. */
  function Repeated<T>(num: nat, encode: T -> Bytes, xs: seq<T>): (fs: Fields)
    requires num > 0
    ensures Numbered(fs)
  {
    if xs == [] then Nil else Cons(Len(num, encode(xs[0])), Repeated(num, encode, xs[1..]))
  }

  function DirectoryFields(d: Directory): (fs: Fields)
    ensures Numbered(fs)
  {
    var links := Repeated(3, EncodeSymlink, d.symlinks);
    var subdirectories := Repeated(2, EncodeSubdirectory, d.directories);
    var files := Repeated(1, EncodeFile, d.files);
    Append(files, Append(subdirectories, links))
  }

  function EncodeDirectory(d: Directory): Bytes {
    EncodeFields(DirectoryFields(d))
  }

  /** proto.Marshal of a Directory. */
  function MarshalDirectory(d: Directory): Option<Bytes> {
    if Clean(d) then Some(EncodeDirectory(d)) else None
  }

  function TreeFields(t: Tree): (fs: Fields)
    ensures Numbered(fs)
  {
    Cons(Len(1, EncodeDirectory(t.root)), Repeated(2, EncodeDirectory, t.children))
  }

  function EncodeTree(t: Tree): Bytes {
    EncodeFields(TreeFields(t))
  }

  predicate CleanTree(t: Tree) {
    Clean(t.root) && forall d :: d in t.children ==> Clean(d)
  }

  /** proto.Marshal of a Tree. */
  function MarshalTree(t: Tree): Option<Bytes> {
    if CleanTree(t) then Some(EncodeTree(t)) else None
  }

  // ---- The layout, in octets ----

  /** What a varint stands for: seven bits an octet, the lowest first. */
  function Sum(b: Bytes): nat {
    if b == [] then 0 else b[0] % 128 + 128 * Sum(b[1..])
  }

  /** A varint is base 128, the high bit set on all octets but the last, and no longer than it need be. */
  lemma {:induction false} VarintMeans(n: nat)
    ensures var b := EncodeVarint(n);
      && Sum(b) == n && b[|b| - 1] < 128 && (|b| > 1 ==> b[|b| - 1] > 0)
      && forall i :: 0 <= i < |b| - 1 ==> b[i] >= 128
  {
    if n >= 128 {
      VarintMeans(n / 128);
      var b := EncodeVarint(n);
      assert b[1..] == EncodeVarint(n / 128);
      assert b[|b| - 1] == b[1..][|b| - 2];
      forall i | 0 <= i < |b| - 1 ensures b[i] >= 128 {
        if i > 0 { assert b[i] == b[1..][i - 1]; }
      }
    } else {
      assert EncodeVarint(n)[1..] == [];
    }
  }

  /** A field whose key takes one octet, its length, and its payload. */
  function Delimited(key: Byte, payload: Bytes): Bytes {
    [key] + EncodeVarint(|payload|) + payload
  }

  /** A string field, which is left out when empty. */
  function Present(key: Byte, s: Bytes): Bytes {
    if s == [] then [] else Delimited(key, s)
  }

  function Each<T>(key: Byte, encode: T -> Bytes, xs: seq<T>): Bytes {
    if xs == [] then [] else Delimited(key, encode(xs[0])) + Each(key, encode, xs[1..])
  }

  lemma {:induction false} EncodeAppend(a: Fields, b: Fields)
    ensures EncodeFields(Append(a, b)) == EncodeFields(a) + EncodeFields(b)
  {
    if a.Cons? {
      EncodeAppend(a.tail, b);
      Regroup(EncodeField(a.head), EncodeFields(a.tail), EncodeFields(b));
    } else {
      assert [] + EncodeFields(b) == EncodeFields(b);
    }
  }

  lemma EncodeOne(f: Field)
    ensures EncodeFields(Cons(f, Nil)) == EncodeField(f)
  {
    assert EncodeFields(Nil) == [];
    assert EncodeField(f) + [] == EncodeField(f);
  }

  lemma DelimitedField(num: nat, payload: Bytes)
    requires 0 < num < 16
    ensures EncodeField(Len(num, payload)) == Delimited(8 * num + 2, payload)
  {
    assert EncodeVarint(8 * num + 2) == [8 * num + 2];
  }

  lemma PresentField(num: nat, s: Text)
    requires 0 < num < 16
    ensures EncodeFields(StringField(num, s)) == Present(8 * num + 2, s)
  {
    DelimitedField(num, s);
    EncodeOne(Len(num, s));
  }

  lemma {:induction false} EachField<T>(num: nat, encode: T -> Bytes, xs: seq<T>)
    requires 0 < num < 16
    ensures EncodeFields(Repeated(num, encode, xs)) == Each(8 * num + 2, encode, xs)
  {
    if xs != [] {
      EachField(num, encode, xs[1..]);
      DelimitedField(num, encode(xs[0]));
    }
  }

  /** Digest: hash = 1, size_bytes = 2, which takes ten octets when negative. */
  lemma DigestLayout(d: Digest)
    ensures EncodeDigest(d) == Present(0x0A, d.hash) +
      (if d.size == 0 then []
       else [0x10] + EncodeVarint(if d.size < 0 then d.size + 0x1_0000_0000_0000_0000 else d.size))
  {
    var n := if d.size < 0 then d.size + TWO_64 else d.size;
    EncodeAppend(StringField(1, d.hash), IntField(2, n));
    PresentField(1, d.hash);
    EncodeOne(Varint(2, n));
    assert EncodeVarint(16) == [0x10];
  }

  /** FileNode: name = 1, digest = 2, is_executable = 4. */
  lemma FileLayout(f: Named<FileRef>)
    ensures EncodeFile(f) == Present(0x0A, f.name) + Delimited(0x12, EncodeDigest(f.value.digest)) +
      (if f.value.executable then [0x20, 0x01] else [])
  {
    var digest, flag := Len(2, EncodeDigest(f.value.digest)), IntField(4, if f.value.executable then 1 else 0);
    EncodeAppend(StringField(1, f.name), Cons(digest, flag));
    PresentField(1, f.name);
    DelimitedField(2, EncodeDigest(f.value.digest));
    EncodeOne(Varint(4, 1));
    assert EncodeVarint(32) == [0x20] && EncodeVarint(1) == [0x01] && [0x20] + [0x01] == [0x20, 0x01];
    Regroup(Present(0x0A, f.name), Delimited(0x12, EncodeDigest(f.value.digest)), EncodeFields(flag));
  }

  /** DirectoryNode: name = 1, digest = 2. */
  lemma SubdirectoryLayout(d: Named<Digest>)
    ensures EncodeSubdirectory(d) == Present(0x0A, d.name) + Delimited(0x12, EncodeDigest(d.value))
  {
    EncodeAppend(StringField(1, d.name), Cons(Len(2, EncodeDigest(d.value)), Nil));
    PresentField(1, d.name);
    DelimitedField(2, EncodeDigest(d.value));
    EncodeOne(Len(2, EncodeDigest(d.value)));
  }

  /** SymlinkNode: name = 1, target = 2. */
  lemma SymlinkLayout(l: Named<Text>)
    ensures EncodeSymlink(l) == Present(0x0A, l.name) + Present(0x12, l.value)
  {
    EncodeAppend(StringField(1, l.name), StringField(2, l.value));
    PresentField(1, l.name);
    PresentField(2, l.value);
  }

  /** Directory: files = 1, directories = 2, symlinks = 3. */
  lemma DirectoryLayout(d: Directory)
    ensures EncodeDirectory(d) == Each(0x0A, EncodeFile, d.files) + Each(0x12, EncodeSubdirectory, d.directories) +
      Each(0x1A, EncodeSymlink, d.symlinks)
  {
    var links := Repeated(3, EncodeSymlink, d.symlinks);
    var subdirectories := Repeated(2, EncodeSubdirectory, d.directories);
    var files := Repeated(1, EncodeFile, d.files);
    EncodeThree(files, subdirectories, links);
    EachField(1, EncodeFile, d.files);
    EachField(2, EncodeSubdirectory, d.directories);
    EachField(3, EncodeSymlink, d.symlinks);
  }

  lemma EncodeThree(a: Fields, b: Fields, c: Fields)
    ensures EncodeFields(Append(a, Append(b, c))) == EncodeFields(a) + EncodeFields(b) + EncodeFields(c)
  {
    EncodeAppend(a, Append(b, c));
    EncodeAppend(b, c);
    Regroup(EncodeFields(a), EncodeFields(b), EncodeFields(c));
  }

  lemma Regroup(a: Bytes, b: Bytes, c: Bytes)
    ensures a + (b + c) == a + b + c
  {
  }

  /** Tree: root = 1, children = 2. */
  lemma TreeLayout(t: Tree)
    ensures EncodeTree(t) == Delimited(0x0A, EncodeDirectory(t.root)) + Each(0x12, EncodeDirectory, t.children)
  {
    DelimitedField(1, EncodeDirectory(t.root));
    EachField(2, EncodeDirectory, t.children);
  }

  // Decoding folds the records over the message read so far: repeated fields append, singular
  // fields are replaced (sub-messages merged), and fields the message does not know are skipped.

  function Merge<M>(step: (Field, M) -> Option<M>, fs: Fields, m: M): Option<M> {
    match fs
    case Nil => Some(m)
    case Cons(f, rest) =>
      match step(f, m)
      case None => None
      case Some(next) => Merge(step, rest, next)
  }

  function Read<M>(step: (Field, M) -> Option<M>, b: Bytes, m: M): Option<M> {
    match DecodeFields(b)
    case None => None
    case Some(fs) => Merge(step, fs, m)
  }

  function DigestStep(f: Field, d: Digest): Option<Digest> {
    match f
    case Len(num, p) => if num != 1 then Some(d) else if ValidUtf8(p) then Some(d.(hash := p)) else None
    case Varint(num, n) => Some(if num == 2 then d.(size := WrapInt64(n)) else d)
  }

  function FileStep(f: Field, file: Named<FileRef>): Option<Named<FileRef>> {
    match f
    case Varint(num, n) => Some(if num == 4 then file.(value := file.value.(executable := n != 0)) else file)
    case Len(num, p) =>
      if num == 1 then
        if ValidUtf8(p) then Some(file.(name := p)) else None
      else if num == 2 then
        match Read(DigestStep, p, file.value.digest)
        case None => None
        case Some(d) => Some(file.(value := file.value.(digest := d)))
      else Some(file)
  }

  function SubdirectoryStep(f: Field, sub: Named<Digest>): Option<Named<Digest>> {
    match f
    case Varint(_, _) => Some(sub)
    case Len(num, p) =>
      if num == 1 then
        if ValidUtf8(p) then Some(sub.(name := p)) else None
      else if num == 2 then
        match Read(DigestStep, p, sub.value)
        case None => None
        case Some(d) => Some(sub.(value := d))
      else Some(sub)
  }

  function SymlinkStep(f: Field, link: Named<Text>): Option<Named<Text>> {
    match f
    case Varint(_, _) => Some(link)
    case Len(num, p) =>
      if num != 1 && num != 2 then Some(link)
      else if !ValidUtf8(p) then None
      else Some(if num == 1 then link.(name := p) else link.(value := p))
  }

  function ReadFile(b: Bytes): Option<Named<FileRef>> {
    Read(FileStep, b, Named([], FileRef(NIL_DIGEST, false)))
  }

  function ReadSubdirectory(b: Bytes): Option<Named<Digest>> {
    Read(SubdirectoryStep, b, Named([], NIL_DIGEST))
  }

  function ReadSymlink(b: Bytes): Option<Named<Text>> {
    Read(SymlinkStep, b, Named([], []))
  }

  function DirectoryStep(f: Field, d: Directory): Option<Directory> {
    match f
    case Varint(_, _) => Some(d)
    case Len(num, p) =>
      if num == 1 then
        match ReadFile(p)
        case None => None
        case Some(file) => Some(d.(files := d.files + [file]))
      else if num == 2 then
        match ReadSubdirectory(p)
        case None => None
        case Some(sub) => Some(d.(directories := d.directories + [sub]))
      else if num == 3 then
        match ReadSymlink(p)
        case None => None
        case Some(link) => Some(d.(symlinks := d.symlinks + [link]))
      else Some(d)
  }

  /** proto.Unmarshal into an empty Directory. */
  function UnmarshalDirectory(b: Bytes): Option<Directory> {
    Read(DirectoryStep, b, EMPTY_DIRECTORY)
  }

  function TreeStep(f: Field, t: Tree): Option<Tree> {
    match f
    case Varint(_, _) => Some(t)
    case Len(num, p) =>
      if num == 1 then
        match Read(DirectoryStep, p, t.root)
        case None => None
        case Some(d) => Some(t.(root := d))
      else if num == 2 then
        match UnmarshalDirectory(p)
        case None => None
        case Some(d) => Some(t.(children := t.children + [d]))
      else Some(t)
  }

  /** proto.Unmarshal into an empty Tree. */
  function UnmarshalTree(b: Bytes): Option<Tree> {
    Read(TreeStep, b, Tree(EMPTY_DIRECTORY, []))
  }

  // ---- Round trips ----

  lemma {:induction false} MergeAppend<M>(step: (Field, M) -> Option<M>, a: Fields, b: Fields, m: M)
    requires Merge(step, a, m).Some?
    ensures Merge(step, Append(a, b), m) == Merge(step, b, Merge(step, a, m).value)
  {
    if a.Cons? {
      MergeAppend(step, a.tail, b, step(a.head, m).value);
    }
  }

  lemma DigestRoundTrip(d: Digest)
    requires CleanDigest(d)
    ensures Read(DigestStep, EncodeDigest(d), NIL_DIGEST) == Some(d)
  {
    var n := if d.size < 0 then d.size + TWO_64 else d.size;
    var named := NIL_DIGEST.(hash := d.hash);
    assert WrapInt64(n) == d.size;
    FieldsRoundTrip(DigestFields(d));
    assert Merge(DigestStep, StringField(1, d.hash), NIL_DIGEST) == Some(named);
    assert Merge(DigestStep, IntField(2, n), named) == Some(d);
    MergeAppend(DigestStep, StringField(1, d.hash), IntField(2, n), NIL_DIGEST);
  }

  lemma {:induction false} FileRoundTrip(f: Named<FileRef>)
    requires CleanFile(f)
    ensures ReadFile(EncodeFile(f)) == Some(f)
  {
    var blank := Named([], FileRef(NIL_DIGEST, false));
    var named := blank.(name := f.name);
    var referring := Named(f.name, FileRef(f.value.digest, false));
    var digest := Len(2, EncodeDigest(f.value.digest));
    var flag := IntField(4, if f.value.executable then 1 else 0);
    FieldsRoundTrip(FileFields(f));
    assert FileStep(digest, named) == Some(referring) by {
      DigestRoundTrip(f.value.digest);
    }
    assert Merge(FileStep, flag, referring) == Some(f);
    assert Merge(FileStep, StringField(1, f.name), blank) == Some(named);
    MergeAppend(FileStep, StringField(1, f.name), Cons(digest, flag), blank);
  }

  lemma SubdirectoryRoundTrip(d: Named<Digest>)
    requires CleanSubdirectory(d)
    ensures ReadSubdirectory(EncodeSubdirectory(d)) == Some(d)
  {
    var blank := Named([], NIL_DIGEST);
    var named := blank.(name := d.name);
    var digest := Len(2, EncodeDigest(d.value));
    FieldsRoundTrip(SubdirectoryFields(d));
    assert SubdirectoryStep(digest, named) == Some(d) by {
      DigestRoundTrip(d.value);
    }
    assert Merge(SubdirectoryStep, StringField(1, d.name), blank) == Some(named);
    MergeAppend(SubdirectoryStep, StringField(1, d.name), Cons(digest, Nil), blank);
  }

  lemma SymlinkRoundTrip(l: Named<Text>)
    requires CleanSymlink(l)
    ensures ReadSymlink(EncodeSymlink(l)) == Some(l)
  {
    var blank: Named<Text> := Named([], []);
    var named := blank.(name := l.name);
    FieldsRoundTrip(SymlinkFields(l));
    assert Merge(SymlinkStep, StringField(1, l.name), blank) == Some(named);
    assert Merge(SymlinkStep, StringField(2, l.value), named) == Some(l);
    MergeAppend(SymlinkStep, StringField(1, l.name), StringField(2, l.value), blank);
  }

  /** If the step for field `num` appends the element a payload encodes, then reading a repeated
      field appends all its elements in order.  `put` plugs a list into the rest of the message. */
  lemma {:induction false} MergeRepeated<M, T>(step: (Field, M) -> Option<M>, num: nat, encode: T -> Bytes,
      put: seq<T> -> M, done: seq<T>, xs: seq<T>)
    requires num > 0
    requires forall x, ys :: x in xs ==> step(Len(num, encode(x)), put(ys)) == Some(put(ys + [x]))
    ensures Merge(step, Repeated(num, encode, xs), put(done)) == Some(put(done + xs))
    decreases |xs|
  {
    if xs == [] {
      assert done + xs == done;
    } else {
      assert step(Len(num, encode(xs[0])), put(done)) == Some(put(done + [xs[0]])) by {
        assert xs[0] in xs;
      }
      MergeRepeated(step, num, encode, put, done + [xs[0]], xs[1..]);
      assert done + [xs[0]] + xs[1..] == done + xs;
    }
  }

  lemma {:induction false} MergeFiles(d: Directory, xs: seq<Named<FileRef>>)
    requires forall x :: x in xs ==> CleanFile(x)
    ensures Merge(DirectoryStep, Repeated(1, EncodeFile, xs), d) == Some(d.(files := d.files + xs))
  {
    var put := (ys: seq<Named<FileRef>>) => d.(files := ys);
    forall x, ys | x in xs
      ensures DirectoryStep(Len(1, EncodeFile(x)), put(ys)) == Some(put(ys + [x]))
    {
      FileRoundTrip(x);
    }
    MergeRepeated(DirectoryStep, 1, EncodeFile, put, d.files, xs);
    assert put(d.files) == d;
  }

  lemma MergeSubdirectories(d: Directory, xs: seq<Named<Digest>>)
    requires forall x :: x in xs ==> CleanSubdirectory(x)
    ensures Merge(DirectoryStep, Repeated(2, EncodeSubdirectory, xs), d) == Some(d.(directories := d.directories + xs))
  {
    var put := (ys: seq<Named<Digest>>) => d.(directories := ys);
    forall x, ys | x in xs
      ensures DirectoryStep(Len(2, EncodeSubdirectory(x)), put(ys)) == Some(put(ys + [x]))
    {
      SubdirectoryRoundTrip(x);
    }
    MergeRepeated(DirectoryStep, 2, EncodeSubdirectory, put, d.directories, xs);
    assert put(d.directories) == d;
  }

  lemma MergeSymlinks(d: Directory, xs: seq<Named<Text>>)
    requires forall x :: x in xs ==> CleanSymlink(x)
    ensures Merge(DirectoryStep, Repeated(3, EncodeSymlink, xs), d) == Some(d.(symlinks := d.symlinks + xs))
  {
    var put := (ys: seq<Named<Text>>) => d.(symlinks := ys);
    forall x, ys | x in xs
      ensures DirectoryStep(Len(3, EncodeSymlink(x)), put(ys)) == Some(put(ys + [x]))
    {
      SymlinkRoundTrip(x);
    }
    MergeRepeated(DirectoryStep, 3, EncodeSymlink, put, d.symlinks, xs);
    assert put(d.symlinks) == d;
  }

  /** Two messages as one. */
  function Joined(a: Directory, b: Directory): Directory {
    Directory(a.files + b.files, a.directories + b.directories, a.symlinks + b.symlinks)
  }

  lemma MergeDirectoryFields(before: Directory, d: Directory)
    requires Clean(d)
    ensures Merge(DirectoryStep, DirectoryFields(d), before) == Some(Joined(before, d))
  {
    var links := Repeated(3, EncodeSymlink, d.symlinks);
    var subdirectories := Repeated(2, EncodeSubdirectory, d.directories);
    var files := Repeated(1, EncodeFile, d.files);
    var one := before.(files := before.files + d.files);
    var two := one.(directories := one.directories + d.directories);
    MergeFiles(before, d.files);
    MergeSubdirectories(one, d.directories);
    MergeSymlinks(two, d.symlinks);
    MergeAppend(DirectoryStep, files, Append(subdirectories, links), before);
    MergeAppend(DirectoryStep, subdirectories, links, one);
  }

  lemma JoinedNothing(d: Directory)
    ensures Joined(EMPTY_DIRECTORY, d) == d
  {
  }

  /** Whatever marshals reads back as itself. */
  lemma DirectoryRoundTrip(d: Directory)
    requires Clean(d)
    ensures MarshalDirectory(d) == Some(EncodeDirectory(d))
    ensures UnmarshalDirectory(EncodeDirectory(d)) == Some(d)
  {
    FieldsRoundTrip(DirectoryFields(d));
    MergeDirectoryFields(EMPTY_DIRECTORY, d);
    JoinedNothing(d);
  }

  /** Reading is tolerant as the wire format asks: one message after another reads as both together, and a field
      that the message does not know is skipped. */
  lemma ReadTogether(a: Directory, b: Directory, f: Field)
    requires Clean(a) && Clean(b) && f.num > 3
    ensures UnmarshalDirectory(EncodeDirectory(a) + EncodeField(f) + EncodeDirectory(b)) == Some(Joined(a, b))
  {
    var second := Cons(f, DirectoryFields(b));
    EncodeAppend(DirectoryFields(a), second);
    Regroup(EncodeDirectory(a), EncodeField(f), EncodeDirectory(b));
    FieldsRoundTrip(Append(DirectoryFields(a), second));
    MergeDirectoryFields(EMPTY_DIRECTORY, a);
    JoinedNothing(a);
    MergeAppend(DirectoryStep, DirectoryFields(a), second, EMPTY_DIRECTORY);
    MergeDirectoryFields(a, b);
  }

  lemma EncodeDirectoryInjective(a: Directory, b: Directory)
    requires Clean(a) && Clean(b) && EncodeDirectory(a) == EncodeDirectory(b)
    ensures a == b
  {
    DirectoryRoundTrip(a);
    DirectoryRoundTrip(b);
  }

  /** The empty Directory, and only it, marshals to no bytes at all; stores never keep those. */
  lemma EmptyDirectoryIsNoBytes(d: Directory)
    ensures MarshalDirectory(d) == Some([]) <==> d == EMPTY_DIRECTORY
  {
    assert EncodeDirectory(EMPTY_DIRECTORY) == [];
    if MarshalDirectory(d) == Some([]) {
      EncodeDirectoryInjective(d, EMPTY_DIRECTORY);
    }
  }

  lemma {:induction false} TreeRoundTrip(t: Tree, b: Bytes)
    requires MarshalTree(t) == Some(b)
    ensures b != [] && UnmarshalTree(b) == Some(t)
  {
    FieldsRoundTrip(TreeFields(t));
    DirectoryRoundTrip(t.root);
    var put := (xs: seq<Directory>) => Tree(t.root, xs);
    forall x, ys | x in t.children
      ensures TreeStep(Len(2, EncodeDirectory(x)), put(ys)) == Some(put(ys + [x]))
    {
      DirectoryRoundTrip(x);
    }
    MergeRepeated(TreeStep, 2, EncodeDirectory, put, [], t.children);
    assert [] + t.children == t.children;
  }

  // ---- What unmarshals is valid UTF-8 ----

  lemma {:induction false} MergeKeeps<M(!new)>(step: (Field, M) -> Option<M>, inv: M -> bool, fs: Fields, m: M)
    requires inv(m)
    requires forall f, x :: inv(x) && step(f, x).Some? ==> inv(step(f, x).value)
    ensures Merge(step, fs, m).Some? ==> inv(Merge(step, fs, m).value)
  {
    if fs.Cons? && step(fs.head, m).Some? {
      MergeKeeps(step, inv, fs.tail, step(fs.head, m).value);
    }
  }

  lemma ReadKeeps<M(!new)>(step: (Field, M) -> Option<M>, inv: M -> bool, b: Bytes, m: M)
    requires inv(m)
    requires forall f, x :: inv(x) && step(f, x).Some? ==> inv(step(f, x).value)
    ensures Read(step, b, m).Some? ==> inv(Read(step, b, m).value)
  {
    if DecodeFields(b).Some? {
      MergeKeeps(step, inv, DecodeFields(b).value, m);
    }
  }

  lemma DigestStepClean(p: Bytes, d: Digest)
    requires CleanDigest(d)
    ensures Read(DigestStep, p, d).Some? ==> CleanDigest(Read(DigestStep, p, d).value)
  {
    ReadKeeps(DigestStep, CleanDigest, p, d);
  }

  lemma ReadFileClean(p: Bytes)
    ensures ReadFile(p).Some? ==> CleanFile(ReadFile(p).value)
  {
    forall f, x | CleanFile(x) && FileStep(f, x).Some? ensures CleanFile(FileStep(f, x).value) {
      if f.Len? { DigestStepClean(f.payload, x.value.digest); }
    }
    ReadKeeps(FileStep, CleanFile, p, Named([], FileRef(NIL_DIGEST, false)));
  }

  lemma ReadSubdirectoryClean(p: Bytes)
    ensures ReadSubdirectory(p).Some? ==> CleanSubdirectory(ReadSubdirectory(p).value)
  {
    forall f, x | CleanSubdirectory(x) && SubdirectoryStep(f, x).Some?
      ensures CleanSubdirectory(SubdirectoryStep(f, x).value)
    {
      if f.Len? { DigestStepClean(f.payload, x.value); }
    }
    ReadKeeps(SubdirectoryStep, CleanSubdirectory, p, Named([], NIL_DIGEST));
  }

  lemma ReadSymlinkClean(p: Bytes)
    ensures ReadSymlink(p).Some? ==> CleanSymlink(ReadSymlink(p).value)
  {
    ReadKeeps(SymlinkStep, CleanSymlink, p, Named([], []));
  }

  lemma UnmarshalledIsClean(b: Bytes)
    ensures UnmarshalDirectory(b).Some? ==> Clean(UnmarshalDirectory(b).value)
  {
    forall f, d | Clean(d) && DirectoryStep(f, d).Some? ensures Clean(DirectoryStep(f, d).value) {
      if f.Len? {
        ReadFileClean(f.payload);
        ReadSubdirectoryClean(f.payload);
        ReadSymlinkClean(f.payload);
      }
    }
    ReadKeeps(DirectoryStep, Clean, b, EMPTY_DIRECTORY);
  }
}
