/** File trees, and the Merkle tree of Directory messages that stands for one
    (internal/casfs/casfs.go: what buildDirectory computes and stores). */
module Trees {
  import opened Digests
  import opened Named
  import opened Wire
  import opened Cas

  /** Permission bits. */
  type Mode = bv9

  /** What os.ReadDir, Info, Readlink and ReadFile say of one entry.  The entries of a directory come in
      whatever order they are enumerated. */
  datatype Node = File(content: Bytes, mode: Mode) | Symlink(target: Text) | Dir(entries: seq<Named<Node>>)

  type Entries = seq<Named<Node>>

  function IsExecutable(mode: Mode): bool { mode & 0x49 != 0 }

  /** 0o755 or 0o644. */
  function MaterializedMode(executable: bool): Mode { if executable then 0x1ED else 0x1A4 }

  /** One of the three x bits is set. */
  predicate SomebodyExecutes(mode: Mode) {
    (mode >> 6) & 1 == 1 || (mode >> 3) & 1 == 1 || mode & 1 == 1
  }

  /** All may read, only the owner may write, and all may execute or nobody. */
  predicate Portable(mode: Mode, executable: bool) {
    && (mode >> 8) & 1 == 1 && (mode >> 5) & 1 == 1 && (mode >> 2) & 1 == 1
    && (mode >> 7) & 1 == 1 && (mode >> 4) & 1 == 0 && (mode >> 1) & 1 == 0
    && (if executable then (mode >> 6) & 1 == 1 && (mode >> 3) & 1 == 1 && mode & 1 == 1 else !SomebodyExecutes(mode))
  }

  /** The flag and the modes, bit by bit. */
  lemma FlagBits(mode: Mode, executable: bool)
    ensures IsExecutable(mode) <==> SomebodyExecutes(mode)
    ensures Portable(MaterializedMode(executable), executable)
  {
  }

  const SLASH: Byte := 47
  const DOT: Byte := 46

  predicate LegalName(n: Text) {
    n != [] && n != [DOT] && n != [DOT, DOT] && SLASH !in n
  }

  /** What can exist on disk: unique legal names, and no empty symlink. */
  predicate WellFormed(es: Entries) {
    es == [] || (
      && LegalName(es[0].name)
      && Find(es[1..], es[0].name).None?
      && (match es[0].value
          case File(_, _) => true
          case Symlink(target) => target != []
          case Dir(sub) => WellFormed(sub))
      && WellFormed(es[1..]))
  }

  /** Every name and symlink target is valid UTF-8. */
  predicate Encodable(es: Entries) {
    es == [] || (
      && ValidUtf8(es[0].name)
      && (match es[0].value
          case File(_, _) => true
          case Symlink(target) => ValidUtf8(target)
          case Dir(sub) => Encodable(sub))
      && Encodable(es[1..]))
  }

  // ---- What a tree is: the map from paths to what is there ----

  type Path = seq<Text>

  datatype Stat = StatFile(content: Bytes, mode: Mode) | StatSymlink(target: Text) | StatDir

  function At(es: Entries, p: Path): Option<Stat>
    decreases p
  {
    if p == [] then Some(StatDir)
    else match Find<Node>(es, p[0])
      case None => None
      case Some(File(content, mode)) => if |p| == 1 then Some(StatFile(content, mode)) else None
      case Some(Symlink(target)) => if |p| == 1 then Some(StatSymlink(target)) else None
      case Some(Dir(sub)) => At(sub, p[1..])
  }

  /** Forgets every permission bit but "somebody may execute". */
  function Flagged(s: Option<Stat>): Option<Stat> {
    match s
    case Some(StatFile(content, mode)) => Some(StatFile(content, MaterializedMode(IsExecutable(mode))))
    case _ => s
  }

  /** Equal up to the executable flag: the same thing at every path. */
  ghost predicate SameTree(t: Entries, u: Entries) {
    forall p :: Flagged(At(t, p)) == Flagged(At(u, p))
  }

  /** How many directories lie above the deepest entry, this one not counted. */
  function Height(es: Entries): nat {
    if es == [] then 0
    else
      var rest := Height(es[1..]);
      match es[0].value
      case Dir(sub) => if Height(sub) + 1 > rest then Height(sub) + 1 else rest
      case _ => rest
  }

  lemma {:induction false} ChildHeight(es: Entries, n: Text)
    requires Find(es, n).Some? && Find(es, n).value.Dir?
    ensures Height(Find(es, n).value.entries) < Height(es)
  {
    if es[0].name != n {
      ChildHeight(es[1..], n);
    }
  }

  // ---- The Directory message of a tree ----

  function FilesOf(sha: HashFn, es: Entries): seq<Named<FileRef>> {
    if es == [] then []
    else match es[0].value
      case File(content, mode) =>
        [Named(es[0].name, FileRef(FromBytes(sha, content), IsExecutable(mode)))] + FilesOf(sha, es[1..])
      case _ => FilesOf(sha, es[1..])
  }

  function SymlinksOf(es: Entries): seq<Named<Text>> {
    if es == [] then []
    else match es[0].value
      case Symlink(target) => [Named(es[0].name, target)] + SymlinksOf(es[1..])
      case _ => SymlinksOf(es[1..])
  }

  function SubtreesOf(es: Entries): seq<Named<Entries>> {
    if es == [] then []
    else match es[0].value
      case Dir(sub) => [Named(es[0].name, sub)] + SubtreesOf(es[1..])
      case _ => SubtreesOf(es[1..])
  }

  function DirectoriesOf(sha: HashFn, es: Entries): seq<Named<Digest>>
    decreases es, 0
  {
    if es == [] then []
    else match es[0].value
      case Dir(sub) => [Named(es[0].name, DigestOf(sha, sub))] + DirectoriesOf(sha, es[1..])
      case _ => DirectoriesOf(sha, es[1..])
  }

  function DirOf(sha: HashFn, es: Entries): Directory
    decreases es, 1
  {
    Directory(Sort(FilesOf(sha, es)), Sort(DirectoriesOf(sha, es)), Sort(SymlinksOf(es)))
  }

  function DigestOf(sha: HashFn, es: Entries): Digest
    decreases es, 2
  {
    FromBytes(sha, EncodeDirectory(DirOf(sha, es)))
  }

  /** The Directory blob of a tree. */
  function BytesOf(sha: HashFn, es: Entries): Bytes {
    EncodeDirectory(DirOf(sha, es))
  }

  /** All directories below a tree, parents before children: the flattened slice buildDirectory returns. */
  function Descendants(sha: HashFn, es: Entries): seq<Directory> {
    if es == [] then []
    else
      (match es[0].value
       case Dir(sub) => [DirOf(sha, sub)] + Descendants(sha, sub)
       case _ => []) + Descendants(sha, es[1..])
  }

  /** The Tree blob of an output directory. */
  function TreeBytesOf(sha: HashFn, es: Entries): Bytes {
    EncodeTree(Tree(DirOf(sha, es), Descendants(sha, es)))
  }

  // ---- The blobs of a tree, in the order capture stores them ----

  datatype Step = PutFile(content: Bytes) | PutDirectory(entries: Entries) | PutTree(entries: Entries)

  function StepsOfEntry(e: Named<Node>): seq<Step>
    decreases e, 0
  {
    match e.value
    case File(content, _) => [PutFile(content)]
    case Symlink(_) => []
    case Dir(sub) => Steps(sub)
  }

  function EntrySteps(es: Entries): seq<Step>
    decreases es, 0
  {
    if es == [] then [] else StepsOfEntry(es[0]) + EntrySteps(es[1..])
  }

  function Steps(es: Entries): seq<Step>
    decreases es, 1
  {
    EntrySteps(es) + [PutDirectory(es)]
  }

  function StepBytes(sha: HashFn, s: Step): Bytes {
    match s
    case PutFile(content) => content
    case PutDirectory(es) => BytesOf(sha, es)
    case PutTree(es) => TreeBytesOf(sha, es)
  }

  /** The store after the puts `steps`, each under its own digest. */
  function Replay(sha: HashFn, m: Cas.Blobs, steps: seq<Step>): Cas.Blobs {
    if steps == [] then m
    else PutBlob(sha, Replay(sha, m, steps[..|steps| - 1]), StepBytes(sha, steps[|steps| - 1]))
  }

  /** Every blob of the tree: its files and its Directory messages. */
  function Blobs(sha: HashFn, es: Entries): set<Bytes> {
    set s | s in Steps(es) :: StepBytes(sha, s)
  }

  /** The tree is fully in the store. */
  ghost predicate Complete(sha: HashFn, m: Cas.Blobs, es: Entries) {
    forall b :: b in Blobs(sha, es) ==> Holds(sha, m, b)
  }

  lemma {:induction false} ReplayAppend(sha: HashFn, m: Cas.Blobs, a: seq<Step>, b: seq<Step>)
    ensures Replay(sha, m, a + b) == Replay(sha, Replay(sha, m, a), b)
    decreases |b|
  {
    if b == [] {
      assert a + b == a;
    } else {
      assert (a + b)[..|a + b| - 1] == a + b[..|b| - 1];
      ReplayAppend(sha, m, a, b[..|b| - 1]);
    }
  }

  /** Blobs put under their own digests stay readable, whatever else is put, unless hashes collide. */
  lemma {:induction false} ReplayHolds(sha: HashFn, m: Cas.Blobs, steps: seq<Step>, c: Bytes)
    requires NoCollision(sha, (set s | s in steps :: StepBytes(sha, s)) + {c})
    requires (exists s :: s in steps && StepBytes(sha, s) == c) || Holds(sha, m, c)
    ensures Holds(sha, Replay(sha, m, steps), c)
    decreases |steps|
  {
    if steps != [] {
      var front, last := steps[..|steps| - 1], steps[|steps| - 1];
      assert steps == front + [last];
      var all := (set s | s in steps :: StepBytes(sha, s)) + {c};
      assert StepBytes(sha, last) in all;
      NoCollisionSubset(sha, {StepBytes(sha, last), c}, all);
      NoCollisionSubset(sha, (set s | s in front :: StepBytes(sha, s)) + {c}, all);
      PutKeepsHolding(sha, Replay(sha, m, front), StepBytes(sha, last), c);
      if StepBytes(sha, last) != c {
        ReplayHolds(sha, m, front, c);
      }
    }
  }

  /** The Directory message a digest resolves to: store.Get, then proto.Unmarshal. */
  function FetchDirectory(m: Cas.Blobs, d: Digest): Option<Directory> {
    match Lookup(m, d)
    case None => None
    case Some(data) => UnmarshalDirectory(data)
  }

  // ---- Lookups in the three child lists ----

  lemma {:induction false} WellFormedUnique(es: Entries)
    requires WellFormed(es)
    ensures Unique(es)
  {
    if es != [] {
      WellFormedUnique(es[1..]);
    }
  }

  lemma {:induction false} WellFormedChild(es: Entries, n: Text)
    requires WellFormed(es) && Find(es, n).Some?
    ensures LegalName(n)
    ensures Find(es, n).value.Dir? ==> WellFormed(Find(es, n).value.entries)
    ensures Find(es, n).value.Symlink? ==> Find(es, n).value.target != []
  {
    if es[0].name != n {
      WellFormedChild(es[1..], n);
    }
  }

  lemma {:induction false} EncodableChild(es: Entries, n: Text)
    requires Encodable(es) && Find(es, n).Some?
    ensures ValidUtf8(n)
    ensures Find(es, n).value.Dir? ==> Encodable(Find(es, n).value.entries)
    ensures Find(es, n).value.Symlink? ==> ValidUtf8(Find(es, n).value.target)
  {
    if es[0].name != n {
      EncodableChild(es[1..], n);
    }
  }

  function FileRefOf(sha: HashFn, n: Option<Node>): Option<FileRef> {
    match n
    case Some(File(content, mode)) => Some(FileRef(FromBytes(sha, content), IsExecutable(mode)))
    case _ => None
  }

  function TargetOf(n: Option<Node>): Option<Text> {
    match n
    case Some(Symlink(target)) => Some(target)
    case _ => None
  }

  function SubtreeOf(n: Option<Node>): Option<Entries> {
    match n
    case Some(Dir(sub)) => Some(sub)
    case _ => None
  }

  function SubdigestOf(sha: HashFn, n: Option<Node>): Option<Digest> {
    match n
    case Some(Dir(sub)) => Some(DigestOf(sha, sub))
    case _ => None
  }

  lemma {:induction false} FindInLists(sha: HashFn, es: Entries, n: Text)
    requires Unique(es)
    ensures Find(FilesOf(sha, es), n) == FileRefOf(sha, Find(es, n))
    ensures Find(SymlinksOf(es), n) == TargetOf(Find(es, n))
    ensures Find(SubtreesOf(es), n) == SubtreeOf(Find(es, n))
    ensures Find(DirectoriesOf(sha, es), n) == SubdigestOf(sha, Find(es, n))
  {
    if es != [] {
      FindInLists(sha, es[1..], n);
      var name := es[0].name;
      match es[0].value
      case File(c, m) =>
        assert FilesOf(sha, es)[1..] == FilesOf(sha, es[1..]);
      case Symlink(t) =>
        assert SymlinksOf(es)[1..] == SymlinksOf(es[1..]);
      case Dir(sub) =>
        assert SubtreesOf(es)[1..] == SubtreesOf(es[1..]);
        assert DirectoriesOf(sha, es)[1..] == DirectoriesOf(sha, es[1..]);
    }
  }

  lemma {:induction false} ListsUnique(sha: HashFn, es: Entries)
    requires Unique(es)
    ensures Unique(FilesOf(sha, es)) && Unique(SymlinksOf(es))
    ensures Unique(SubtreesOf(es)) && Unique(DirectoriesOf(sha, es))
  {
    if es != [] {
      ListsUnique(sha, es[1..]);
      FindInLists(sha, es[1..], es[0].name);
      match es[0].value
      case File(c, m) =>
        assert FilesOf(sha, es)[1..] == FilesOf(sha, es[1..]);
      case Symlink(t) =>
        assert SymlinksOf(es)[1..] == SymlinksOf(es[1..]);
      case Dir(sub) =>
        assert SubtreesOf(es)[1..] == SubtreesOf(es[1..]);
        assert DirectoriesOf(sha, es)[1..] == DirectoriesOf(sha, es[1..]);
    }
  }

  /** The message of a tree: three strictly ascending lists, each answering lookups as the listing does. */
  lemma DirOfLookups(sha: HashFn, es: Entries)
    requires WellFormed(es)
    ensures var d := DirOf(sha, es);
      && Ascending(d.files) && Ascending(d.symlinks) && Ascending(d.directories)
      && (forall n :: Find(d.files, n) == FileRefOf(sha, Find(es, n)))
      && (forall n :: Find(d.symlinks, n) == TargetOf(Find(es, n)))
      && (forall n :: Find(d.directories, n) == SubdigestOf(sha, Find(es, n)))
  {
    WellFormedUnique(es);
    ListsUnique(sha, es);
    SortKeepsFind(FilesOf(sha, es));
    SortKeepsFind(SymlinksOf(es));
    SortKeepsFind(DirectoriesOf(sha, es));
    forall n
      ensures Find(FilesOf(sha, es), n) == FileRefOf(sha, Find(es, n))
      ensures Find(SymlinksOf(es), n) == TargetOf(Find(es, n))
      ensures Find(DirectoriesOf(sha, es), n) == SubdigestOf(sha, Find(es, n))
    {
      FindInLists(sha, es, n);
    }
  }

  // ---- When the message marshals ----

  lemma {:induction false} AsciiIsUtf8(s: Text)
    requires forall i :: 0 <= i < |s| ==> s[i] < 0x80
    ensures ValidUtf8(s)
  {
    if s != [] {
      AsciiIsUtf8(s[1..]);
    }
  }

  lemma HashIsUtf8(sha: HashFn, b: Bytes)
    ensures CleanDigest(FromBytes(sha, b))
  {
    AsciiIsUtf8(sha(b));
  }

  lemma EncodableIsClean(sha: HashFn, es: Entries)
    requires WellFormed(es) && Encodable(es)
    ensures Clean(DirOf(sha, es))
  {
    var d := DirOf(sha, es);
    DirOfLookups(sha, es);
    forall i | 0 <= i < |d.files| ensures CleanFile(d.files[i]) {
      AscendingUnique(d.files);
      FindMember(d.files, i);
      EncodableChild(es, d.files[i].name);
      HashIsUtf8(sha, Find(es, d.files[i].name).value.content);
    }
    forall i | 0 <= i < |d.symlinks| ensures CleanSymlink(d.symlinks[i]) {
      AscendingUnique(d.symlinks);
      FindMember(d.symlinks, i);
      EncodableChild(es, d.symlinks[i].name);
    }
    forall i | 0 <= i < |d.directories| ensures CleanSubdirectory(d.directories[i]) {
      AscendingUnique(d.directories);
      FindMember(d.directories, i);
      EncodableChild(es, d.directories[i].name);
      HashIsUtf8(sha, BytesOf(sha, Find(es, d.directories[i].name).value.entries));
    }
  }

  lemma {:induction false} EncodableByChildren(es: Entries)
    requires WellFormed(es)
    requires forall n :: Find(es, n).Some? ==>
      && ValidUtf8(n)
      && (Find(es, n).value.Symlink? ==> ValidUtf8(Find(es, n).value.target))
      && (Find(es, n).value.Dir? ==> Encodable(Find(es, n).value.entries))
    ensures Encodable(es)
  {
    if es != [] {
      assert Find(es, es[0].name) == Some(es[0].value);
      forall n | Find(es[1..], n).Some?
        ensures Find(es, n) == Find(es[1..], n)
      {
      }
      EncodableByChildren(es[1..]);
    }
  }

  /** Marshalling the tree's Directory blobs succeeds exactly when every name and target is valid UTF-8. */
  lemma CleanIffEncodable(sha: HashFn, es: Entries)
    requires WellFormed(es)
    requires forall n :: Find(es, n).Some? && Find(es, n).value.Dir? ==> Encodable(Find(es, n).value.entries)
    ensures Clean(DirOf(sha, es)) <==> Encodable(es)
  {
    if Encodable(es) {
      EncodableIsClean(sha, es);
    }
    if Clean(DirOf(sha, es)) {
      var d := DirOf(sha, es);
      DirOfLookups(sha, es);
      forall n | Find(es, n).Some?
        ensures ValidUtf8(n)
        ensures Find(es, n).value.Symlink? ==> ValidUtf8(Find(es, n).value.target)
      {
        match Find(es, n).value
        case File(_, _) =>
          var i := FindWitness(d.files, n);
          assert CleanFile(d.files[i]);
        case Symlink(_) =>
          var i := FindWitness(d.symlinks, n);
          assert CleanSymlink(d.symlinks[i]);
        case Dir(_) =>
          var i := FindWitness(d.directories, n);
          assert CleanSubdirectory(d.directories[i]);
      }
      EncodableByChildren(es);
    }
  }
}
