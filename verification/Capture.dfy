/** Uploading a file tree (internal/casfs/casfs.go: buildDirectory, CaptureDirectory, CaptureFile). */
module Capture {
  import opened Digests
  import opened Named
  import opened Wire
  import Cas
  import opened Trees

  // ---- The accumulators of the capture loop ----

  datatype Lists = Lists(files: seq<Named<FileRef>>, directories: seq<Named<Digest>>, symlinks: seq<Named<Text>>,
    descendants: seq<Directory>)
  {
    function Plus(other: Lists): Lists {
      Lists(files + other.files, directories + other.directories, symlinks + other.symlinks,
        descendants + other.descendants)
    }
  }

  /** What one entry adds to them. */
  function ReadEntry(sha: HashFn, e: Named<Node>): Lists {
    match e.value
    case File(content, mode) =>
      Lists([Named(e.name, FileRef(FromBytes(sha, content), IsExecutable(mode)))], [], [], [])
    case Symlink(target) => Lists([], [], [Named(e.name, target)], [])
    case Dir(sub) =>
      Lists([], [Named(e.name, DigestOf(sha, sub))], [], [DirOf(sha, sub)] + Descendants(sha, sub))
  }

  function ReadAll(sha: HashFn, es: Entries): Lists {
    if es == [] then Lists([], [], [], []) else ReadEntry(sha, es[0]).Plus(ReadAll(sha, es[1..]))
  }

  function ListsOf(sha: HashFn, es: Entries): Lists {
    Lists(FilesOf(sha, es), DirectoriesOf(sha, es), SymlinksOf(es), Descendants(sha, es))
  }

  lemma {:induction false} EntryThenLists(sha: HashFn, es: Entries)
    requires es != []
    ensures ReadEntry(sha, es[0]).Plus(ListsOf(sha, es[1..])) == ListsOf(sha, es)
  {
    var rest := ListsOf(sha, es[1..]);
    assert [] + rest.files == rest.files && [] + rest.directories == rest.directories;
    assert [] + rest.symlinks == rest.symlinks && [] + rest.descendants == rest.descendants;
    match es[0].value
    case File(_, _) =>
    case Symlink(_) =>
    case Dir(_) =>
  }

  lemma {:induction false} ReadAllLists(sha: HashFn, es: Entries)
    ensures ReadAll(sha, es) == ListsOf(sha, es)
  {
    if es != [] {
      ReadAllLists(sha, es[1..]);
      EntryThenLists(sha, es);
    }
  }

  lemma PlusAssociative(a: Lists, b: Lists, c: Lists)
    ensures a.Plus(b.Plus(c)) == a.Plus(b).Plus(c)
  {
    assert a.files + (b.files + c.files) == a.files + b.files + c.files;
    assert a.directories + (b.directories + c.directories) == a.directories + b.directories + c.directories;
    assert a.symlinks + (b.symlinks + c.symlinks) == a.symlinks + b.symlinks + c.symlinks;
    assert a.descendants + (b.descendants + c.descendants) == a.descendants + b.descendants + c.descendants;
  }

  lemma {:induction false} ReadNext(sha: HashFn, lists: Lists, es: Entries, i: nat)
    requires i < |es|
    ensures lists.Plus(ReadAll(sha, es[i..])) == lists.Plus(ReadEntry(sha, es[i])).Plus(ReadAll(sha, es[i + 1..]))
  {
    assert es[i..][0] == es[i] && es[i..][1..] == es[i + 1..];
    PlusAssociative(lists, ReadEntry(sha, es[i]), ReadAll(sha, es[i + 1..]));
  }

  lemma StepsNext(done: seq<Step>, es: Entries, i: nat)
    requires i < |es| && done + EntrySteps(es[i..]) == EntrySteps(es)
    ensures (done + StepsOfEntry(es[i])) + EntrySteps(es[i + 1..]) == EntrySteps(es)
  {
    var rest := es[i..];
    assert rest[0] == es[i] && rest[1..] == es[i + 1..];
    assert EntrySteps(rest) == StepsOfEntry(rest[0]) + EntrySteps(rest[1..]);
    assert done + (StepsOfEntry(es[i]) + EntrySteps(es[i + 1..])) ==
      done + StepsOfEntry(es[i]) + EntrySteps(es[i + 1..]);
  }

  lemma PrefixWithin<T>(done: seq<T>, part: seq<T>, next: seq<T>, rest: seq<T>, all: seq<T>)
    requires part <= next && (done + next) + rest == all
    ensures done + part <= all
  {
  }

  /** The subdirectories among the first n entries have marshalled. */
  ghost predicate SubtreesEncodable(es: Entries, n: nat)
    requires n <= |es|
  {
    forall j :: 0 <= j < n && es[j].value.Dir? ==> Encodable(es[j].value.entries)
  }

  lemma {:induction false} SubtreeMember(es: Entries, i: nat)
    requires WellFormed(es) && i < |es| && es[i].value.Dir?
    ensures WellFormed(es[i].value.entries)
    ensures Encodable(es) ==> Encodable(es[i].value.entries)
  {
    WellFormedUnique(es);
    FindMember(es, i);
    WellFormedChild(es, es[i].name);
    if Encodable(es) {
      EncodableChild(es, es[i].name);
    }
  }

  lemma {:induction false} MarshalOutcome(sha: HashFn, es: Entries)
    requires WellFormed(es) && SubtreesEncodable(es, |es|)
    ensures MarshalDirectory(DirOf(sha, es)) == if Encodable(es) then Some(BytesOf(sha, es)) else None
  {
    forall n | Find(es, n).Some? && Find(es, n).value.Dir?
      ensures Encodable(Find(es, n).value.entries)
    {
      var i := FindWitness(es, n);
    }
    CleanIffEncodable(sha, es);
  }

  // ---- Capture ----

  datatype Built = Built(dir: Directory, digest: Digest, descendants: seq<Directory>)

  /** Digest the bytes and put them. */
  method Upload(sha: HashFn, store: Cas.Store, ghost before: Cas.Blobs, ghost done: seq<Step>, ghost step: Step,
      data: Bytes)
    returns (d: Option<Digest>)
    requires data == StepBytes(sha, step) && store.blobs == Replay(sha, before, done)
    modifies store`blobs
    ensures d.Some? ==> d.value == FromBytes(sha, data) && store.blobs == Replay(sha, before, done + [step])
    ensures d.None? ==> !store.reliable && store.blobs == old(store.blobs)
  {
    var digest := FromBytes(sha, data);
    var ok := store.Put(digest, data);
    assert (done + [step])[..|done|] == done;
    d := if ok then Some(digest) else None;
  }

  /** The switch of buildDirectory: one entry is read, and its blobs are put. */
  method CaptureEntry(sha: HashFn, store: Cas.Store, e: Named<Node>) returns (r: Option<Lists>, ghost done: seq<Step>)
    requires e.value.Dir? ==> WellFormed(e.value.entries)
    modifies store`blobs
    ensures r.Some? ==> r.value == ReadEntry(sha, e) && done == StepsOfEntry(e)
    ensures r.Some? && e.value.Dir? ==> Encodable(e.value.entries)
    ensures r.None? && store.reliable ==> e.value.Dir? && !Encodable(e.value.entries)
    ensures done <= StepsOfEntry(e)
    ensures store.blobs == Replay(sha, old(store.blobs), done)
    decreases e, 0
  {
    done := [];
    match e.value {
      case Symlink(target) =>
        r := Some(Lists([], [], [Named(e.name, target)], []));
      case Dir(sub) =>
        var child;
        child, done := BuildDirectory(sha, store, sub);
        if child.None? {
          return None, done;
        }
        var below := [child.value.dir] + child.value.descendants;
        r := Some(Lists([], [Named(e.name, child.value.digest)], [], below));
      case File(content, mode) =>
        var d := Upload(sha, store, old(store.blobs), done, PutFile(content), content);
        if d.None? {
          return None, done;
        }
        done := [PutFile(content)];
        r := Some(Lists([Named(e.name, FileRef(d.value, IsExecutable(mode)))], [], [], []));
    }
  }

  /** The loop of buildDirectory over the entries of one directory. */
  method CaptureEntries(sha: HashFn, store: Cas.Store, es: Entries) returns (r: Option<Lists>, ghost done: seq<Step>)
    requires WellFormed(es)
    modifies store`blobs
    ensures r.Some? ==> r.value == ReadAll(sha, es) && done == EntrySteps(es) && SubtreesEncodable(es, |es|)
    ensures r.None? && store.reliable ==> !Encodable(es)
    ensures done <= EntrySteps(es)
    ensures store.blobs == Replay(sha, old(store.blobs), done)
    decreases es, 0
  {
    var lists := Lists([], [], [], []);
    done := [];
    assert es[0..] == es;
    for i := 0 to |es|
      invariant lists.Plus(ReadAll(sha, es[i..])) == ReadAll(sha, es)
      invariant done + EntrySteps(es[i..]) == EntrySteps(es)
      invariant store.blobs == Replay(sha, old(store.blobs), done)
      invariant SubtreesEncodable(es, i)
    {
      ReadNext(sha, lists, es, i);
      StepsNext(done, es, i);
      if es[i].value.Dir? { SubtreeMember(es, i); }
      var read, part := CaptureEntry(sha, store, es[i]);
      ReplayAppend(sha, old(store.blobs), done, part);
      if read.None? {
        PrefixWithin(done, part, StepsOfEntry(es[i]), EntrySteps(es[i + 1..]), EntrySteps(es));
        return None, done + part;
      }
      done := done + part;
      lists := lists.Plus(read.value);
    }
    assert es[|es|..] == [];
    assert lists.Plus(ReadAll(sha, [])) == lists;
    assert done + EntrySteps([]) == done;
    r := Some(lists);
  }

  /** What the message says of a name is what is on disk: a file with its digest, executable if one of the x bits
      is set, a symlink with its target, a directory with its digest, or nothing. */
  predicate ListedAs(sha: HashFn, es: Entries, dir: Directory, n: Text) {
    match Find<Node>(es, n)
    case None => Find(dir.files, n).None? && Find(dir.symlinks, n).None? && Find(dir.directories, n).None?
    case Some(File(content, mode)) =>
      && Find(dir.files, n) == Some(FileRef(FromBytes(sha, content), SomebodyExecutes(mode)))
      && Find(dir.symlinks, n).None? && Find(dir.directories, n).None?
    case Some(Symlink(target)) =>
      Find(dir.symlinks, n) == Some(target) && Find(dir.files, n).None? && Find(dir.directories, n).None?
    case Some(Dir(sub)) =>
      Find(dir.directories, n) == Some(DigestOf(sha, sub)) && Find(dir.files, n).None? && Find(dir.symlinks, n).None?
  }

  lemma ListedByName(sha: HashFn, es: Entries)
    requires WellFormed(es)
    ensures forall n :: ListedAs(sha, es, DirOf(sha, es), n)
  {
    DirOfLookups(sha, es);
    forall n ensures ListedAs(sha, es, DirOf(sha, es), n) {
      if Find(es, n).Some? && Find(es, n).value.File? {
        FlagBits(Find(es, n).value.mode, false);
      }
    }
  }

  /** buildDirectory.  `done` records the puts that went through: all of the tree's when it succeeds,
      a prefix of them when a put or a marshal fails. */
  method BuildDirectory(sha: HashFn, store: Cas.Store, es: Entries) returns (r: Option<Built>, ghost done: seq<Step>)
    requires WellFormed(es)
    modifies store`blobs
    ensures r.Some? ==> Encodable(es) && done == Steps(es)
    ensures r.Some? ==> r.value == Built(DirOf(sha, es), DigestOf(sha, es), Descendants(sha, es))
    ensures r.Some? ==> forall n :: ListedAs(sha, es, r.value.dir, n)
    ensures r.None? && store.reliable ==> !Encodable(es)
    ensures done <= Steps(es)
    ensures store.blobs == Replay(sha, old(store.blobs), done)
    decreases es, 1
  {
    var entries;
    entries, done := CaptureEntries(sha, store, es);
    if entries.None? {
      return None, done;
    }
    ReadAllLists(sha, es);
    MarshalOutcome(sha, es);
    var lists := entries.value;
    var dir := Directory(Sort(lists.files), Sort(lists.directories), Sort(lists.symlinks));
    var bytes := MarshalDirectory(dir);
    if bytes.None? {
      return None, done;
    }
    var digest := Upload(sha, store, old(store.blobs), done, PutDirectory(es), bytes.value);
    if digest.None? {
      return None, done;
    }
    done := done + [PutDirectory(es)];
    r := Some(Built(dir, digest.value, lists.descendants));
    ListedByName(sha, es);
  }

  lemma {:induction false} DescendantsClean(sha: HashFn, es: Entries)
    requires WellFormed(es) && Encodable(es)
    ensures forall d :: d in Descendants(sha, es) ==> Clean(d)
  {
    if es != [] {
      DescendantsClean(sha, es[1..]);
      if es[0].value.Dir? {
        DescendantsClean(sha, es[0].value.entries);
        EncodableIsClean(sha, es[0].value.entries);
      }
    }
  }

  function CaptureSteps(es: Entries): seq<Step> {
    Steps(es) + [PutTree(es)]
  }

  lemma StepsWithinCapture(es: Entries, done: seq<Step>)
    requires done <= Steps(es)
    ensures done <= CaptureSteps(es)
  {
  }

  /** The Tree blob of a tree that has been built. */
  method UploadTree(sha: HashFn, store: Cas.Store, built: Built, ghost es: Entries, ghost before: Cas.Blobs)
    returns (d: Option<Digest>)
    requires WellFormed(es) && Encodable(es)
    requires built == Built(DirOf(sha, es), DigestOf(sha, es), Descendants(sha, es))
    requires store.blobs == Replay(sha, before, Steps(es))
    modifies store`blobs
    ensures d.Some? ==>
      d.value == FromBytes(sha, TreeBytesOf(sha, es)) && store.blobs == Replay(sha, before, CaptureSteps(es))
    ensures d.None? ==> !store.reliable && store.blobs == old(store.blobs)
  {
    EncodableIsClean(sha, es);
    DescendantsClean(sha, es);
    var treeBytes := MarshalTree(Tree(built.dir, built.descendants));
    d := Upload(sha, store, before, Steps(es), PutTree(es), treeBytes.value);
  }

  /** CaptureDirectory: the tree, and one Tree blob holding all its Directory messages. */
  method CaptureDirectory(sha: HashFn, store: Cas.Store, outputPath: Text, es: Entries)
    returns (r: Option<Cas.OutputDirectory>, ghost done: seq<Step>)
    requires WellFormed(es)
    modifies store`blobs
    ensures r.Some? ==> Encodable(es) && done == CaptureSteps(es)
    ensures r.Some? ==>
      r.value == Cas.OutputDirectory(outputPath, FromBytes(sha, TreeBytesOf(sha, es)), DigestOf(sha, es))
    ensures r.None? && store.reliable ==> !Encodable(es)
    ensures done <= CaptureSteps(es)
    ensures store.blobs == Replay(sha, old(store.blobs), done)
  {
    var built;
    built, done := BuildDirectory(sha, store, es);
    StepsWithinCapture(es, done);
    if built.None? {
      return None, done;
    }
    var treeDigest := UploadTree(sha, store, built.value, es, old(store.blobs));
    if treeDigest.None? {
      return None, done;
    }
    done := CaptureSteps(es);
    r := Some(Cas.OutputDirectory(outputPath, treeDigest.value, built.value.digest));
  }

  /** CaptureFile. */
  method CaptureFile(sha: HashFn, store: Cas.Store, outputPath: Text, content: Bytes, executable: bool)
    returns (r: Option<Cas.OutputFile>)
    modifies store`blobs
    ensures r.Some? ==> r.value == Cas.OutputFile(outputPath, FromBytes(sha, content), executable)
    ensures r.Some? ==> store.blobs == Replay(sha, old(store.blobs), [PutFile(content)])
    ensures r.None? ==> !store.reliable && store.blobs == old(store.blobs)
  {
    var d := Upload(sha, store, old(store.blobs), [], PutFile(content), content);
    if d.None? {
      return None;
    }
    r := Some(Cas.OutputFile(outputPath, d.value, executable));
  }

  // ---- Referential completeness, put by put ----

  /** A Directory is put right after everything below it: the puts of its own tree end with its own. */
  ghost predicate EndsWith(steps: seq<Step>, i: nat, own: seq<Step>)
    requires i < |steps|
  {
    |own| <= i + 1 && steps[i + 1 - |own|..i + 1] == own
  }

  lemma {:induction false} DirectoryLast(es: Entries, i: nat)
    requires i < |Steps(es)| && Steps(es)[i].PutDirectory?
    ensures EndsWith(Steps(es), i, Steps(Steps(es)[i].entries))
    decreases es, 1
  {
    var entrySteps := EntrySteps(es);
    if i < |entrySteps| {
      DirectoryLastInEntries(es, i);
    } else {
      assert Steps(es)[0..i + 1] == Steps(es);
    }
  }

  lemma {:induction false} DirectoryLastInEntries(es: Entries, i: nat)
    requires i < |EntrySteps(es)| && EntrySteps(es)[i].PutDirectory?
    ensures EndsWith(EntrySteps(es), i, Steps(EntrySteps(es)[i].entries))
    decreases es, 0
  {
    var first, rest := StepsOfEntry(es[0]), EntrySteps(es[1..]);
    if i < |first| {
      DirectoryLast(es[0].value.entries, i);
      Shift(first, i, Steps(first[i].entries), [], rest);
      assert [] + first + rest == EntrySteps(es);
    } else {
      var j := i - |first|;
      DirectoryLastInEntries(es[1..], j);
      Shift(rest, j, Steps(rest[j].entries), first, []);
      assert first + rest + [] == EntrySteps(es);
    }
  }

  lemma Shift(steps: seq<Step>, i: nat, own: seq<Step>, before: seq<Step>, after: seq<Step>)
    requires i < |steps| && EndsWith(steps, i, own)
    ensures EndsWith(before + steps + after, |before| + i, own)
  {
    var all, k := before + steps + after, |before| + i;
    assert all[k + 1 - |own|..k + 1] == steps[i + 1 - |own|..i + 1];
  }

  /** Every Directory of the plan comes right after everything below it. */
  ghost predicate BottomUp(plan: seq<Step>) {
    forall i :: 0 <= i < |plan| && plan[i].PutDirectory? ==> EndsWith(plan, i, Steps(plan[i].entries))
  }

  lemma BottomUpConcat(a: seq<Step>, b: seq<Step>)
    requires BottomUp(a) && BottomUp(b)
    ensures BottomUp(a + b)
  {
    forall i | 0 <= i < |a + b| && (a + b)[i].PutDirectory?
      ensures EndsWith(a + b, i, Steps((a + b)[i].entries))
    {
      if i < |a| {
        Shift(a, i, Steps(a[i].entries), [], b);
        assert [] + a + b == a + b;
      } else {
        Shift(b, i - |a|, Steps(b[i - |a|].entries), a, []);
        assert a + b + [] == a + b;
      }
    }
  }

  lemma CaptureBottomUp(es: Entries)
    ensures BottomUp(CaptureSteps(es))
  {
    forall i | 0 <= i < |Steps(es)| && Steps(es)[i].PutDirectory?
      ensures EndsWith(Steps(es), i, Steps(Steps(es)[i].entries))
    {
      DirectoryLast(es, i);
    }
    BottomUpConcat(Steps(es), [PutTree(es)]);
  }

  lemma OwnStepsDone(plan: seq<Step>, done: seq<Step>, i: nat)
    requires BottomUp(plan) && done <= plan && i < |done| && done[i].PutDirectory?
    ensures forall s :: s in Steps(done[i].entries) ==> s in done
  {
    var own := Steps(done[i].entries);
    assert done[i] == plan[i];
    assert EndsWith(plan, i, own);
    var from := i + 1 - |own|;
    assert done[from..i + 1] == plan[from..i + 1] == own;
    forall s | s in own ensures s in done {
      var k :| 0 <= k < |own| && own[k] == s;
      assert done[from..i + 1][k] == done[from + k];
    }
  }

  /** The blobs that a run of puts stores. */
  function BlobsOf(sha: HashFn, plan: seq<Step>): set<Bytes> {
    set s | s in plan :: StepBytes(sha, s)
  }

  lemma DoneHolds(sha: HashFn, m: Cas.Blobs, plan: seq<Step>, done: seq<Step>, s: Step)
    requires NoCollision(sha, BlobsOf(sha, plan)) && done <= plan && s in done
    ensures Cas.Holds(sha, Replay(sha, m, done), StepBytes(sha, s))
  {
    var own := (set t | t in done :: StepBytes(sha, t)) + {StepBytes(sha, s)};
    forall t | t in done ensures StepBytes(sha, t) in BlobsOf(sha, plan) {
      assert t in plan;
    }
    NoCollisionSubset(sha, own, BlobsOf(sha, plan));
    ReplayHolds(sha, m, done, StepBytes(sha, s));
  }

  /** After every put of a capture, whether or not it goes on to succeed, every Directory put so far resolves
      together with every file and directory below it. */
  lemma {:induction false} EveryPrefixComplete(sha: HashFn, m: Cas.Blobs, plan: seq<Step>, done: seq<Step>, i: nat)
    requires BottomUp(plan) && NoCollision(sha, BlobsOf(sha, plan))
    requires done <= plan && i < |done| && done[i].PutDirectory?
    ensures Complete(sha, Replay(sha, m, done), done[i].entries)
  {
    OwnStepsDone(plan, done, i);
    forall s | s in Steps(done[i].entries)
      ensures Cas.Holds(sha, Replay(sha, m, done), StepBytes(sha, s))
    {
      DoneHolds(sha, m, plan, done, s);
    }
  }

  // ---- The order of the Tree ----

  ghost predicate Listed(sha: HashFn, parent: Directory, child: Directory) {
    exists n :: Find(parent.directories, n) == Some(FromBytes(sha, EncodeDirectory(child)))
  }

  ghost predicate ListedBefore(sha: HashFn, children: seq<Directory>, i: nat)
    requires i < |children|
  {
    exists j :: 0 <= j < i && Listed(sha, children[j], children[i])
  }

  ghost predicate HasParent(sha: HashFn, root: Directory, children: seq<Directory>, i: nat)
    requires i < |children|
  {
    Listed(sha, root, children[i]) || ListedBefore(sha, children, i)
  }

  /** Each child is listed by the root or by a child before it. */
  ghost predicate ParentsFirst(sha: HashFn, root: Directory, children: seq<Directory>) {
    forall i :: 0 <= i < |children| ==> HasParent(sha, root, children, i) == true
  }

  lemma ListedBeforeWithin(sha: HashFn, part: seq<Directory>, i: nat, all: seq<Directory>, from: nat)
    requires i < |part| && from + |part| <= |all| && ListedBefore(sha, part, i)
    requires forall k :: 0 <= k < |part| ==> all[from + k] == part[k]
    ensures ListedBefore(sha, all, from + i)
  {
    var j :| 0 <= j < i && Listed(sha, part[j], part[i]);
    assert Listed(sha, all[from + j], all[from + i]);
  }

  lemma ParentsFirstWithin(sha: HashFn, root: Directory, part: seq<Directory>, all: seq<Directory>, from: nat, i: nat)
    requires ParentsFirst(sha, root, part) && i < |part| && from + |part| <= |all|
    requires forall k :: 0 <= k < |part| ==> all[from + k] == part[k]
    ensures HasParent(sha, root, all, from + i) == true
  {
    assert HasParent(sha, root, part, i);
    if !Listed(sha, root, part[i]) {
      ListedBeforeWithin(sha, part, i, all, from);
    }
  }

  lemma ParentsFirstConcat(sha: HashFn, root: Directory, a: seq<Directory>, b: seq<Directory>, all: seq<Directory>)
    requires ParentsFirst(sha, root, a) && ParentsFirst(sha, root, b) && all == a + b
    ensures ParentsFirst(sha, root, all)
  {
    forall i | 0 <= i < |all| ensures HasParent(sha, root, all, i) == true {
      if i < |a| {
        ParentsFirstWithin(sha, root, a, all, 0, i);
      } else {
        ParentsFirstWithin(sha, root, b, all, |a|, i - |a|);
      }
    }
  }

  lemma ParentsFirstBelow(sha: HashFn, root: Directory, child: Directory, below: seq<Directory>, all: seq<Directory>)
    requires Listed(sha, root, child) && ParentsFirst(sha, child, below) && all == [child] + below
    ensures ParentsFirst(sha, root, all)
  {
    forall i | 0 <= i < |all| ensures HasParent(sha, root, all, i) {
      if i > 0 {
        ParentsFirstWithin(sha, child, below, all, 1, i - 1);
        if Listed(sha, child, all[i]) {
          assert Listed(sha, all[0], all[i]);
        }
      }
    }
  }

  lemma {:induction false} DescendantsUnder(sha: HashFn, root: Directory, es: Entries)
    requires WellFormed(es)
    requires forall i :: 0 <= i < |es| && es[i].value.Dir? ==>
      Listed(sha, root, DirOf(sha, es[i].value.entries))
    ensures ParentsFirst(sha, root, Descendants(sha, es))
    decreases es, 0
  {
    if es != [] {
      var rest := es[1..];
      forall i | 0 <= i < |rest| && rest[i].value.Dir?
        ensures Listed(sha, root, DirOf(sha, rest[i].value.entries))
      {
        assert es[i + 1] == rest[i];
      }
      DescendantsUnder(sha, root, rest);
      match es[0].value
      case Dir(sub) =>
        TreeParentsFirst(sha, sub);
        var own := [DirOf(sha, sub)] + Descendants(sha, sub);
        ParentsFirstBelow(sha, root, DirOf(sha, sub), Descendants(sha, sub), own);
        ParentsFirstConcat(sha, root, own, Descendants(sha, rest), Descendants(sha, es));
      case _ =>
        assert [] + Descendants(sha, rest) == Descendants(sha, rest);
    }
  }

  /** In the Tree every directory comes after one that lists it. */
  lemma {:induction false} TreeParentsFirst(sha: HashFn, es: Entries)
    requires WellFormed(es)
    ensures ParentsFirst(sha, DirOf(sha, es), Descendants(sha, es))
    decreases es, 1
  {
    DirOfLookups(sha, es);
    WellFormedUnique(es);
    forall i | 0 <= i < |es| && es[i].value.Dir?
      ensures Listed(sha, DirOf(sha, es), DirOf(sha, es[i].value.entries))
    {
      FindMember(es, i);
    }
    DescendantsUnder(sha, DirOf(sha, es), es);
  }

  // ---- A capture among other writers ----

  /** The stores that a capture meets if others put blobs under their own hashes between any two of its puts:
      ms[i] is the one it makes its put number i to. */
  ghost predicate AmongOthers(sha: HashFn, ms: seq<Cas.Blobs>, done: seq<Step>) {
    |ms| == |done| + 1 && forall i :: 0 <= i < |done| ==> PutNumber(sha, ms, done, i)
  }

  ghost predicate NextPut(sha: HashFn, m: Cas.Blobs, step: Step, later: Cas.Blobs) {
    Cas.Gained(sha, Cas.PutBlob(sha, m, StepBytes(sha, step)), later)
  }

  ghost predicate PutNumber(sha: HashFn, ms: seq<Cas.Blobs>, done: seq<Step>, i: nat)
    requires i < |done| && |ms| == |done| + 1
  {
    NextPut(sha, ms[i], done[i], ms[i + 1])
  }

  /** These blobs include all that are put, and all that are in a store after a put. */
  predicate Covers(sha: HashFn, all: set<Bytes>, ms: seq<Cas.Blobs>, done: seq<Step>)
    requires |ms| == |done| + 1
  {
    forall i :: 0 <= i < |done| ==> StepBytes(sha, done[i]) in all && ms[i + 1].Values <= all
  }

  lemma NextPutHolds(sha: HashFn, m: Cas.Blobs, step: Step, later: Cas.Blobs, all: set<Bytes>, b: Bytes)
    requires NextPut(sha, m, step, later) && NoCollision(sha, all) && later.Values <= all
    requires StepBytes(sha, step) in all && b in all
    requires b == StepBytes(sha, step) || Cas.Holds(sha, m, b)
    ensures Cas.Holds(sha, later, b)
  {
    var put := StepBytes(sha, step);
    NoCollisionSubset(sha, {put, b}, all);
    Cas.PutKeepsHolding(sha, m, put, b);
    NoCollisionSubset(sha, later.Values + {b}, all);
    Cas.HoldsLater(sha, Cas.PutBlob(sha, m, put), later, b);
  }

  lemma {:induction false} PutAmongOthers(sha: HashFn, ms: seq<Cas.Blobs>, done: seq<Step>, i: nat, k: nat,
      all: set<Bytes>)
    requires AmongOthers(sha, ms, done) && NoCollision(sha, all) && Covers(sha, all, ms, done) && i < k <= |done|
    ensures Cas.Holds(sha, ms[k], StepBytes(sha, done[i]))
    decreases k
  {
    if i < k - 1 {
      PutAmongOthers(sha, ms, done, i, k - 1, all);
    }
    assert PutNumber(sha, ms, done, k - 1);
    NextPutHolds(sha, ms[k - 1], done[k - 1], ms[k], all, StepBytes(sha, done[i]));
  }

  /** What EveryPrefixComplete says holds among other writers, too. */
  lemma {:induction false} CompleteAmongOthers(sha: HashFn, ms: seq<Cas.Blobs>, plan: seq<Step>, done: seq<Step>,
      i: nat, all: set<Bytes>)
    requires BottomUp(plan) && AmongOthers(sha, ms, done) && NoCollision(sha, all) && Covers(sha, all, ms, done)
    requires done <= plan && i < |done| && done[i].PutDirectory?
    ensures Complete(sha, ms[|done|], done[i].entries)
  {
    OwnStepsDone(plan, done, i);
    forall s | s in Steps(done[i].entries) ensures Cas.Holds(sha, ms[|done|], StepBytes(sha, s)) {
      var j :| 0 <= j < |done| && done[j] == s;
      PutAmongOthers(sha, ms, done, j, |done|, all);
    }
  }

  // ---- A finished capture ----

  /** The blobs of an output directory: those of its tree, and its Tree blob. */
  function OutputBlobs(sha: HashFn, es: Entries): set<Bytes> {
    Blobs(sha, es) + {TreeBytesOf(sha, es)}
  }

  lemma CaptureBlobs(sha: HashFn, es: Entries)
    ensures BlobsOf(sha, CaptureSteps(es)) == OutputBlobs(sha, es)
  {
    forall b | b in OutputBlobs(sha, es) ensures b in BlobsOf(sha, CaptureSteps(es)) {
      if b == TreeBytesOf(sha, es) {
        assert PutTree(es) in CaptureSteps(es) && StepBytes(sha, PutTree(es)) == b;
      } else {
        var s :| s in Steps(es) && StepBytes(sha, s) == b;
        assert s in CaptureSteps(es);
      }
    }
  }

  /** A successful capture leaves the whole tree, and its Tree blob, in the store. */
  lemma {:induction false} CapturedComplete(sha: HashFn, m: Cas.Blobs, es: Entries)
    requires NoCollision(sha, OutputBlobs(sha, es))
    ensures Complete(sha, Replay(sha, m, CaptureSteps(es)), es)
    ensures Cas.Holds(sha, Replay(sha, m, CaptureSteps(es)), TreeBytesOf(sha, es))
  {
    var plan, i := CaptureSteps(es), |Steps(es)| - 1;
    CaptureBottomUp(es);
    CaptureBlobs(sha, es);
    assert plan[i] == PutDirectory(es) && plan[i + 1] == PutTree(es);
    EveryPrefixComplete(sha, m, plan, plan, i);
    DoneHolds(sha, m, plan, plan, PutTree(es));
  }
}
