/** Capture and Materialize undo each other. */
module RoundTrip {
  import opened Digests
  import opened Named
  import opened Wire
  import Cas
  import opened Trees
  import opened Merkle
  import opened Capture
  import opened Materialize

  // ---- When the loops of Materialize succeed ----

  ghost predicate FileReady(m: Cas.Blobs, fs: seq<Named<FileRef>>, n: Text) {
    Find(fs, n).Some? ==> LegalName(n) && Cas.Lookup(m, Find(fs, n).value.digest).Some?
  }

  ghost predicate FileFits(fs: seq<Named<FileRef>>, n: Text, dir: Path, max: nat) {
    Find(fs, n).Some? ==> Creatable(max, dir + [n])
  }

  lemma {:induction false} LoadFilesOutcome(m: Cas.Blobs, fs: seq<Named<FileRef>>, dir: Path, max: nat)
    requires Unique(fs)
    ensures LoadFiles(m, fs, dir, max).Ok? <==> forall n :: FileReady(m, fs, n) && FileFits(fs, n, dir, max)
    ensures LoadFiles(m, fs, dir, max).Err? && (forall n :: FileReady(m, fs, n)) ==>
      LoadFiles(m, fs, dir, max).error.Refused?
  {
    if fs != [] {
      var head := fs[0].name;
      forall n
        ensures FileReady(m, fs, n) <==>
          if n == head then LegalName(n) && Cas.Lookup(m, fs[0].value.digest).Some? else FileReady(m, fs[1..], n)
        ensures FileFits(fs, n, dir, max) <==>
          if n == head then Creatable(max, dir + [n]) else FileFits(fs[1..], n, dir, max)
        ensures n == head ==> FileReady(m, fs[1..], n) && FileFits(fs[1..], n, dir, max)
      {
      }
      LoadFilesOutcome(m, fs[1..], dir, max);
    }
  }

  ghost predicate SymlinkFits(ls: seq<Named<Text>>, n: Text, dir: Path, max: nat) {
    Find(ls, n).Some? ==> Linkable(Find(ls, n).value) && Creatable(max, dir + [n])
  }

  ghost predicate LegalIn<T>(list: seq<Named<T>>, n: Text) {
    Find(list, n).Some? ==> LegalName(n)
  }

  lemma {:induction false} LoadSymlinksOutcome(ls: seq<Named<Text>>, dir: Path, max: nat)
    requires Unique(ls)
    ensures LoadSymlinks(ls, dir, max).Ok? <==> forall n :: LegalIn(ls, n) && SymlinkFits(ls, n, dir, max)
    ensures LoadSymlinks(ls, dir, max).Err? && (forall n :: LegalIn(ls, n)) ==>
      LoadSymlinks(ls, dir, max).error.Refused?
  {
    if ls != [] {
      var head := ls[0].name;
      forall n
        ensures LegalIn(ls, n) <==> if n == head then LegalName(n) else LegalIn(ls[1..], n)
        ensures SymlinkFits(ls, n, dir, max) <==>
          if n == head then Linkable(ls[0].value) && Creatable(max, dir + [n]) else SymlinkFits(ls[1..], n, dir, max)
        ensures n == head ==> LegalIn(ls[1..], n) && SymlinkFits(ls[1..], n, dir, max)
      {
      }
      LoadSymlinksOutcome(ls[1..], dir, max);
    }
  }

  /** A listed Directory loads, unless the system refuses something. */
  ghost predicate DirectoryReady(m: Cas.Blobs, ds: seq<Named<Digest>>, n: Text, dir: Path, max: nat) {
    Find(ds, n).Some? ==>
      && LegalName(n)
      && (Load(m, Find(ds, n).value, dir + [n], max).Err? ==> Load(m, Find(ds, n).value, dir + [n], max).error.Refused?)
  }

  ghost predicate DirectoryFits(m: Cas.Blobs, ds: seq<Named<Digest>>, n: Text, dir: Path, max: nat) {
    Find(ds, n).Some? ==> Creatable(max, dir + [n]) && Load(m, Find(ds, n).value, dir + [n], max).Ok?
  }

  lemma {:induction false} LoadDirectoriesOutcome(m: Cas.Blobs, ds: seq<Named<Digest>>, dir: Path, max: nat)
    requires Unique(ds)
    ensures LoadDirectories(m, ds, dir, max).Ok? <==>
      forall n :: LegalIn(ds, n) && DirectoryFits(m, ds, n, dir, max)
    ensures LoadDirectories(m, ds, dir, max).Err? && (forall n :: DirectoryReady(m, ds, n, dir, max)) ==>
      LoadDirectories(m, ds, dir, max).error.Refused?
  {
    if ds != [] {
      var head := ds[0].name;
      forall n
        ensures LegalIn(ds, n) <==> if n == head then LegalName(n) else LegalIn(ds[1..], n)
        ensures n != head ==> (DirectoryReady(m, ds, n, dir, max) <==> DirectoryReady(m, ds[1..], n, dir, max))
        ensures n != head ==> (DirectoryFits(m, ds, n, dir, max) <==> DirectoryFits(m, ds[1..], n, dir, max))
        ensures n == head ==> LegalIn(ds[1..], n) && DirectoryReady(m, ds[1..], n, dir, max)
        ensures n == head ==> DirectoryFits(m, ds[1..], n, dir, max)
      {
      }
      LoadDirectoriesOutcome(m, ds[1..], dir, max);
      assert LegalIn(ds, head) && DirectoryFits(m, ds, head, dir, max) <==> LoadDirectory(m, ds[0], dir, max).Ok?;
      assert DirectoryReady(m, ds, head, dir, max) && LoadDirectory(m, ds[0], dir, max).Err? ==>
        LoadDirectory(m, ds[0], dir, max).error.Refused?;
    }
  }

  /** What is listed under a name can be written. */
  ghost predicate Accepts(m: Cas.Blobs, msg: Directory, n: Text, dir: Path, max: nat) {
    && FileReady(m, msg.files, n) && FileFits(msg.files, n, dir, max)
    && LegalIn(msg.symlinks, n) && SymlinkFits(msg.symlinks, n, dir, max)
    && LegalIn(msg.directories, n) && DirectoryFits(m, msg.directories, n, dir, max)
  }

  /** What is listed under a name can be written, unless the system refuses something. */
  ghost predicate Ready(m: Cas.Blobs, msg: Directory, n: Text, dir: Path, max: nat) {
    && FileReady(m, msg.files, n) && LegalIn(msg.symlinks, n) && DirectoryReady(m, msg.directories, n, dir, max)
  }

  lemma MessageOutcome(m: Cas.Blobs, msg: Directory, dir: Path, max: nat)
    requires Distinct(msg)
    ensures LoadMessage(m, msg, dir, max).Ok? <==> forall n :: Accepts(m, msg, n, dir, max)
    ensures LoadMessage(m, msg, dir, max).Err? && (forall n :: Ready(m, msg, n, dir, max)) ==>
      LoadMessage(m, msg, dir, max).error.Refused?
  {
    LoadFilesOutcome(m, msg.files, dir, max);
    LoadSymlinksOutcome(msg.symlinks, dir, max);
    LoadDirectoriesOutcome(m, msg.directories, dir, max);
    AcceptsByList(m, msg, dir, max);
    if forall n :: Ready(m, msg, n, dir, max) {
      forall n ensures FileReady(m, msg.files, n) && LegalIn(msg.symlinks, n)
        ensures DirectoryReady(m, msg.directories, n, dir, max)
      {
        assert Ready(m, msg, n, dir, max);
      }
    }
  }

  lemma AcceptsByList(m: Cas.Blobs, msg: Directory, dir: Path, max: nat)
    ensures (forall n :: Accepts(m, msg, n, dir, max)) <==>
      && (forall n :: FileReady(m, msg.files, n) && FileFits(msg.files, n, dir, max))
      && (forall n :: LegalIn(msg.symlinks, n) && SymlinkFits(msg.symlinks, n, dir, max))
      && (forall n :: LegalIn(msg.directories, n) && DirectoryFits(m, msg.directories, n, dir, max))
  {
    if forall n :: Accepts(m, msg, n, dir, max) {
      forall n
        ensures FileReady(m, msg.files, n) && FileFits(msg.files, n, dir, max)
        ensures LegalIn(msg.symlinks, n) && SymlinkFits(msg.symlinks, n, dir, max)
        ensures LegalIn(msg.directories, n) && DirectoryFits(m, msg.directories, n, dir, max)
      {
        assert Accepts(m, msg, n, dir, max);
      }
    }
  }

  lemma {:induction false} LoadedDirectoryNames(m: Cas.Blobs, ds: seq<Named<Digest>>, dir: Path, max: nat, n: Text)
    requires LoadDirectories(m, ds, dir, max).Ok?
    ensures var r := LoadDirectories(m, ds, dir, max).value; match Find(ds, n)
      case None => Find(r, n).None?
      case Some(d) =>
        && Load(m, d, dir + [n], max).Ok?
        && Find(r, n) == Some(Dir(Load(m, d, dir + [n], max).value))
  {
    if ds != [] {
      LoadedDirectoryNames(m, ds[1..], dir, max, n);
      var r := LoadDirectories(m, ds, dir, max).value;
      assert r[1..] == LoadDirectories(m, ds[1..], dir, max).value;
    }
  }

  /** What Load yields, entry by entry. */
  lemma LoadedEntry(m: Cas.Blobs, d: Digest, dir: Path, max: nat, n: Text)
    requires Load(m, d, dir, max).Ok?
    ensures var u := Load(m, d, dir, max).value;
      var msg := FetchDirectory(m, d).value;
      && Distinct(msg)
      && match Find<Node>(u, n)
         case None => Find(msg.files, n).None? && Find(msg.symlinks, n).None? && Find(msg.directories, n).None?
         case Some(File(c, mode)) =>
           && Find(msg.files, n).Some? && Find(msg.symlinks, n).None? && Find(msg.directories, n).None?
           && Cas.Lookup(m, Find(msg.files, n).value.digest) == Some(c)
           && mode == MaterializedMode(Find(msg.files, n).value.executable)
         case Some(Symlink(t)) =>
           && Find(msg.symlinks, n) == Some(t) && Find(msg.files, n).None? && Find(msg.directories, n).None?
         case Some(Dir(sub)) =>
           && Find(msg.directories, n).Some? && Find(msg.files, n).None? && Find(msg.symlinks, n).None?
           && Load(m, Find(msg.directories, n).value, dir + [n], max) == Ok(sub)
  {
    var msg := FetchDirectory(m, d).value;
    var files := LoadFiles(m, msg.files, dir, max).value;
    var symlinks := LoadSymlinks(msg.symlinks, dir, max).value;
    var directories := LoadDirectories(m, msg.directories, dir, max).value;
    LoadedFileNames(m, msg.files, dir, max, n);
    LoadedSymlinkNames(msg.symlinks, dir, max, n);
    LoadedDirectoryNames(m, msg.directories, dir, max, n);
    FindAppend(files, symlinks, n);
    FindAppend(files + symlinks, directories, n);
  }

  // ---- When a stored root loads ----

  /** The Directory that the names of a path lead to. */
  function LeadsTo(m: Cas.Blobs, d: Digest, p: Path): Option<Digest>
    decreases |p|
  {
    if p == [] then Some(d)
    else match FetchDirectory(m, d)
      case None => None
      case Some(msg) =>
        match Find(msg.directories, p[0])
        case None => None
        case Some(sub) => LeadsTo(m, sub, p[1..])
  }

  /** Listed under this name, if anything, is a stored file, or a symlink, or a subdirectory, with a legal name
      and a path and target that the system accepts. */
  ghost predicate EntryUsable(m: Cas.Blobs, msg: Directory, n: Text, dir: Path, max: nat) {
    && FileReady(m, msg.files, n) && FileFits(msg.files, n, dir, max)
    && LegalIn(msg.symlinks, n) && SymlinkFits(msg.symlinks, n, dir, max)
    && (Find(msg.directories, n).Some? ==> LegalName(n) && Creatable(max, dir + [n]))
  }

  /** The Directory resolves, its names are distinct, and all it lists can be written. */
  ghost predicate Usable(m: Cas.Blobs, d: Digest, dir: Path, max: nat) {
    && FetchDirectory(m, d).Some?
    && Distinct(FetchDirectory(m, d).value)
    && forall n :: EntryUsable(m, FetchDirectory(m, d).value, n, dir, max)
  }

  ghost predicate SubdirectoryLoads(m: Cas.Blobs, ds: seq<Named<Digest>>, n: Text, dir: Path, max: nat) {
    Find(ds, n).Some? ==> Load(m, Find(ds, n).value, dir + [n], max).Ok?
  }

  lemma LoadsByLevel(m: Cas.Blobs, d: Digest, dir: Path, max: nat)
    ensures Load(m, d, dir, max).Ok? <==>
      && Usable(m, d, dir, max)
      && forall n :: SubdirectoryLoads(m, FetchDirectory(m, d).value.directories, n, dir, max)
  {
    if FetchDirectory(m, d).Some? && Distinct(FetchDirectory(m, d).value) {
      var msg := FetchDirectory(m, d).value;
      MessageOutcome(m, msg, dir, max);
      forall n ensures Accepts(m, msg, n, dir, max) <==>
        EntryUsable(m, msg, n, dir, max) && SubdirectoryLoads(m, msg.directories, n, dir, max)
      {
      }
    }
  }

  ghost predicate UsableAt(m: Cas.Blobs, d: Digest, p: Path, dir: Path, max: nat) {
    LeadsTo(m, d, p).Some? ==> Usable(m, LeadsTo(m, d, p).value, dir + p, max)
  }

  ghost predicate UsableThroughout(m: Cas.Blobs, d: Digest, dir: Path, max: nat) {
    forall p :: UsableAt(m, d, p, dir, max)
  }

  lemma UsableHere(m: Cas.Blobs, d: Digest, dir: Path, max: nat)
    ensures UsableAt(m, d, [], dir, max) <==> Usable(m, d, dir, max)
  {
    assert dir + [] == dir;
  }

  lemma UsableBelow(m: Cas.Blobs, d: Digest, n: Text, p: Path, dir: Path, max: nat)
    requires FetchDirectory(m, d).Some? && Find(FetchDirectory(m, d).value.directories, n).Some?
    ensures UsableAt(m, Find(FetchDirectory(m, d).value.directories, n).value, p, dir + [n], max) <==>
      UsableAt(m, d, [n] + p, dir, max)
  {
    assert ([n] + p)[1..] == p;
    assert dir + [n] + p == dir + ([n] + p);
  }

  ghost predicate SubdirectoryUsable(m: Cas.Blobs, ds: seq<Named<Digest>>, n: Text, dir: Path, max: nat) {
    Find(ds, n).Some? ==> UsableThroughout(m, Find(ds, n).value, dir + [n], max)
  }

  /** A path that leads somewhere is empty or goes through a subdirectory. */
  lemma UsableByLevel(m: Cas.Blobs, d: Digest, dir: Path, max: nat)
    ensures UsableThroughout(m, d, dir, max) <==>
      && Usable(m, d, dir, max)
      && forall n :: SubdirectoryUsable(m, FetchDirectory(m, d).value.directories, n, dir, max)
  {
    UsableHere(m, d, dir, max);
    if Usable(m, d, dir, max) {
      var ds := FetchDirectory(m, d).value.directories;
      if UsableThroughout(m, d, dir, max) {
        forall n, p | Find(ds, n).Some? ensures UsableAt(m, Find(ds, n).value, p, dir + [n], max) {
          UsableBelow(m, d, n, p, dir, max);
        }
      }
      if forall n :: SubdirectoryUsable(m, ds, n, dir, max) {
        forall p ensures UsableAt(m, d, p, dir, max) {
          if p != [] && Find(ds, p[0]).Some? {
            assert SubdirectoryUsable(m, ds, p[0], dir, max);
            assert p == [p[0]] + p[1..];
            UsableBelow(m, d, p[0], p[1..], dir, max);
          }
        }
      }
    }
  }

  /** A root digest of whatever origin can be materialized exactly when every Directory that a path leads to
      is usable at that path.  Where a Directory is among its own descendants some paths are too long. */
  lemma {:induction false} LoadsIff(m: Cas.Blobs, d: Digest, dir: Path, max: nat)
    ensures Load(m, d, dir, max).Ok? <==> UsableThroughout(m, d, dir, max)
    decreases max - PathLength(dir)
  {
    LoadsByLevel(m, d, dir, max);
    UsableByLevel(m, d, dir, max);
    if Usable(m, d, dir, max) {
      var ds := FetchDirectory(m, d).value.directories;
      forall n ensures SubdirectoryLoads(m, ds, n, dir, max) <==> SubdirectoryUsable(m, ds, n, dir, max) {
        if Find(ds, n).Some? {
          assert EntryUsable(m, FetchDirectory(m, d).value, n, dir, max);
          DeeperPath(dir, n);
          LoadsIff(m, Find(ds, n).value, dir + [n], max);
        }
      }
    }
  }

  // ---- Capture, then materialize ----

  /** Every entry of the tree has a path and, if a symlink, a target that the system accepts below `dir`. */
  ghost predicate Fits(t: Entries, dir: Path, max: nat) {
    forall p :: p != [] && At(t, p).Some? ==>
      && Creatable(max, dir + p)
      && (At(t, p).value.StatSymlink? ==> Linkable(At(t, p).value.target))
  }

  ghost predicate ChildFits(t: Entries, n: Text, dir: Path, max: nat) {
    Find(t, n).Some? ==>
      && Creatable(max, dir + [n])
      && match Find(t, n).value
         case File(_, _) => true
         case Symlink(target) => Linkable(target)
         case Dir(sub) => Fits(sub, dir + [n], max)
  }

  lemma FitsByChild(t: Entries, dir: Path, max: nat)
    ensures Fits(t, dir, max) <==> forall n :: ChildFits(t, n, dir, max)
  {
    if Fits(t, dir, max) {
      forall n: Text ensures ChildFits(t, n, dir, max) {
        assert [n][1..] == [];
        if Find(t, n).Some? {
          assert At(t, [n]).Some?;
          if Find(t, n).value.Dir? {
            var sub := Find(t, n).value.entries;
            forall p | p != [] && At(sub, p).Some?
              ensures Creatable(max, dir + [n] + p)
              ensures At(sub, p).value.StatSymlink? ==> Linkable(At(sub, p).value.target)
            {
              assert ([n] + p)[1..] == p;
              assert At(t, [n] + p) == At(sub, p);
              assert dir + ([n] + p) == dir + [n] + p;
            }
          }
        }
      }
    }
    if forall n :: ChildFits(t, n, dir, max) {
      forall p | p != [] && At(t, p).Some?
        ensures Creatable(max, dir + p)
        ensures At(t, p).value.StatSymlink? ==> Linkable(At(t, p).value.target)
      {
        var n := p[0];
        assert ChildFits(t, n, dir, max);
        assert p == [n] + p[1..];
        if |p| > 1 {
          assert At(Find(t, n).value.entries, p[1..]).Some?;
          assert dir + [n] + p[1..] == dir + p;
        }
      }
    }
  }

  /** `u` is `t` with every file's mode replaced by 0o755 or 0o644. */
  ghost predicate Rebuilds(u: Entries, t: Entries) {
    forall p :: At(u, p) == Flagged(At(t, p))
  }

  lemma {:induction false} MessageOf(sha: HashFn, m: Cas.Blobs, t: Entries)
    requires WellFormed(t) && Encodable(t) && Complete(sha, m, t)
    ensures FetchDirectory(m, DigestOf(sha, t)) == Some(DirOf(sha, t))
    ensures Distinct(DirOf(sha, t))
  {
    StoredMessage(sha, m, t);
    DirOfLookups(sha, t);
    AscendingUnique(DirOf(sha, t).files);
    AscendingUnique(DirOf(sha, t).symlinks);
    AscendingUnique(DirOf(sha, t).directories);
  }

  /** Loading the tree fails only on a path or target the system refuses, and otherwise rebuilds it. */
  ghost predicate LoadsBack(sha: HashFn, m: Cas.Blobs, t: Entries, dir: Path, max: nat) {
    var r := Load(m, DigestOf(sha, t), dir, max);
    && (r.Ok? <==> Fits(t, dir, max))
    && (r.Err? ==> r.error.Refused?)
    && (r.Ok? ==> Rebuilds(r.value, t))
  }

  /** What is needed of one entry: it is in the store, and a subdirectory loads back. */
  ghost predicate ChildReady(sha: HashFn, m: Cas.Blobs, t: Entries, n: Text, dir: Path, max: nat) {
    match Find<Node>(t, n)
    case None => true
    case Some(File(c, _)) => LegalName(n) && Cas.Holds(sha, m, c)
    case Some(Symlink(_)) => LegalName(n)
    case Some(Dir(sub)) => LegalName(n) && LoadsBack(sha, m, sub, dir + [n], max)
  }

  lemma ChildReadyByLists(sha: HashFn, m: Cas.Blobs, t: Entries, n: Text, dir: Path, max: nat)
    requires WellFormed(t) && ChildReady(sha, m, t, n, dir, max)
    ensures Ready(m, DirOf(sha, t), n, dir, max)
  {
    DirOfLookups(sha, t);
  }

  /** The listing and its message agree on what fits. */
  lemma ChildFitsByLists(sha: HashFn, m: Cas.Blobs, t: Entries, n: Text, dir: Path, max: nat)
    requires WellFormed(t) && ChildReady(sha, m, t, n, dir, max) && Ready(m, DirOf(sha, t), n, dir, max)
    ensures ChildFits(t, n, dir, max) <==> Accepts(m, DirOf(sha, t), n, dir, max)
  {
    DirOfLookups(sha, t);
  }

  lemma {:induction false} LoadOutcome(sha: HashFn, m: Cas.Blobs, t: Entries, dir: Path, max: nat)
    requires WellFormed(t) && Encodable(t) && Complete(sha, m, t)
    requires forall n :: ChildReady(sha, m, t, n, dir, max)
    ensures var r := Load(m, DigestOf(sha, t), dir, max);
      && (r.Ok? <==> Fits(t, dir, max))
      && (r.Err? ==> r.error.Refused?)
  {
    MessageOf(sha, m, t);
    forall n
      ensures Ready(m, DirOf(sha, t), n, dir, max)
      ensures ChildFits(t, n, dir, max) <==> Accepts(m, DirOf(sha, t), n, dir, max)
    {
      assert ChildReady(sha, m, t, n, dir, max);
      ChildReadyByLists(sha, m, t, n, dir, max);
      ChildFitsByLists(sha, m, t, n, dir, max);
    }
    MessageOutcome(m, DirOf(sha, t), dir, max);
    FitsByChild(t, dir, max);
  }

  lemma {:induction false} LoadRebuilds(sha: HashFn, m: Cas.Blobs, t: Entries, dir: Path, max: nat, p: Path)
    requires WellFormed(t) && Encodable(t) && Complete(sha, m, t)
    requires forall n :: ChildReady(sha, m, t, n, dir, max)
    requires Load(m, DigestOf(sha, t), dir, max).Ok?
    ensures At(Load(m, DigestOf(sha, t), dir, max).value, p) == Flagged(At(t, p))
  {
    if p != [] {
      var n := p[0];
      MessageOf(sha, m, t);
      DirOfLookups(sha, t);
      assert ChildReady(sha, m, t, n, dir, max);
      LoadedEntry(m, DigestOf(sha, t), dir, max, n);
    }
  }

  lemma {:induction false} LoadComplete(sha: HashFn, m: Cas.Blobs, t: Entries, dir: Path, max: nat)
    requires WellFormed(t) && Encodable(t) && Complete(sha, m, t)
    ensures LoadsBack(sha, m, t, dir, max)
    decreases Height(t)
  {
    forall n: Text ensures ChildReady(sha, m, t, n, dir, max) {
      if Find(t, n).Some? {
        WellFormedChild(t, n);
        EncodableChild(t, n);
        ChildBlobs(sha, t, n);
        if Find(t, n).value.Dir? {
          ChildHeight(t, n);
          LoadComplete(sha, m, Find(t, n).value.entries, dir + [n], max);
        }
      }
    }
    LoadOutcome(sha, m, t, dir, max);
    if Fits(t, dir, max) {
      forall p ensures At(Load(m, DigestOf(sha, t), dir, max).value, p) == Flagged(At(t, p)) {
        LoadRebuilds(sha, m, t, dir, max, p);
      }
    }
  }

  /** Capture a tree, let the store gain any blobs stored under their own hash, and load the root digest:
      the tree comes back, at every path, unless the system refuses a path or a target. */
  lemma {:induction false} CaptureThenLoad(sha: HashFn, before: Cas.Blobs, t: Entries, later: Cas.Blobs, dir: Path,
      max: nat)
    requires WellFormed(t) && Encodable(t)
    requires NoCollision(sha, OutputBlobs(sha, t) + later.Values)
    requires Cas.Gained(sha, Replay(sha, before, CaptureSteps(t)), later)
    ensures LoadsBack(sha, later, t, dir, max)
  {
    var all := OutputBlobs(sha, t) + later.Values;
    NoCollisionSubset(sha, OutputBlobs(sha, t), all);
    CapturedComplete(sha, before, t);
    forall b | b in Blobs(sha, t) ensures Cas.Holds(sha, later, b) {
      NoCollisionSubset(sha, later.Values + {b}, all);
      Cas.HoldsLater(sha, Replay(sha, before, CaptureSteps(t)), later, b);
    }
    LoadComplete(sha, later, t, dir, max);
  }

  /** The same thing is there, and a file may be executed by all if somebody could execute it, and otherwise by
      nobody; all may read it and its owner may write it. */
  predicate ComesBack(was: Option<Stat>, now: Option<Stat>) {
    match was
    case Some(StatFile(content, mode)) =>
      && now.Some? && now.value.StatFile? && now.value.content == content
      && Portable(now.value.mode, SomebodyExecutes(mode))
    case _ => now == was
  }

  lemma FlaggedComesBack(was: Option<Stat>)
    ensures ComesBack(was, Flagged(was))
  {
    if was.Some? && was.value.StatFile? {
      FlagBits(was.value.mode, IsExecutable(was.value.mode));
    }
  }

  /** The scenario of TestCaptureMaterializeRoundTrip, for every tree: capture `src`, materialize its root
      digest into a vacant `dst`, and find at every path what was at that path of `src`. */
  method CaptureThenMaterialize(sha: HashFn, store: Cas.Store, src: Entries, fs: FileSystem,
      dst: Path) returns (ok: bool)
    requires WellFormed(src) && NoCollision(sha, OutputBlobs(sha, src))
    requires ParentExists(fs.nodes, dst) && Vacant(fs.nodes, dst) && Creatable(fs.pathMax, dst)
    modifies store`blobs, fs`nodes
    ensures store.reliable ==> (ok <==> Encodable(src) && Fits(src, dst, fs.pathMax))
    ensures ok ==> forall p :: NodeAt(fs.nodes, dst + p) == Flagged(At(src, p))
    ensures ok ==> forall p :: ComesBack(At(src, p), NodeAt(fs.nodes, dst + p))
    ensures Untouched(old(fs.nodes), fs.nodes, dst)
  {
    var od, done := CaptureDirectory(sha, store, [], src);
    if od.None? {
      return false;
    }
    CapturedComplete(sha, old(store.blobs), src);
    LoadComplete(sha, store.blobs, src, dst, fs.pathMax);
    var err, tree := Materialize.Materialize(store, od.value.rootDigest, fs, dst);
    ok := err.None?;
    if ok {
      forall p ensures NodeAt(fs.nodes, dst + p) == Flagged(At(src, p)) {
        assert NodeAt(fs.nodes, dst + p) == At(tree, p);
      }
      forall p ensures ComesBack(At(src, p), NodeAt(fs.nodes, dst + p)) {
        FlaggedComesBack(At(src, p));
      }
    }
  }

  // ---- Materialize, then capture ----

  /** The digest has the size of the blob it resolves to. */
  ghost predicate Sized(m: Cas.Blobs, d: Digest) {
    Cas.Lookup(m, d).Some? && d.size == WrapInt64(|Cas.Lookup(m, d).value|)
  }

  /** The blob is the marshalled message, and the message lists its children in ascending order and gives
      every file digest its true size. */
  ghost predicate CanonicalMessage(m: Cas.Blobs, d: Digest, msg: Directory) {
    && Cas.Lookup(m, d) == Some(EncodeDirectory(msg))
    && Ascending(msg.files) && Ascending(msg.symlinks) && Ascending(msg.directories)
    && forall n :: Find(msg.files, n).Some? ==> Sized(m, Find(msg.files, n).value.digest)
  }

  /** The Directory a digest resolves to, and every one below it to depth k, is canonical and truly sized. */
  ghost predicate Canonical(m: Cas.Blobs, d: Digest, k: nat)
    decreases k
  {
    && Sized(m, d)
    && FetchDirectory(m, d).Some?
    && var msg := FetchDirectory(m, d).value;
      && CanonicalMessage(m, d, msg)
      && forall n :: Find(msg.directories, n).Some? ==> k > 0 && Canonical(m, Find(msg.directories, n).value, k - 1)
  }

  lemma {:induction false} WellFormedAppend(a: Entries, b: Entries)
    requires WellFormed(a) && WellFormed(b) && forall n :: Find(b, n).Some? ==> Find(a, n).None?
    ensures WellFormed(a + b)
    decreases |a|
  {
    if a == [] {
      assert a + b == b;
    } else {
      assert (a + b)[1..] == a[1..] + b && (a + b)[0] == a[0];
      forall n | Find(b, n).Some? ensures Find(a[1..], n).None? {
        assert Find(a, n).None?;
      }
      assert Find(b, a[0].name).None? by {
        assert Find(a, a[0].name).Some?;
      }
      WellFormedAppend(a[1..], b);
      FindAppend(a[1..], b, a[0].name);
    }
  }

  lemma {:induction false} LoadedFilesWellFormed(m: Cas.Blobs, fs: seq<Named<FileRef>>, dir: Path, max: nat)
    requires Unique(fs) && LoadFiles(m, fs, dir, max).Ok?
    ensures WellFormed(LoadFiles(m, fs, dir, max).value)
  {
    if fs != [] {
      LoadedFilesWellFormed(m, fs[1..], dir, max);
      LoadedFileNames(m, fs[1..], dir, max, fs[0].name);
      assert LoadFiles(m, fs, dir, max).value[1..] == LoadFiles(m, fs[1..], dir, max).value;
    }
  }

  lemma {:induction false} LoadedSymlinksWellFormed(ls: seq<Named<Text>>, dir: Path, max: nat)
    requires Unique(ls) && LoadSymlinks(ls, dir, max).Ok?
    ensures WellFormed(LoadSymlinks(ls, dir, max).value)
  {
    if ls != [] {
      LoadedSymlinksWellFormed(ls[1..], dir, max);
      LoadedSymlinkNames(ls[1..], dir, max, ls[0].name);
      assert LoadSymlinks(ls, dir, max).value[1..] == LoadSymlinks(ls[1..], dir, max).value;
    }
  }

  lemma {:induction false} LoadedDirectoriesWellFormed(m: Cas.Blobs, ds: seq<Named<Digest>>, dir: Path, max: nat)
    requires Unique(ds) && LoadDirectories(m, ds, dir, max).Ok?
    ensures WellFormed(LoadDirectories(m, ds, dir, max).value)
    decreases max - PathLength(dir), 0, |ds|
  {
    if ds != [] {
      LoadedDirectoriesWellFormed(m, ds[1..], dir, max);
      LoadedDirectoryNames(m, ds[1..], dir, max, ds[0].name);
      LoadedWellFormed(m, ds[0].value, dir + [ds[0].name], max);
      assert LoadDirectories(m, ds, dir, max).value[1..] == LoadDirectories(m, ds[1..], dir, max).value;
    }
  }

  /** Whatever can be materialized could have been on disk. */
  lemma {:induction false} LoadedWellFormed(m: Cas.Blobs, d: Digest, dir: Path, max: nat)
    requires Load(m, d, dir, max).Ok?
    ensures WellFormed(Load(m, d, dir, max).value)
    decreases max - PathLength(dir), 1
  {
    var msg := FetchDirectory(m, d).value;
    var files := LoadFiles(m, msg.files, dir, max).value;
    var symlinks := LoadSymlinks(msg.symlinks, dir, max).value;
    var directories := LoadDirectories(m, msg.directories, dir, max).value;
    LoadedFilesWellFormed(m, msg.files, dir, max);
    LoadedSymlinksWellFormed(msg.symlinks, dir, max);
    LoadedDirectoriesWellFormed(m, msg.directories, dir, max);
    forall n
      ensures Find(symlinks, n).Some? ==> Find(files, n).None?
      ensures Find(directories, n).Some? ==> Find(files + symlinks, n).None?
    {
      LoadedFileNames(m, msg.files, dir, max, n);
      LoadedSymlinkNames(msg.symlinks, dir, max, n);
      LoadedDirectoryNames(m, msg.directories, dir, max, n);
      FindAppend(files, symlinks, n);
    }
    WellFormedAppend(files, symlinks);
    WellFormedAppend(files + symlinks, directories);
  }

  lemma {:induction false} LoadedEncodable(m: Cas.Blobs, d: Digest, dir: Path, max: nat)
    requires Load(m, d, dir, max).Ok?
    ensures Encodable(Load(m, d, dir, max).value)
    decreases max - PathLength(dir)
  {
    var u, msg := Load(m, d, dir, max).value, FetchDirectory(m, d).value;
    LoadedWellFormed(m, d, dir, max);
    UnmarshalledIsClean(Cas.Lookup(m, d).value);
    forall n: Text | Find(u, n).Some?
      ensures ValidUtf8(n)
      ensures Find(u, n).value.Symlink? ==> ValidUtf8(Find(u, n).value.target)
      ensures Find(u, n).value.Dir? ==> Encodable(Find(u, n).value.entries)
    {
      LoadedEntry(m, d, dir, max, n);
      match Find(u, n).value
      case File(_, _) =>
        var i := FindWitness(msg.files, n);
        assert CleanFile(msg.files[i]);
      case Symlink(_) =>
        var i := FindWitness(msg.symlinks, n);
        assert CleanSymlink(msg.symlinks[i]);
      case Dir(_) =>
        var i := FindWitness(msg.directories, n);
        assert CleanSubdirectory(msg.directories[i]);
        LoadedCreatable(m, msg.directories, dir, max, n);
        LoadedEncodable(m, Find(msg.directories, n).value, dir + [n], max);
    }
    EncodableByChildren(u);
  }

  lemma {:induction false} LoadedCreatable(m: Cas.Blobs, ds: seq<Named<Digest>>, dir: Path, max: nat, n: Text)
    requires LoadDirectories(m, ds, dir, max).Ok? && Find(ds, n).Some?
    ensures Creatable(max, dir + [n])
  {
    if ds[0].name != n {
      LoadedCreatable(m, ds[1..], dir, max, n);
    }
  }

  lemma ResolvedHash(sha: HashFn, m: Cas.Blobs, d: Digest)
    requires Cas.Integrity(sha, m) && Cas.Lookup(m, d).Some?
    ensures sha(Cas.Lookup(m, d).value) == d.hash
    ensures Sized(m, d) <==> FromBytes(sha, Cas.Lookup(m, d).value) == d
  {
    assert sha([]) == EMPTY_HASH;
  }

  /** Capturing what was materialized from a canonical Directory gives its digest back. */
  lemma {:induction false} CanonicalRecaptured(sha: HashFn, m: Cas.Blobs, d: Digest, dir: Path, max: nat, k: nat)
    requires Cas.Integrity(sha, m) && Load(m, d, dir, max).Ok? && Canonical(m, d, k)
    ensures DigestOf(sha, Load(m, d, dir, max).value) == d
    decreases k
  {
    var u, msg := Load(m, d, dir, max).value, FetchDirectory(m, d).value;
    LoadedWellFormed(m, d, dir, max);
    DirOfLookups(sha, u);
    var own := DirOf(sha, u);
    forall n: Text
      ensures Find(own.files, n) == Find(msg.files, n)
      ensures Find(own.symlinks, n) == Find(msg.symlinks, n)
      ensures Find(own.directories, n) == Find(msg.directories, n)
    {
      LoadedEntry(m, d, dir, max, n);
      if Find(msg.files, n).Some? {
        ResolvedHash(sha, m, Find(msg.files, n).value.digest);
        FlagIsKept(Find(u, n).value.mode, Find(u, n).value.mode);
      } else if Find(msg.directories, n).Some? {
        CanonicalRecaptured(sha, m, Find(msg.directories, n).value, dir + [n], max, k - 1);
      }
    }
    AscendingDetermined(own.files, msg.files);
    AscendingDetermined(own.symlinks, msg.symlinks);
    AscendingDetermined(own.directories, msg.directories);
    ResolvedHash(sha, m, d);
  }

  /** If capturing gives the digest back, the stored Directories were canonical. */
  lemma {:induction false} RecapturedCanonical(sha: HashFn, m: Cas.Blobs, d: Digest, dir: Path, max: nat, k: nat)
    requires Cas.Integrity(sha, m) && Load(m, d, dir, max).Ok? && k >= Height(Load(m, d, dir, max).value)
    requires NoCollision(sha, m.Values + Blobs(sha, Load(m, d, dir, max).value))
    requires DigestOf(sha, Load(m, d, dir, max).value) == d
    ensures Canonical(m, d, k)
    decreases k
  {
    var u, msg := Load(m, d, dir, max).value, FetchDirectory(m, d).value;
    var data, all := Cas.Lookup(m, d).value, m.Values + Blobs(sha, u);
    LoadedWellFormed(m, d, dir, max);
    LoadedEncodable(m, d, dir, max);
    ResolvedHash(sha, m, d);
    RootBlob(sha, u);
    assert data in all + {[]} && BytesOf(sha, u) in all;
    assert data == BytesOf(sha, u);
    EncodableIsClean(sha, u);
    DirectoryRoundTrip(DirOf(sha, u));
    DirOfLookups(sha, u);
    forall n: Text
      ensures Find(msg.files, n).Some? ==> Sized(m, Find(msg.files, n).value.digest)
      ensures Find(msg.directories, n).Some? ==> k > 0 && Canonical(m, Find(msg.directories, n).value, k - 1)
    {
      LoadedEntry(m, d, dir, max, n);
      if Find(msg.files, n).Some? {
        ResolvedHash(sha, m, Find(msg.files, n).value.digest);
      } else if Find(msg.directories, n).Some? {
        ChildHeight(u, n);
        ChildBlobs(sha, u, n);
        NoCollisionSubset(sha, m.Values + Blobs(sha, Find(u, n).value.entries), all);
        RecapturedCanonical(sha, m, Find(msg.directories, n).value, dir + [n], max, k - 1);
      }
    }
  }

  /** Materialize, then capture, is the identity on digests exactly for canonical Directories; `t` is any
      listing of what was written. */
  lemma {:induction false} MaterializeThenCapture(sha: HashFn, m: Cas.Blobs, d: Digest, dir: Path, max: nat, t: Entries)
    requires Cas.Integrity(sha, m) && Load(m, d, dir, max).Ok?
    requires NoCollision(sha, m.Values + Blobs(sha, Load(m, d, dir, max).value))
    requires WellFormed(t) && SameTree(t, Load(m, d, dir, max).value)
    ensures DigestOf(sha, t) == d <==> Canonical(m, d, Height(Load(m, d, dir, max).value))
  {
    var u := Load(m, d, dir, max).value;
    LoadedWellFormed(m, d, dir, max);
    SameTreeSameMessage(sha, t, u);
    if Canonical(m, d, Height(u)) {
      CanonicalRecaptured(sha, m, d, dir, max, Height(u));
    }
    if DigestOf(sha, u) == d {
      RecapturedCanonical(sha, m, d, dir, max, Height(u));
    }
  }

  /** The same thing at every path, without forgetting any mode. */
  ghost predicate SameListing(t: Entries, u: Entries) {
    forall p :: At(t, p) == At(u, p)
  }

  function StatOf(node: Node): Stat {
    match node
    case File(content, mode) => StatFile(content, mode)
    case Symlink(target) => StatSymlink(target)
    case Dir(_) => StatDir
  }

  lemma {:induction false} AtName(t: Entries, n: Text)
    ensures At(t, [n]) == if Find(t, n).Some? then Some(StatOf(Find(t, n).value)) else None
  {
    assert [n][1..] == [];
    match Find<Node>(t, n)
    case Some(Dir(sub)) => assert At(sub, []) == Some(StatDir);
    case _ =>
  }

  lemma {:induction false} SameListingChild(t: Entries, u: Entries, n: Text)
    requires SameListing(t, u) && Find(u, n).Some?
    ensures Find(t, n).Some? && StatOf(Find(t, n).value) == StatOf(Find(u, n).value)
    ensures Find(u, n).value.Dir? ==> SameListing(Find(t, n).value.entries, Find(u, n).value.entries)
  {
    AtName(t, n);
    AtName(u, n);
    assert At(t, [n]) == At(u, [n]);
    if Find(u, n).value.Dir? {
      forall p ensures At(Find(t, n).value.entries, p) == At(Find(u, n).value.entries, p) {
        assert At(t, [n] + p) == At(u, [n] + p);
      }
    }
  }

  lemma {:induction false} SameListingEncodable(t: Entries, u: Entries)
    requires WellFormed(t) && WellFormed(u) && SameListing(t, u) && Encodable(t)
    ensures Encodable(u)
    decreases Height(u)
  {
    forall n | Find(u, n).Some?
      ensures ValidUtf8(n)
      ensures Find(u, n).value.Symlink? ==> ValidUtf8(Find(u, n).value.target)
      ensures Find(u, n).value.Dir? ==> Encodable(Find(u, n).value.entries)
    {
      SameListingChild(t, u, n);
      EncodableChild(t, n);
      if Find(u, n).value.Dir? {
        WellFormedChild(t, n);
        WellFormedChild(u, n);
        ChildHeight(u, n);
        SameListingEncodable(Find(t, n).value.entries, Find(u, n).value.entries);
      }
    }
    EncodableByChildren(u);
  }

  /** `list` enumerates what is below the directory, in some order. */
  ghost predicate Lists(list: Nodes -> Entries, dir: Path) {
    forall nodes: Nodes, es: Entries :: WellFormed(es) && Reflects(nodes, dir, es) ==>
      WellFormed(list(nodes)) && Reflects(nodes, dir, list(nodes))
  }

  /** Materialize a stored root into a vacant directory and capture that directory: on a reliable store the
      capture succeeds, and its root digest is the one materialized exactly if the stored Directories are
      canonical. */
  method MaterializeThenBuild(sha: HashFn, store: Cas.Store, root: Digest, fs: FileSystem, dst: Path,
      list: Nodes -> Entries)
    returns (digest: Option<Digest>)
    requires ParentExists(fs.nodes, dst) && Vacant(fs.nodes, dst) && Creatable(fs.pathMax, dst) && Lists(list, dst)
    requires Cas.Integrity(sha, store.blobs) && Load(store.blobs, root, dst, fs.pathMax).Ok?
    requires NoCollision(sha, store.blobs.Values + Blobs(sha, Load(store.blobs, root, dst, fs.pathMax).value))
    modifies fs`nodes, store`blobs
    ensures store.reliable ==> digest.Some?
    ensures digest.Some? ==>
      var loaded := old(Load(store.blobs, root, dst, fs.pathMax).value);
      digest.value == root <==> Canonical(old(store.blobs), root, Height(loaded))
  {
    ghost var m, max := store.blobs, fs.pathMax;
    var err;
    ghost var tree;
    err, tree := Materialize.Materialize(store, root, fs, dst);
    LoadedWellFormed(m, root, dst, max);
    LoadedEncodable(m, root, dst, max);
    var es := list(fs.nodes);
    SameListingEncodable(tree, es);
    MaterializeThenCapture(sha, m, root, dst, max, es);
    var built;
    ghost var done;
    built, done := BuildDirectory(sha, store, es);
    digest := if built.Some? then Some(built.value.digest) else None;
  }
}
