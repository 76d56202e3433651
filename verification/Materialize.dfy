/** Writing a stored tree into a filesystem (internal/casfs/casfs.go: Materialize). */
module Materialize {
  import opened Digests
  import opened Named
  import opened Wire
  import Cas
  import opened Trees

  // ---- The filesystem ----

  const NAME_MAX: nat := 255
  const TARGET_MAX: nat := 4095

  /** Octets of the path "/a/b/c". */
  function PathLength(p: Path): nat {
    if p == [] then 0 else PathLength(p[..|p| - 1]) + 1 + |p[|p| - 1]|
  }

  /** Paths that system calls accept. */
  predicate Creatable(max: nat, p: Path) {
    p != [] ==> PathLength(p) <= max && |p[|p| - 1]| <= NAME_MAX && 0 !in p[|p| - 1]
  }

  predicate Linkable(target: Text) {
    0 < |target| <= TARGET_MAX && 0 !in target
  }

  type Nodes = map<Path, Stat>

  predicate DirectoryAt(nodes: Nodes, p: Path) {
    p in nodes && nodes[p] == StatDir
  }

  /** The directory a new path goes into exists. */
  predicate ParentExists(nodes: Nodes, p: Path) {
    p == [] || DirectoryAt(nodes, p[..|p| - 1])
  }

  /** A filesystem as a map from paths.  `pathMax` is what is left of PATH_MAX below the root of the map.
      Operations are given only where nothing is in the way. */
  class FileSystem {
    const pathMax: nat
    var nodes: Nodes

    constructor (pathMax: nat)
      ensures nodes == map[[] := StatDir] && this.pathMax == pathMax
    {
      this.pathMax := pathMax;
      nodes := map[[] := StatDir];
    }

    method MkdirAll(p: Path) returns (ok: bool)
      requires ParentExists(nodes, p) && (p in nodes ==> nodes[p] == StatDir)
      modifies this`nodes
      ensures ok <==> p in old(nodes) || Creatable(pathMax, p)
      ensures nodes == if ok then old(nodes)[p := StatDir] else old(nodes)
    {
      if p in nodes {
        return true;
      }
      ok := Creatable(pathMax, p);
      if ok {
        nodes := nodes[p := StatDir];
      }
    }

    method WriteFile(p: Path, content: Bytes, mode: Mode) returns (ok: bool)
      requires ParentExists(nodes, p) && p !in nodes
      modifies this`nodes
      ensures ok <==> Creatable(pathMax, p)
      ensures nodes == if ok then old(nodes)[p := StatFile(content, mode)] else old(nodes)
    {
      ok := Creatable(pathMax, p);
      if ok {
        nodes := nodes[p := StatFile(content, mode)];
      }
    }

    method Symlink(target: Text, p: Path) returns (ok: bool)
      requires ParentExists(nodes, p) && p !in nodes
      modifies this`nodes
      ensures ok <==> Linkable(target) && Creatable(pathMax, p)
      ensures nodes == if ok then old(nodes)[p := StatSymlink(target)] else old(nodes)
    {
      ok := Linkable(target) && Creatable(pathMax, p);
      if ok {
        nodes := nodes[p := StatSymlink(target)];
      }
    }
  }

  // ---- The tree a digest stands for ----

  datatype Error = MissingBlob(d: Digest) | Malformed(d: Digest) | BadName(n: Text) | Refused(p: Path)
    | Ambiguous(d: Digest)

  type Result<+T> = Digests.Result<T, Error>

  /** No name occurs twice in the message. */
  ghost predicate Distinct(d: Directory) {
    && Unique(d.files) && Unique(d.symlinks) && Unique(d.directories)
    && forall n ::
      && (Find(d.files, n).Some? ==> Find(d.symlinks, n).None? && Find(d.directories, n).None?)
      && (Find(d.symlinks, n).Some? ==> Find(d.directories, n).None?)
  }

  function Prepend(e: Named<Node>, r: Result<Entries>): Result<Entries> {
    match r
    case Ok(es) => Ok([e] + es)
    case Err(_) => r
  }

  function LoadFiles(m: Cas.Blobs, fs: seq<Named<FileRef>>, dir: Path, max: nat): Result<Entries> {
    if fs == [] then Ok([])
    else
      var f := fs[0];
      if !LegalName(f.name) then Err(BadName(f.name))
      else match Cas.Lookup(m, f.value.digest)
        case None => Err(MissingBlob(f.value.digest))
        case Some(content) =>
          if !Creatable(max, dir + [f.name]) then Err(Refused(dir + [f.name]))
          else Prepend(Named(f.name, File(content, MaterializedMode(f.value.executable))),
              LoadFiles(m, fs[1..], dir, max))
  }

  function LoadSymlinks(ls: seq<Named<Text>>, dir: Path, max: nat): Result<Entries> {
    if ls == [] then Ok([])
    else
      var l := ls[0];
      if !LegalName(l.name) then Err(BadName(l.name))
      else if !Linkable(l.value) || !Creatable(max, dir + [l.name]) then Err(Refused(dir + [l.name]))
      else Prepend(Named(l.name, Symlink(l.value)), LoadSymlinks(ls[1..], dir, max))
  }

  lemma DeeperPath(dir: Path, n: Text)
    ensures PathLength(dir + [n]) == PathLength(dir) + 1 + |n|
  {
    assert (dir + [n])[..|dir|] == dir;
  }

  ghost function LoadDirectory(m: Cas.Blobs, s: Named<Digest>, dir: Path, max: nat): Result<Named<Node>>
    decreases max - PathLength(dir), 0
  {
    if !LegalName(s.name) then Err(BadName(s.name))
    else if !Creatable(max, dir + [s.name]) then Err(Refused(dir + [s.name]))
    else
      DeeperPath(dir, s.name);
      match Load(m, s.value, dir + [s.name], max)
      case Err(e) => Err(e)
      case Ok(sub) => Ok(Named(s.name, Dir(sub)))
  }

  ghost function LoadDirectories(m: Cas.Blobs, ds: seq<Named<Digest>>, dir: Path, max: nat): Result<Entries>
    decreases max - PathLength(dir), 1, |ds|
  {
    if ds == [] then Ok([])
    else match LoadDirectory(m, ds[0], dir, max)
      case Err(e) => Err(e)
      case Ok(sub) => Prepend(sub, LoadDirectories(m, ds[1..], dir, max))
  }

  /** What a message stands for, once its names are known to be distinct. */
  ghost function LoadMessage(m: Cas.Blobs, msg: Directory, dir: Path, max: nat): Result<Entries>
    decreases max - PathLength(dir), 2
  {
    match LoadFiles(m, msg.files, dir, max)
    case Err(e) => Err(e)
    case Ok(files) =>
      match LoadSymlinks(msg.symlinks, dir, max)
      case Err(e) => Err(e)
      case Ok(symlinks) =>
        match LoadDirectories(m, msg.directories, dir, max)
        case Err(e) => Err(e)
        case Ok(directories) => Ok(files + symlinks + directories)
  }

  /** The tree below a Directory digest, or the first reason why it cannot be written at `dir`. */
  ghost function Load(m: Cas.Blobs, d: Digest, dir: Path, max: nat): Result<Entries>
    decreases max - PathLength(dir), 3
  {
    match Cas.Lookup(m, d)
    case None => Err(MissingBlob(d))
    case Some(data) =>
      match UnmarshalDirectory(data)
      case None => Err(Malformed(d))
      case Some(msg) =>
        if !Distinct(msg) then Err(Ambiguous(d)) else LoadMessage(m, msg, dir, max)
  }

  // ---- The filesystem below a directory, as a tree ----

  function NodeAt(nodes: Nodes, p: Path): Option<Stat> {
    if p in nodes then Some(nodes[p]) else None
  }

  /** Below `dir` there is exactly the tree `es`. */
  ghost predicate Reflects(nodes: Nodes, dir: Path, es: Entries) {
    forall p :: NodeAt(nodes, dir + p) == At(es, p)
  }

  /** Nothing outside `dir` differs. */
  ghost predicate Untouched(before: Nodes, after: Nodes, dir: Path) {
    forall p :: !(dir <= p) ==> NodeAt(after, p) == NodeAt(before, p)
  }

  /** There is nothing at `dir`, or an empty directory. */
  ghost predicate Vacant(nodes: Nodes, dir: Path) {
    forall p :: NodeAt(nodes, dir + p) == None || (p == [] && NodeAt(nodes, dir + p) == Some(StatDir))
  }

  lemma ReflectsDirectory(nodes: Nodes, dir: Path, es: Entries)
    requires Reflects(nodes, dir, es)
    ensures DirectoryAt(nodes, dir)
  {
    assert dir + [] == dir;
    assert NodeAt(nodes, dir + []) == At(es, []);
  }

  lemma VacantChild(nodes: Nodes, dir: Path, es: Entries, n: Text)
    requires Reflects(nodes, dir, es) && Find(es, n).None?
    ensures Vacant(nodes, dir + [n]) && dir + [n] !in nodes
  {
    forall p ensures NodeAt(nodes, dir + [n] + p) == None {
      assert dir + [n] + p == dir + ([n] + p);
      assert NodeAt(nodes, dir + ([n] + p)) == At(es, [n] + p);
    }
    assert dir + [n] + [] == dir + [n];
    assert NodeAt(nodes, dir + [n] + []) == None;
  }

  lemma AtWithEntry(es: Entries, e: Named<Node>, p: Path)
    requires Find(es, e.name).None?
    ensures At(es + [e], p) == if p != [] && p[0] == e.name then At([e], p) else At(es, p)
  {
    if p != [] {
      FindAppend(es, [e], p[0]);
    }
  }

  lemma Elsewhere(dir: Path, n: Text, p: Path)
    requires p == [] || p[0] != n
    ensures !(dir + [n] <= dir + p)
  {
    if p != [] {
      assert (dir + p)[|dir|] == p[0] && (dir + [n])[|dir|] == n;
    }
  }

  /** Writing an entry under a new name adds it to the tree below `dir`. */
  lemma AddEntry(before: Nodes, after: Nodes, dir: Path, es: Entries, e: Named<Node>)
    requires Reflects(before, dir, es) && Find(es, e.name).None?
    requires Untouched(before, after, dir + [e.name])
    requires forall p :: NodeAt(after, dir + [e.name] + p) == At([e], [e.name] + p)
    ensures Reflects(after, dir, es + [e])
  {
    forall p ensures NodeAt(after, dir + p) == At(es + [e], p) {
      AtWithEntry(es, e, p);
      if p != [] && p[0] == e.name {
        BelowEntry(after, dir, e, p);
      } else {
        BesideEntry(before, after, dir, es, e.name, p);
      }
    }
  }

  lemma BelowEntry(after: Nodes, dir: Path, e: Named<Node>, p: Path)
    requires forall q :: NodeAt(after, dir + [e.name] + q) == At([e], [e.name] + q)
    requires p != [] && p[0] == e.name
    ensures NodeAt(after, dir + p) == At([e], p)
  {
    assert p == [e.name] + p[1..];
    assert dir + p == dir + [e.name] + p[1..];
  }

  lemma BesideEntry(before: Nodes, after: Nodes, dir: Path, es: Entries, n: Text, p: Path)
    requires Reflects(before, dir, es) && Untouched(before, after, dir + [n]) && (p == [] || p[0] != n)
    ensures NodeAt(after, dir + p) == At(es, p)
  {
    Elsewhere(dir, n, p);
    assert NodeAt(before, dir + p) == At(es, p);
  }

  lemma AddLeaf(before: Nodes, dir: Path, es: Entries, e: Named<Node>, stat: Stat)
    requires Reflects(before, dir, es) && Find(es, e.name).None?
    requires match e.value
      case File(c, mode) => stat == StatFile(c, mode)
      case Symlink(t) => stat == StatSymlink(t)
      case Dir(_) => false
    ensures Reflects(before[dir + [e.name] := stat], dir, es + [e])
    ensures Untouched(before, before[dir + [e.name] := stat], dir)
  {
    var q := dir + [e.name];
    VacantChild(before, dir, es, e.name);
    var after := before[q := stat];
    forall p ensures NodeAt(after, q + p) == At([e], [e.name] + p) {
      if p == [] {
        assert q + p == q;
      } else {
        assert q + p != q;
        assert NodeAt(before, q + p) == None;
      }
    }
    AddEntry(before, after, dir, es, e);
  }

  lemma AddSubtree(before: Nodes, after: Nodes, dir: Path, es: Entries, n: Text, sub: Entries)
    requires Reflects(before, dir, es) && Find(es, n).None?
    requires Untouched(before, after, dir + [n]) && Reflects(after, dir + [n], sub)
    ensures Reflects(after, dir, es + [Named(n, Dir(sub))])
  {
    var e := Named(n, Dir(sub));
    forall p ensures NodeAt(after, dir + [n] + p) == At([e], [n] + p) {
      assert ([n] + p)[1..] == p;
    }
    AddEntry(before, after, dir, es, e);
  }

  lemma UntouchedAbove(before: Nodes, after: Nodes, dir: Path, n: Text)
    requires Untouched(before, after, dir + [n])
    ensures Untouched(before, after, dir)
  {
    forall p | !(dir <= p) ensures NodeAt(after, p) == NodeAt(before, p) {
      assert dir + [n] <= p ==> dir <= p;
    }
  }

  // ---- Materialize ----

  function PrependAll(es: Entries, r: Result<Entries>): Result<Entries> {
    match r
    case Ok(rest) => Ok(es + rest)
    case Err(_) => r
  }

  lemma PrependNext(es: Entries, e: Named<Node>, r: Result<Entries>)
    ensures PrependAll(es, Prepend(e, r)) == PrependAll(es + [e], r)
  {
    if r.Ok? {
      assert es + ([e] + r.value) == es + [e] + r.value;
    }
  }

  lemma OneMoreEntry(built: Entries, loaded: Entries, e: Named<Node>)
    ensures built + loaded + [e] == built + (loaded + [e])
  {
  }

  lemma PrependNone(r: Result<Entries>)
    ensures PrependAll([], r) == r
  {
    if r.Ok? {
      assert [] + r.value == r.value;
    }
  }

  /** None of the listed names is taken. */
  ghost predicate Fresh<T>(es: Entries, list: seq<Named<T>>) {
    forall n :: Find(list, n).Some? ==> Find(es, n).None?
  }

  lemma FreshNext<T>(es: Entries, list: seq<Named<T>>, e: Named<Node>)
    requires list != [] && Fresh(es, list) && Unique(list) && e.name == list[0].name
    ensures Find(es, e.name).None? && Fresh(es + [e], list[1..])
  {
    assert Find(list, e.name).Some?;
    forall n | Find(list[1..], n).Some? ensures Find(es + [e], n).None? {
      FindAppend(es, [e], n);
      assert [e][1..] == [];
      assert Find(list, n).Some?;
    }
  }

  /** The first loop of Materialize.  `loaded` is the part of the tree written so far. */
  method WriteFiles(store: Cas.Store, files: seq<Named<FileRef>>, fs: FileSystem, dir: Path, ghost built: Entries)
    returns (err: Option<Error>, ghost loaded: Entries)
    requires Reflects(fs.nodes, dir, built) && Fresh(built, files) && Unique(files)
    modifies fs`nodes
    ensures LoadFiles(store.blobs, files, dir, fs.pathMax) == if err.None? then Ok(loaded) else Err(err.value)
    ensures err.None? ==> Reflects(fs.nodes, dir, built + loaded)
    ensures Untouched(old(fs.nodes), fs.nodes, dir)
  {
    loaded := [];
    assert files[0..] == files && built + [] == built;
    ghost var all := LoadFiles(store.blobs, files, dir, fs.pathMax);
    PrependNone(all);
    for i := 0 to |files|
      invariant Reflects(fs.nodes, dir, built + loaded) && Fresh(built + loaded, files[i..]) && Unique(files[i..])
      invariant all == PrependAll(loaded, LoadFiles(store.blobs, files[i..], dir, fs.pathMax))
      invariant Untouched(old(fs.nodes), fs.nodes, dir)
    {
      var f := files[i];
      assert files[i..][0] == f && files[i..][1..] == files[i + 1..];
      if !LegalName(f.name) {
        return Some(BadName(f.name)), loaded;
      }
      var content := store.Get(f.value.digest);
      if content.None? {
        return Some(MissingBlob(f.value.digest)), loaded;
      }
      var mode := MaterializedMode(f.value.executable);
      ghost var e := Named(f.name, File(content.value, mode));
      FreshNext(built + loaded, files[i..], e);
      VacantChild(fs.nodes, dir, built + loaded, f.name);
      ReflectsDirectory(fs.nodes, dir, built + loaded);
      assert (dir + [f.name])[..|dir|] == dir;
      ghost var before := fs.nodes;
      var ok := fs.WriteFile(dir + [f.name], content.value, mode);
      if !ok {
        return Some(Refused(dir + [f.name])), loaded;
      }
      AddLeaf(before, dir, built + loaded, e, StatFile(content.value, mode));
      PrependNext(loaded, e, LoadFiles(store.blobs, files[i + 1..], dir, fs.pathMax));
      OneMoreEntry(built, loaded, e);
      loaded := loaded + [e];
    }
    assert loaded + [] == loaded;
    err := None;
  }

  /** The second loop of Materialize. */
  method WriteSymlinks(symlinks: seq<Named<Text>>, fs: FileSystem, dir: Path, ghost built: Entries)
    returns (err: Option<Error>, ghost loaded: Entries)
    requires Reflects(fs.nodes, dir, built) && Fresh(built, symlinks) && Unique(symlinks)
    modifies fs`nodes
    ensures LoadSymlinks(symlinks, dir, fs.pathMax) == if err.None? then Ok(loaded) else Err(err.value)
    ensures err.None? ==> Reflects(fs.nodes, dir, built + loaded)
    ensures Untouched(old(fs.nodes), fs.nodes, dir)
  {
    loaded := [];
    assert symlinks[0..] == symlinks && built + [] == built;
    ghost var all := LoadSymlinks(symlinks, dir, fs.pathMax);
    PrependNone(all);
    for i := 0 to |symlinks|
      invariant Reflects(fs.nodes, dir, built + loaded) && Fresh(built + loaded, symlinks[i..]) && Unique(symlinks[i..])
      invariant all == PrependAll(loaded, LoadSymlinks(symlinks[i..], dir, fs.pathMax))
      invariant Untouched(old(fs.nodes), fs.nodes, dir)
    {
      var l := symlinks[i];
      assert symlinks[i..][0] == l && symlinks[i..][1..] == symlinks[i + 1..];
      if !LegalName(l.name) {
        return Some(BadName(l.name)), loaded;
      }
      ghost var e := Named(l.name, Symlink(l.value));
      FreshNext(built + loaded, symlinks[i..], e);
      VacantChild(fs.nodes, dir, built + loaded, l.name);
      ReflectsDirectory(fs.nodes, dir, built + loaded);
      assert (dir + [l.name])[..|dir|] == dir;
      ghost var before := fs.nodes;
      var ok := fs.Symlink(l.value, dir + [l.name]);
      if !ok {
        return Some(Refused(dir + [l.name])), loaded;
      }
      AddLeaf(before, dir, built + loaded, e, StatSymlink(l.value));
      PrependNext(loaded, e, LoadSymlinks(symlinks[i + 1..], dir, fs.pathMax));
      OneMoreEntry(built, loaded, e);
      loaded := loaded + [e];
    }
    assert loaded + [] == loaded;
    err := None;
  }

  ghost predicate Unambiguous<T>(r: Result<T>) {
    r.Err? ==> !r.error.Ambiguous?
  }

  /** There is room for a new subdirectory, and its path is longer. */
  lemma RoomBelow(nodes: Nodes, dir: Path, built: Entries, n: Text)
    requires Reflects(nodes, dir, built) && Find(built, n).None?
    ensures ParentExists(nodes, dir + [n]) && Vacant(nodes, dir + [n]) && dir + [n] !in nodes
    ensures PathLength(dir + [n]) > PathLength(dir)
  {
    assert (dir + [n])[..|dir|] == dir;
    VacantChild(nodes, dir, built, n);
    ReflectsDirectory(nodes, dir, built);
    DeeperPath(dir, n);
  }

  /** What the call of Materialize for a subdirectory means for its parent. */
  lemma SubdirectoryWritten(before: Nodes, after: Nodes, m: Cas.Blobs, sub: Named<Digest>, max: nat, dir: Path,
      built: Entries, err: Option<Error>, tree: Entries)
    requires LegalName(sub.name) && Reflects(before, dir, built) && Find(built, sub.name).None?
    requires Untouched(before, after, dir + [sub.name])
    requires err.None? ==> Reflects(after, dir + [sub.name], tree)
    requires !Creatable(max, dir + [sub.name]) ==> err == Some(Refused(dir + [sub.name]))
    requires Creatable(max, dir + [sub.name]) ==>
      Load(m, sub.value, dir + [sub.name], max) == if err.None? then Ok(tree) else Err(err.value)
    ensures LoadDirectory(m, sub, dir, max) ==
      if err.None? then Ok(Named(sub.name, Dir(tree))) else Err(err.value)
    ensures err.None? ==> Reflects(after, dir, built + [Named(sub.name, Dir(tree))])
    ensures Untouched(before, after, dir)
  {
    UntouchedAbove(before, after, dir, sub.name);
    if err.None? {
      AddSubtree(before, after, dir, built, sub.name, tree);
    }
  }

  /** The body of the third loop: one subdirectory. */
  method WriteDirectory(store: Cas.Store, sub: Named<Digest>, fs: FileSystem, dir: Path, ghost built: Entries)
    returns (err: Option<Error>, ghost e: Named<Node>)
    requires Reflects(fs.nodes, dir, built) && Find(built, sub.name).None? && Creatable(fs.pathMax, dir)
    requires Unambiguous(LoadDirectory(store.blobs, sub, dir, fs.pathMax))
    modifies fs`nodes
    ensures LoadDirectory(store.blobs, sub, dir, fs.pathMax) == if err.None? then Ok(e) else Err(err.value)
    ensures err.None? ==> Reflects(fs.nodes, dir, built + [e])
    ensures e.name == sub.name
    ensures Untouched(old(fs.nodes), fs.nodes, dir)
    decreases fs.pathMax - PathLength(dir), 0
  {
    e := Named(sub.name, Dir([]));
    if !LegalName(sub.name) {
      return Some(BadName(sub.name)), e;
    }
    var path := dir + [sub.name];
    RoomBelow(fs.nodes, dir, built, sub.name);
    ghost var tree;
    err, tree := Materialize(store, sub.value, fs, path);
    SubdirectoryWritten(old(fs.nodes), fs.nodes, store.blobs, sub, fs.pathMax, dir, built, err, tree);
    if err.None? {
      e := Named(sub.name, Dir(tree));
    }
  }

  /** How the third loop's outcome depends on its next subdirectory. */
  lemma DirectoriesNext(m: Cas.Blobs, ds: seq<Named<Digest>>, i: nat, dir: Path, max: nat, loaded: Entries)
    requires i < |ds|
    ensures PrependAll(loaded, LoadDirectories(m, ds[i..], dir, max)) ==
      match LoadDirectory(m, ds[i], dir, max)
      case Err(e) => Err(e)
      case Ok(e) => PrependAll(loaded + [e], LoadDirectories(m, ds[i + 1..], dir, max))
  {
    assert ds[i..][0] == ds[i] && ds[i..][1..] == ds[i + 1..];
    match LoadDirectory(m, ds[i], dir, max)
    case Err(_) =>
    case Ok(e) => PrependNext(loaded, e, LoadDirectories(m, ds[i + 1..], dir, max));
  }

  lemma FreshAt<T>(built: Entries, loaded: Entries, list: seq<Named<T>>, i: nat, e: Named<Node>)
    requires i < |list| && Fresh(built + loaded, list[i..]) && Unique(list[i..]) && e.name == list[i].name
    ensures Find(built + loaded, e.name).None?
    ensures Fresh(built + (loaded + [e]), list[i + 1..]) && Unique(list[i + 1..])
  {
    assert list[i..][0] == list[i] && list[i..][1..] == list[i + 1..];
    FreshNext(built + loaded, list[i..], e);
    assert built + loaded + [e] == built + (loaded + [e]);
  }

  /** The third loop of Materialize. */
  method WriteDirectories(store: Cas.Store, directories: seq<Named<Digest>>, fs: FileSystem, dir: Path,
      ghost built: Entries)
    returns (err: Option<Error>, ghost loaded: Entries)
    requires Reflects(fs.nodes, dir, built) && Fresh(built, directories) && Unique(directories)
    requires Unambiguous(LoadDirectories(store.blobs, directories, dir, fs.pathMax))
    requires Creatable(fs.pathMax, dir)
    modifies fs`nodes
    ensures LoadDirectories(store.blobs, directories, dir, fs.pathMax) ==
      if err.None? then Ok(loaded) else Err(err.value)
    ensures err.None? ==> Reflects(fs.nodes, dir, built + loaded)
    ensures Untouched(old(fs.nodes), fs.nodes, dir)
    decreases fs.pathMax - PathLength(dir), 1
  {
    loaded := [];
    assert directories[0..] == directories && built + [] == built;
    ghost var all := LoadDirectories(store.blobs, directories, dir, fs.pathMax);
    PrependNone(all);
    for i := 0 to |directories|
      invariant Reflects(fs.nodes, dir, built + loaded)
      invariant Fresh(built + loaded, directories[i..]) && Unique(directories[i..])
      invariant all == PrependAll(loaded, LoadDirectories(store.blobs, directories[i..], dir, fs.pathMax))
      invariant Untouched(old(fs.nodes), fs.nodes, dir)
    {
      var sub := directories[i];
      DirectoriesNext(store.blobs, directories, i, dir, fs.pathMax, loaded);
      FreshAt(built, loaded, directories, i, Named(sub.name, Dir([])));
      ghost var e;
      err, e := WriteDirectory(store, sub, fs, dir, built + loaded);
      if err.Some? {
        return;
      }
      FreshAt(built, loaded, directories, i, e);
      OneMoreEntry(built, loaded, e);
      loaded := loaded + [e];
    }
    assert loaded + [] == loaded;
    err := None;
  }

  /** The three loops of Materialize. */
  method WriteMessage(store: Cas.Store, msg: Directory, fs: FileSystem, dir: Path)
    returns (err: Option<Error>, ghost tree: Entries)
    requires Reflects(fs.nodes, dir, []) && Distinct(msg) && Creatable(fs.pathMax, dir)
    requires Unambiguous(LoadMessage(store.blobs, msg, dir, fs.pathMax))
    modifies fs`nodes
    ensures LoadMessage(store.blobs, msg, dir, fs.pathMax) == if err.None? then Ok(tree) else Err(err.value)
    ensures err.None? ==> Reflects(fs.nodes, dir, tree)
    ensures Untouched(old(fs.nodes), fs.nodes, dir)
    decreases fs.pathMax - PathLength(dir), 2
  {
    tree := [];
    ghost var files, symlinks, directories;
    err, files := WriteFiles(store, msg.files, fs, dir, []);
    if err.Some? {
      return;
    }
    assert [] + files == files;
    FreshAfterFiles(store.blobs, msg, files, dir, fs.pathMax);
    err, symlinks := WriteSymlinks(msg.symlinks, fs, dir, files);
    if err.Some? {
      return;
    }
    FreshAfterSymlinks(msg, files, symlinks, dir, fs.pathMax);
    err, directories := WriteDirectories(store, msg.directories, fs, dir, files + symlinks);
    tree := files + symlinks + directories;
  }

  /** Materialize.  On success exactly the tree that the digest stands for is below `dir`; otherwise the
      error is the first one met; either way nothing outside `dir` changes. */
  method Materialize(store: Cas.Store, root: Digest, fs: FileSystem, dir: Path)
    returns (err: Option<Error>, ghost tree: Entries)
    requires ParentExists(fs.nodes, dir) && Vacant(fs.nodes, dir)
    requires dir in fs.nodes ==> Creatable(fs.pathMax, dir)
    requires Creatable(fs.pathMax, dir) ==> Unambiguous(Load(store.blobs, root, dir, fs.pathMax))
    modifies fs`nodes
    ensures !Creatable(fs.pathMax, dir) ==> err == Some(Refused(dir))
    ensures Creatable(fs.pathMax, dir) ==>
      Load(store.blobs, root, dir, fs.pathMax) == if err.None? then Ok(tree) else Err(err.value)
    ensures err.None? ==> Reflects(fs.nodes, dir, tree)
    ensures Untouched(old(fs.nodes), fs.nodes, dir)
    decreases fs.pathMax - PathLength(dir), 3
  {
    tree := [];
    assert dir + [] == dir;
    assert NodeAt(fs.nodes, dir + []) == None || NodeAt(fs.nodes, dir + []) == Some(StatDir);
    var ok := fs.MkdirAll(dir);
    if !ok {
      return Some(Refused(dir)), tree;
    }
    EmptyDirectory(old(fs.nodes), dir);
    var data := store.Get(root);
    if data.None? {
      return Some(MissingBlob(root)), tree;
    }
    var d := UnmarshalDirectory(data.value);
    if d.None? {
      return Some(Malformed(root)), tree;
    }
    err, tree := WriteMessage(store, d.value, fs, dir);
  }

  lemma EmptyDirectory(nodes: Nodes, dir: Path)
    requires Vacant(nodes, dir)
    ensures Reflects(nodes[dir := StatDir], dir, [])
    ensures Untouched(nodes, nodes[dir := StatDir], dir)
  {
    forall p ensures NodeAt(nodes[dir := StatDir], dir + p) == At([], p) {
      if p == [] {
        assert dir + p == dir;
      } else {
        assert dir + p != dir;
        assert NodeAt(nodes, dir + p) == None;
      }
    }
  }

  lemma {:induction false} LoadedFileNames(m: Cas.Blobs, fs: seq<Named<FileRef>>, dir: Path, max: nat, n: Text)
    requires LoadFiles(m, fs, dir, max).Ok?
    ensures var r := LoadFiles(m, fs, dir, max).value; match Find(fs, n)
      case None => Find(r, n).None?
      case Some(f) =>
        && Cas.Lookup(m, f.digest).Some?
        && Find(r, n) == Some(File(Cas.Lookup(m, f.digest).value, MaterializedMode(f.executable)))
  {
    if fs != [] {
      LoadedFileNames(m, fs[1..], dir, max, n);
      var r := LoadFiles(m, fs, dir, max).value;
      assert r[1..] == LoadFiles(m, fs[1..], dir, max).value;
    }
  }

  lemma {:induction false} LoadedSymlinkNames(ls: seq<Named<Text>>, dir: Path, max: nat, n: Text)
    requires LoadSymlinks(ls, dir, max).Ok?
    ensures var r := LoadSymlinks(ls, dir, max).value; match Find(ls, n)
      case None => Find(r, n).None?
      case Some(target) => Find(r, n) == Some(Symlink(target))
  {
    if ls != [] {
      LoadedSymlinkNames(ls[1..], dir, max, n);
      var r := LoadSymlinks(ls, dir, max).value;
      assert r[1..] == LoadSymlinks(ls[1..], dir, max).value;
    }
  }

  lemma FreshAfterFiles(m: Cas.Blobs, msg: Directory, files: Entries, dir: Path, max: nat)
    requires Distinct(msg) && LoadFiles(m, msg.files, dir, max) == Ok(files)
    ensures Fresh(files, msg.symlinks) && Fresh(files, msg.directories)
  {
    forall n ensures Find(files, n).Some? ==> Find(msg.symlinks, n).None? && Find(msg.directories, n).None? {
      LoadedFileNames(m, msg.files, dir, max, n);
    }
  }

  lemma FreshAfterSymlinks(msg: Directory, files: Entries, symlinks: Entries, dir: Path, max: nat)
    requires Distinct(msg) && Fresh(files, msg.directories) && LoadSymlinks(msg.symlinks, dir, max) == Ok(symlinks)
    ensures Fresh(files + symlinks, msg.directories)
  {
    forall n | Find(msg.directories, n).Some? ensures Find(files + symlinks, n).None? {
      LoadedSymlinkNames(msg.symlinks, dir, max, n);
      FindAppend(files, symlinks, n);
    }
  }

  // ---- The first error, without loops ----

  /** Why this file cannot be written: its name first, then its blob, then the write. */
  function FileFault(m: Cas.Blobs, f: Named<FileRef>, dir: Path, max: nat): Option<Error> {
    if !LegalName(f.name) then Some(BadName(f.name))
    else if Cas.Lookup(m, f.value.digest).None? then Some(MissingBlob(f.value.digest))
    else if !Creatable(max, dir + [f.name]) then Some(Refused(dir + [f.name]))
    else None
  }

  function SymlinkFault(l: Named<Text>, dir: Path, max: nat): Option<Error> {
    if !LegalName(l.name) then Some(BadName(l.name))
    else if !Linkable(l.value) || !Creatable(max, dir + [l.name]) then Some(Refused(dir + [l.name]))
    else None
  }

  ghost function SubdirectoryFault(m: Cas.Blobs, d: Named<Digest>, dir: Path, max: nat): Option<Error> {
    if LoadDirectory(m, d, dir, max).Err? then Some(LoadDirectory(m, d, dir, max).error) else None
  }

  /** The i-th of the entries, counted through files, symlinks and directories, is at fault in this way. */
  ghost function FaultAt(m: Cas.Blobs, msg: Directory, i: nat, dir: Path, max: nat): Option<Error>
    requires i < |msg.files| + |msg.symlinks| + |msg.directories|
  {
    var links, subs := |msg.files|, |msg.files| + |msg.symlinks|;
    if i < links then FileFault(m, msg.files[i], dir, max)
    else if i < subs then SymlinkFault(msg.symlinks[i - links], dir, max)
    else SubdirectoryFault(m, msg.directories[i - subs], dir, max)
  }

  /** A list fails with the fault of its first faulty entry. */
  lemma {:induction false} FilesFault(m: Cas.Blobs, fs: seq<Named<FileRef>>, dir: Path, max: nat) returns (i: nat)
    ensures i <= |fs| && forall j :: 0 <= j < i ==> FileFault(m, fs[j], dir, max).None?
    ensures match LoadFiles(m, fs, dir, max)
      case Ok(_) => i == |fs|
      case Err(e) => i < |fs| && FileFault(m, fs[i], dir, max) == Some(e)
  {
    if fs == [] || FileFault(m, fs[0], dir, max).Some? {
      i := 0;
    } else {
      i := FilesFault(m, fs[1..], dir, max);
      i := i + 1;
    }
  }

  lemma {:induction false} SymlinksFault(ls: seq<Named<Text>>, dir: Path, max: nat) returns (i: nat)
    ensures i <= |ls| && forall j :: 0 <= j < i ==> SymlinkFault(ls[j], dir, max).None?
    ensures match LoadSymlinks(ls, dir, max)
      case Ok(_) => i == |ls|
      case Err(e) => i < |ls| && SymlinkFault(ls[i], dir, max) == Some(e)
  {
    if ls == [] || SymlinkFault(ls[0], dir, max).Some? {
      i := 0;
    } else {
      i := SymlinksFault(ls[1..], dir, max);
      i := i + 1;
    }
  }

  lemma {:induction false} SubdirectoriesFault(m: Cas.Blobs, ds: seq<Named<Digest>>, dir: Path, max: nat)
    returns (i: nat)
    ensures i <= |ds| && forall j :: 0 <= j < i ==> SubdirectoryFault(m, ds[j], dir, max).None?
    ensures match LoadDirectories(m, ds, dir, max)
      case Ok(_) => i == |ds|
      case Err(e) => i < |ds| && SubdirectoryFault(m, ds[i], dir, max) == Some(e)
  {
    if ds == [] || SubdirectoryFault(m, ds[0], dir, max).Some? {
      i := 0;
    } else {
      i := SubdirectoriesFault(m, ds[1..], dir, max);
      i := i + 1;
    }
  }

  ghost predicate FirstFault(m: Cas.Blobs, msg: Directory, i: nat, e: Error, dir: Path, max: nat) {
    && i < |msg.files| + |msg.symlinks| + |msg.directories| && FaultAt(m, msg, i, dir, max) == Some(e)
    && forall j :: 0 <= j < i ==> FaultAt(m, msg, j, dir, max).None?
  }

  /** Materialize stops at the first fault in the order files, symlinks, directories, and with that error. */
  lemma FirstErrorMet(m: Cas.Blobs, msg: Directory, dir: Path, max: nat)
    ensures LoadMessage(m, msg, dir, max).Err? ==>
      exists i: nat :: FirstFault(m, msg, i, LoadMessage(m, msg, dir, max).error, dir, max)
    ensures LoadMessage(m, msg, dir, max).Ok? ==>
      forall i :: 0 <= i < |msg.files| + |msg.symlinks| + |msg.directories| ==> FaultAt(m, msg, i, dir, max).None?
  {
    var i := FilesFault(m, msg.files, dir, max);
    var k := SymlinksFault(msg.symlinks, dir, max);
    var n := SubdirectoriesFault(m, msg.directories, dir, max);
    if LoadMessage(m, msg, dir, max).Err? {
      var at: nat := if i < |msg.files| then i else if k < |msg.symlinks| then i + k else i + k + n;
      assert FirstFault(m, msg, at, LoadMessage(m, msg, dir, max).error, dir, max);
    }
  }
}
