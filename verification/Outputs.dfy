/** What the executor agent reports of a finished command (cmd/executor-agent/main.go: attachStream,
    captureOutputs, outputPaths): an ActionResult whose every digest must resolve. */
module Outputs {
  import opened Digests
  import Cas
  import opened Trees
  import opened Capture

  datatype Command = Command(outputPaths: seq<Text>, outputFiles: seq<Text>, outputDirectories: seq<Text>)

  /** REAPI v2.1 output_paths when there are any, otherwise the two fields it replaced. */
  function OutputPaths(c: Command): (paths: seq<Text>)
    ensures forall p :: p in paths <==>
      p in c.outputPaths || (|c.outputPaths| == 0 && (p in c.outputFiles || p in c.outputDirectories))
  {
    if c.outputPaths != [] then c.outputPaths else c.outputFiles + c.outputDirectories
  }

  /** What lstat, and then the read it leads to, give for an output path. */
  datatype Seen = Missing | Fault | Found(node: Node)

  /** The command's directory after the command. */
  type Disk = Text -> Seen

  /** The directories on a disk hold legal unique names and no empty symlink. */
  ghost predicate WellFormedDisk(disk: Disk) {
    forall p :: disk(p).Found? && disk(p).node.Dir? ==> WellFormed(disk(p).node.entries)
  }

  // ---- The result, as a function of the disk ----

  function FileEntry(sha: HashFn, p: Text, content: Bytes, mode: Mode): Cas.OutputFile {
    Cas.OutputFile(p, FromBytes(sha, content), IsExecutable(mode))
  }

  function DirectoryEntry(sha: HashFn, p: Text, es: Entries): Cas.OutputDirectory {
    Cas.OutputDirectory(p, FromBytes(sha, TreeBytesOf(sha, es)), DigestOf(sha, es))
  }

  function Added(sha: HashFn, ar: Cas.ActionResult, p: Text, seen: Seen): Cas.ActionResult {
    match seen
    case Found(Symlink(target)) => ar.(symlinks := ar.symlinks + [Cas.OutputSymlink(p, target)])
    case Found(Dir(es)) => ar.(directories := ar.directories + [DirectoryEntry(sha, p, es)])
    case Found(File(content, mode)) => ar.(files := ar.files + [FileEntry(sha, p, content, mode)])
    case _ => ar
  }

  function Collected(sha: HashFn, ar: Cas.ActionResult, disk: Disk, paths: seq<Text>): Cas.ActionResult {
    if paths == [] then ar
    else
      var p := paths[|paths| - 1];
      Added(sha, Collected(sha, ar, disk, paths[..|paths| - 1]), p, disk(p))
  }

  /** The puts that one output path takes. */
  function PathSteps(seen: Seen): seq<Step> {
    match seen
    case Found(Dir(es)) => CaptureSteps(es)
    case Found(File(content, _)) => [PutFile(content)]
    case _ => []
  }

  function OutputSteps(disk: Disk, paths: seq<Text>): seq<Step> {
    if paths == [] then []
    else OutputSteps(disk, paths[..|paths| - 1]) + PathSteps(disk(paths[|paths| - 1]))
  }

  /** The outputs can all be read, and marshal. */
  ghost predicate Capturable(disk: Disk, paths: seq<Text>) {
    forall p :: p in paths ==> disk(p) != Fault && Marshals(disk(p))
  }

  predicate Marshals(seen: Seen) {
    seen.Found? && seen.node.Dir? ==> Encodable(seen.node.entries)
  }

  lemma OneMorePath(paths: seq<Text>, i: nat)
    requires i < |paths|
    ensures paths[..i + 1][..i] == paths[..i] && |paths[..i + 1]| == i + 1 && paths[..i + 1][i] == paths[i]
  {
  }

  lemma {:induction false} StepsOfPrefix(disk: Disk, paths: seq<Text>, n: nat)
    requires n <= |paths|
    ensures OutputSteps(disk, paths[..n]) <= OutputSteps(disk, paths)
    decreases |paths|
  {
    if n == |paths| {
      assert paths[..n] == paths;
    } else {
      var front := paths[..|paths| - 1];
      assert front[..n] == paths[..n];
      StepsOfPrefix(disk, front, n);
    }
  }

  // ---- The result as the agent builds it ----

  class ResultBuilder {
    const exitCode: int
    var stdout: Option<Digest>
    var stderr: Option<Digest>
    var files: seq<Cas.OutputFile>
    var directories: seq<Cas.OutputDirectory>
    var symlinks: seq<Cas.OutputSymlink>

    ghost function View(): Cas.ActionResult
      reads this
    {
      Cas.ActionResult(exitCode, stdout, stderr, files, directories, symlinks)
    }

    constructor (exitCode: int)
      ensures View() == Cas.ActionResult(exitCode, None, None, [], [], [])
    {
      this.exitCode, stdout, stderr := exitCode, None, None;
      files, directories, symlinks := [], [], [];
    }

    /** attachStream: stdout or stderr is put and its digest recorded. */
    method AttachStream(sha: HashFn, store: Cas.Store, data: Bytes, isStderr: bool)
      returns (ok: bool, ghost done: seq<Step>)
      modifies this`stdout, this`stderr, store`blobs
      ensures store.blobs == Replay(sha, old(store.blobs), done) && done <= [PutFile(data)]
      ensures store.reliable ==> ok
      ensures ok ==> done == [PutFile(data)]
      ensures View() ==
        if !ok then old(View())
        else if isStderr then old(View()).(stderr := Some(FromBytes(sha, data)))
        else old(View()).(stdout := Some(FromBytes(sha, data)))
    {
      done := [];
      var d := Upload(sha, store, old(store.blobs), done, PutFile(data), data);
      if d.None? {
        return false, done;
      }
      done := [PutFile(data)];
      if isStderr {
        stderr := d;
      } else {
        stdout := d;
      }
      ok := true;
    }

    /** Both streams. */
    method AttachStreams(sha: HashFn, store: Cas.Store, out: Bytes, err: Bytes) returns (ok: bool,
        ghost done: seq<Step>)
      modifies this`stdout, this`stderr, store`blobs
      ensures store.blobs == Replay(sha, old(store.blobs), done) && done <= [PutFile(out), PutFile(err)]
      ensures store.reliable ==> ok
      ensures ok ==> done == [PutFile(out), PutFile(err)]
      ensures ok ==> View() == old(View()).(stdout := Some(FromBytes(sha, out)), stderr := Some(FromBytes(sha, err)))
    {
      ok, done := AttachStream(sha, store, out, false);
      if ok {
        ghost var part: seq<Step>;
        ok, part := AttachStream(sha, store, err, true);
        ReplayAppend(sha, old(store.blobs), done, part);
        done := done + part;
      }
    }

    /** The switch of captureOutputs on one path. */
    method CapturePath(sha: HashFn, store: Cas.Store, p: Text, seen: Seen) returns (ok: bool, ghost done: seq<Step>)
      requires seen.Found? && seen.node.Dir? ==> WellFormed(seen.node.entries)
      modifies this`files, this`directories, this`symlinks, store`blobs
      ensures store.blobs == Replay(sha, old(store.blobs), done) && done <= PathSteps(seen)
      ensures ok ==> done == PathSteps(seen) && View() == Added(sha, old(View()), p, seen)
      ensures ok ==> seen != Fault && Marshals(seen)
      ensures !ok && store.reliable ==> seen == Fault || !Marshals(seen)
    {
      done := [];
      match seen {
        case Missing => return true, done;
        case Fault => return false, done;
        case Found(Symlink(target)) =>
          symlinks := symlinks + [Cas.OutputSymlink(p, target)];
        case Found(Dir(es)) =>
          var od;
          od, done := CaptureDirectory(sha, store, p, es);
          if od.None? {
            return false, done;
          }
          directories := directories + [od.value];
        case Found(File(content, mode)) =>
          var of := CaptureFile(sha, store, p, content, IsExecutable(mode));
          if of.None? {
            return false, done;
          }
          done := [PutFile(content)];
          files := files + [of.value];
      }
      ok := true;
    }

    /** captureOutputs.  `done` records the puts that went through: all of them when it succeeds, a prefix
        when it stops at an output that cannot be read, marshalled or put. */
    method CaptureOutputs(sha: HashFn, store: Cas.Store, command: Command, disk: Disk)
      returns (ok: bool, ghost done: seq<Step>)
      requires WellFormedDisk(disk)
      modifies this`files, this`directories, this`symlinks, store`blobs
      ensures store.blobs == Replay(sha, old(store.blobs), done) && done <= OutputSteps(disk, OutputPaths(command))
      ensures ok ==> done == OutputSteps(disk, OutputPaths(command))
      ensures ok ==> View() == Collected(sha, old(View()), disk, OutputPaths(command))
      ensures store.reliable ==> (ok <==> Capturable(disk, OutputPaths(command)))
    {
      var paths := OutputPaths(command);
      done := [];
      for i := 0 to |paths|
        invariant store.blobs == Replay(sha, old(store.blobs), done)
        invariant done == OutputSteps(disk, paths[..i])
        invariant View() == Collected(sha, old(View()), disk, paths[..i])
        invariant Capturable(disk, paths[..i])
      {
        OneMorePath(paths, i);
        StepsOfPrefix(disk, paths, i + 1);
        ghost var part;
        ok, part := CapturePath(sha, store, paths[i], disk(paths[i]));
        ReplayAppend(sha, old(store.blobs), done, part);
        if !ok {
          done := done + part;
          return;
        }
        done := done + part;
      }
      assert paths[..|paths|] == paths;
      ok := true;
    }
  }

  /** The puts behind a whole result. */
  function ResultSteps(stdout: Bytes, stderr: Bytes, disk: Disk, paths: seq<Text>): seq<Step> {
    [PutFile(stdout), PutFile(stderr)] + OutputSteps(disk, paths)
  }

  /** The result before any output is captured. */
  function WithStreams(sha: HashFn, exitCode: int, stdout: Bytes, stderr: Bytes): Cas.ActionResult {
    Cas.ActionResult(exitCode, Some(FromBytes(sha, stdout)), Some(FromBytes(sha, stderr)), [], [], [])
  }

  function ResultOf(sha: HashFn, exitCode: int, stdout: Bytes, stderr: Bytes, disk: Disk,
      paths: seq<Text>): Cas.ActionResult {
    Collected(sha, WithStreams(sha, exitCode, stdout, stderr), disk, paths)
  }

  /** The end of the agent's run: both streams, then the outputs. */
  method BuildResult(sha: HashFn, store: Cas.Store, exitCode: int, stdout: Bytes, stderr: Bytes, command: Command,
      disk: Disk)
    returns (r: Option<Cas.ActionResult>, ghost done: seq<Step>)
    requires WellFormedDisk(disk)
    modifies store`blobs
    ensures store.blobs == Replay(sha, old(store.blobs), done)
    ensures done <= ResultSteps(stdout, stderr, disk, OutputPaths(command))
    ensures r.Some? ==> done == ResultSteps(stdout, stderr, disk, OutputPaths(command))
    ensures r.Some? ==> r.value == ResultOf(sha, exitCode, stdout, stderr, disk, OutputPaths(command))
    ensures store.reliable ==> (r.Some? <==> Capturable(disk, OutputPaths(command)))
  {
    var ar := new ResultBuilder(exitCode);
    var ok: bool;
    ok, done := ar.AttachStreams(sha, store, stdout, stderr);
    if !ok {
      return None, done;
    }
    ghost var part: seq<Step>;
    ok, part := ar.CaptureOutputs(sha, store, command, disk);
    ReplayAppend(sha, old(store.blobs), done, part);
    done := done + part;
    if !ok {
      return None, done;
    }
    r := Some(Cas.ActionResult(ar.exitCode, ar.stdout, ar.stderr, ar.files, ar.directories, ar.symlinks));
  }

  // ---- What the result says of the disk ----

  /** The result lists exactly what is at the output paths: each by its kind, with its digests. */
  ghost predicate Accounts(sha: HashFn, ar: Cas.ActionResult, disk: Disk, paths: seq<Text>) {
    && (forall f :: f in ar.files <==>
          && f.path in paths && disk(f.path).Found? && disk(f.path).node.File?
          && f.digest == FromBytes(sha, disk(f.path).node.content)
          && (f.executable <==> SomebodyExecutes(disk(f.path).node.mode)))
    && (forall d :: d in ar.directories <==>
          && d.path in paths && disk(d.path).Found? && disk(d.path).node.Dir?
          && d == DirectoryEntry(sha, d.path, disk(d.path).node.entries))
    && (forall l :: l in ar.symlinks <==>
          && l.path in paths && disk(l.path).Found? && disk(l.path).node.Symlink?
          && l == Cas.OutputSymlink(l.path, disk(l.path).node.target))
  }

  lemma {:induction false} ResultAccounts(sha: HashFn, ar: Cas.ActionResult, disk: Disk, paths: seq<Text>)
    requires ar.files == [] && ar.directories == [] && ar.symlinks == []
    ensures Accounts(sha, Collected(sha, ar, disk, paths), disk, paths)
    decreases |paths|
  {
    if paths != [] {
      var front, p := paths[..|paths| - 1], paths[|paths| - 1];
      ResultAccounts(sha, ar, disk, front);
      assert paths == front + [p];
      if disk(p).Found? && disk(p).node.File? {
        FlagBits(disk(p).node.mode, false);
      }
    }
  }

  datatype Kind = AFile | ADirectory | ASymlink

  function KindOf(seen: Seen): Option<Kind> {
    match seen
    case Found(File(_, _)) => Some(AFile)
    case Found(Dir(_)) => Some(ADirectory)
    case Found(Symlink(_)) => Some(ASymlink)
    case _ => None
  }

  /** The paths at which there is something of this kind, in order. */
  function OfKind(disk: Disk, paths: seq<Text>, kind: Kind): seq<Text> {
    if paths == [] then []
    else
      var p := paths[|paths| - 1];
      OfKind(disk, paths[..|paths| - 1], kind) + if KindOf(disk(p)) == Some(kind) then [p] else []
  }

  function FilePaths(fs: seq<Cas.OutputFile>): seq<Text> {
    seq(|fs|, i requires 0 <= i < |fs| => fs[i].path)
  }

  function DirectoryPaths(ds: seq<Cas.OutputDirectory>): seq<Text> {
    seq(|ds|, i requires 0 <= i < |ds| => ds[i].path)
  }

  function SymlinkPaths(ls: seq<Cas.OutputSymlink>): seq<Text> {
    seq(|ls|, i requires 0 <= i < |ls| => ls[i].path)
  }

  /** The result lists the outputs of each kind in the order they were asked for, as often as they were. */
  lemma {:induction false} ResultInOrder(sha: HashFn, ar: Cas.ActionResult, disk: Disk, paths: seq<Text>)
    requires ar.files == [] && ar.directories == [] && ar.symlinks == []
    ensures var r := Collected(sha, ar, disk, paths);
      && FilePaths(r.files) == OfKind(disk, paths, AFile)
      && DirectoryPaths(r.directories) == OfKind(disk, paths, ADirectory)
      && SymlinkPaths(r.symlinks) == OfKind(disk, paths, ASymlink)
    decreases |paths|
  {
    if paths != [] {
      ResultInOrder(sha, ar, disk, paths[..|paths| - 1]);
    }
  }

  // ---- Everything in the result resolves ----

  lemma {:induction false} OutputsBottomUp(disk: Disk, paths: seq<Text>)
    ensures BottomUp(OutputSteps(disk, paths))
    decreases |paths|
  {
    if paths != [] {
      var front, seen := paths[..|paths| - 1], disk(paths[|paths| - 1]);
      OutputsBottomUp(disk, front);
      if seen.Found? && seen.node.Dir? {
        CaptureBottomUp(seen.node.entries);
      }
      BottomUpConcat(OutputSteps(disk, front), PathSteps(seen));
    }
  }

  lemma ResultBottomUp(stdout: Bytes, stderr: Bytes, disk: Disk, paths: seq<Text>)
    ensures BottomUp(ResultSteps(stdout, stderr, disk, paths))
  {
    OutputsBottomUp(disk, paths);
    BottomUpConcat([PutFile(stdout), PutFile(stderr)], OutputSteps(disk, paths));
  }

  lemma {:induction false} PathStepsPlanned(disk: Disk, paths: seq<Text>, p: Text, s: Step)
    requires p in paths && s in PathSteps(disk(p))
    ensures s in OutputSteps(disk, paths)
    decreases |paths|
  {
    var front, last := paths[..|paths| - 1], paths[|paths| - 1];
    assert paths == front + [last];
    if p != last {
      PathStepsPlanned(disk, front, p, s);
    }
  }

  /** The agent's result in a store: both streams resolve, and of every output that was found the file, or
      the whole tree and its Tree blob. */
  ghost predicate Resolves(sha: HashFn, m: Cas.Blobs, stdout: Bytes, stderr: Bytes, disk: Disk, paths: seq<Text>) {
    && Cas.Holds(sha, m, stdout) && Cas.Holds(sha, m, stderr)
    && forall p :: p in paths ==> PathResolves(sha, m, disk(p))
  }

  ghost predicate PathResolves(sha: HashFn, m: Cas.Blobs, seen: Seen) {
    match seen
    case Found(File(content, _)) => Cas.Holds(sha, m, content)
    case Found(Dir(es)) => Complete(sha, m, es) && Cas.Holds(sha, m, TreeBytesOf(sha, es))
    case _ => true
  }

  lemma RootSteps(es: Entries)
    ensures PutDirectory(es) in CaptureSteps(es) && PutTree(es) in CaptureSteps(es)
  {
    var below := EntrySteps(es);
    assert CaptureSteps(es)[|below|] == PutDirectory(es) && CaptureSteps(es)[|below| + 1] == PutTree(es);
  }

  lemma {:induction false} PlannedTreeResolves(sha: HashFn, m: Cas.Blobs, plan: seq<Step>, es: Entries)
    requires BottomUp(plan) && NoCollision(sha, BlobsOf(sha, plan))
    requires PutDirectory(es) in plan && PutTree(es) in plan
    ensures Complete(sha, Replay(sha, m, plan), es) && Cas.Holds(sha, Replay(sha, m, plan), TreeBytesOf(sha, es))
  {
    DoneHolds(sha, m, plan, plan, PutTree(es));
    var i :| 0 <= i < |plan| && plan[i] == PutDirectory(es);
    EveryPrefixComplete(sha, m, plan, plan, i);
  }

  lemma {:induction false} PlannedResolves(sha: HashFn, m: Cas.Blobs, plan: seq<Step>, seen: Seen)
    requires BottomUp(plan) && NoCollision(sha, BlobsOf(sha, plan))
    requires forall s :: s in PathSteps(seen) ==> s in plan
    ensures PathResolves(sha, Replay(sha, m, plan), seen)
  {
    match seen
    case Found(File(content, _)) =>
      assert PutFile(content) in PathSteps(seen);
      DoneHolds(sha, m, plan, plan, PutFile(content));
    case Found(Dir(es)) =>
      RootSteps(es);
      PlannedTreeResolves(sha, m, plan, es);
    case _ =>
  }

  /** On success every digest in the result resolves to what it was taken from, and so does everything below. */
  lemma {:induction false} ResultResolves(sha: HashFn, m: Cas.Blobs, stdout: Bytes, stderr: Bytes, disk: Disk,
      paths: seq<Text>)
    requires NoCollision(sha, BlobsOf(sha, ResultSteps(stdout, stderr, disk, paths)))
    ensures Resolves(sha, Replay(sha, m, ResultSteps(stdout, stderr, disk, paths)), stdout, stderr, disk, paths)
  {
    var plan := ResultSteps(stdout, stderr, disk, paths);
    ResultBottomUp(stdout, stderr, disk, paths);
    assert plan[0] == PutFile(stdout) && plan[1] == PutFile(stderr);
    DoneHolds(sha, m, plan, plan, PutFile(stdout));
    DoneHolds(sha, m, plan, plan, PutFile(stderr));
    forall p | p in paths ensures PathResolves(sha, Replay(sha, m, plan), disk(p)) {
      forall s | s in PathSteps(disk(p)) ensures s in plan {
        PathStepsPlanned(disk, paths, p, s);
      }
      PlannedResolves(sha, m, plan, disk(p));
    }
  }

  /** The agent's report, from the client's side: each digest in it can be fetched, and yields what was there. */
  ghost predicate Fetchable(sha: HashFn, m: Cas.Blobs, ar: Cas.ActionResult, disk: Disk) {
    && (forall f :: f in ar.files ==>
          disk(f.path).Found? && disk(f.path).node.File? && Cas.Lookup(m, f.digest) == Some(disk(f.path).node.content))
    && (forall d :: d in ar.directories ==>
          && disk(d.path).Found? && disk(d.path).node.Dir?
          && d.rootDigest == DigestOf(sha, disk(d.path).node.entries)
          && Complete(sha, m, disk(d.path).node.entries)
          && Cas.Lookup(m, d.treeDigest) == Some(TreeBytesOf(sha, disk(d.path).node.entries)))
  }

  lemma ResolvedIsFetchable(sha: HashFn, m: Cas.Blobs, ar: Cas.ActionResult, stdout: Bytes, stderr: Bytes, disk: Disk,
      paths: seq<Text>)
    requires Accounts(sha, ar, disk, paths) && Resolves(sha, m, stdout, stderr, disk, paths)
    ensures Fetchable(sha, m, ar, disk)
  {
    forall f | f in ar.files
      ensures disk(f.path).Found? && disk(f.path).node.File?
      ensures Cas.Lookup(m, f.digest) == Some(disk(f.path).node.content)
    {
      assert PathResolves(sha, m, disk(f.path));
    }
    forall d | d in ar.directories
      ensures disk(d.path).Found? && disk(d.path).node.Dir?
      ensures d.rootDigest == DigestOf(sha, disk(d.path).node.entries)
      ensures Complete(sha, m, disk(d.path).node.entries)
      ensures Cas.Lookup(m, d.treeDigest) == Some(TreeBytesOf(sha, disk(d.path).node.entries))
    {
      assert PathResolves(sha, m, disk(d.path));
    }
  }

  /** The whole end of a run: a result that is returned lists exactly what the command left at its output
      paths, and all of it, with both streams, can be fetched from the store; a run that fails leaves every
      Directory it has put complete. */
  method ReportedResultResolves(sha: HashFn, store: Cas.Store, exitCode: int, stdout: Bytes, stderr: Bytes,
      command: Command, disk: Disk)
    returns (r: Option<Cas.ActionResult>, ghost done: seq<Step>)
    requires WellFormedDisk(disk)
    requires NoCollision(sha, BlobsOf(sha, ResultSteps(stdout, stderr, disk, OutputPaths(command))))
    modifies store`blobs
    ensures r.Some? ==>
      && Accounts(sha, r.value, disk, OutputPaths(command)) && Fetchable(sha, store.blobs, r.value, disk)
      && r.value.stdout.Some? && Cas.Lookup(store.blobs, r.value.stdout.value) == Some(stdout)
      && r.value.stderr.Some? && Cas.Lookup(store.blobs, r.value.stderr.value) == Some(stderr)
      && r.value.exitCode == exitCode
    ensures forall i :: 0 <= i < |done| && done[i].PutDirectory? ==> Complete(sha, store.blobs, done[i].entries)
  {
    r, done := BuildResult(sha, store, exitCode, stdout, stderr, command, disk);
    ghost var paths := OutputPaths(command);
    ResultBottomUp(stdout, stderr, disk, paths);
    forall i | 0 <= i < |done| && done[i].PutDirectory?
      ensures Complete(sha, store.blobs, done[i].entries)
    {
      EveryPrefixComplete(sha, old(store.blobs), ResultSteps(stdout, stderr, disk, paths), done, i);
    }
    if r.Some? {
      StreamsKept(sha, WithStreams(sha, exitCode, stdout, stderr), disk, paths);
      ResultAccounts(sha, WithStreams(sha, exitCode, stdout, stderr), disk, paths);
      ResultResolves(sha, old(store.blobs), stdout, stderr, disk, paths);
      ResolvedIsFetchable(sha, store.blobs, r.value, stdout, stderr, disk, paths);
    }
  }

  lemma {:induction false} StreamsKept(sha: HashFn, ar: Cas.ActionResult, disk: Disk, paths: seq<Text>)
    ensures var c := Collected(sha, ar, disk, paths);
      c.stdout == ar.stdout && c.stderr == ar.stderr && c.exitCode == ar.exitCode
    decreases |paths|
  {
    if paths != [] {
      StreamsKept(sha, ar, disk, paths[..|paths| - 1]);
    }
  }
}
