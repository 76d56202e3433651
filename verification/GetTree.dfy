/** Streaming a stored directory tree in pages (internal/server/cas_service.go: GetTree). */
module GetTree {
  import opened Digests
  import opened Named
  import opened Wire
  import Cas
  import opened Trees
  import opened Breadth

  const PAGE_SIZE: nat := 100

  // ---- Level by level ----

  function Values<T>(s: seq<Named<T>>): (r: seq<T>)
    ensures |r| == |s|
    ensures forall i :: 0 <= i < |s| ==> r[i] == s[i].value
  {
    if s == [] then [] else [s[0].value] + Values(s[1..])
  }

  /** A way of resolving Directory digests. */
  type Fetcher = Digest -> Option<Directory>

  /** Resolving them in a store. */
  function FetchIn(m: Cas.Blobs): Fetcher {
    d => FetchDirectory(m, d)
  }

  /** The digests of the directories directly below one. */
  function ChildrenIn(fetch: Fetcher): Digest -> seq<Digest> {
    d => match fetch(d)
      case None => []
      case Some(msg) => Values(msg.directories)
  }

  /** The directories at and below the root, level by level; a shared one comes once per reference. */
  function Order(fetch: Fetcher, root: Digest, k: nat): seq<Digest> {
    Levels(ChildrenIn(fetch), [root], k)
  }

  /** Fewer than k levels of directories. */
  predicate Finite(fetch: Fetcher, root: Digest, k: nat) {
    Exhausted(ChildrenIn(fetch), [root], k)
  }

  /** How many levels have to be looked at: one more than there are blobs. */
  function Depth(m: Cas.Blobs): nat {
    |m.Keys| + 1
  }

  /** The first of those levels. */
  function InOrder(m: Cas.Blobs, root: Digest): seq<Digest> {
    Order(FetchIn(m), root, Depth(m))
  }

  /** The levels end, or a Directory on the first of them does not resolve.  This is what GetTree needs to end
      (Halting.HaltsIff), and it can be checked on the store. */
  predicate Walkable(m: Cas.Blobs, root: Digest) {
    Finite(FetchIn(m), root, Depth(m)) || Unresolved(FetchIn(m), InOrder(m, root))
  }

  predicate Unresolved(fetch: Fetcher, ds: seq<Digest>) {
    exists d :: d in ds && fetch(d).None?
  }

  // ---- Pages ----

  function Message(fetch: Fetcher, d: Digest): Directory {
    match fetch(d)
    case None => EMPTY_DIRECTORY
    case Some(msg) => msg
  }

  function Messages(fetch: Fetcher, ds: seq<Digest>): (r: seq<Directory>)
    ensures |r| == |ds|
    ensures forall i :: 0 <= i < |ds| ==> r[i] == Message(fetch, ds[i])
  {
    seq(|ds|, i requires 0 <= i < |ds| => Message(fetch, ds[i]))
  }

  function Flatten(pages: seq<seq<Directory>>): seq<Directory> {
    if pages == [] then [] else Flatten(pages[..|pages| - 1]) + pages[|pages| - 1]
  }

  lemma FlattenLast(pages: seq<seq<Directory>>, page: seq<Directory>)
    ensures Flatten(pages + [page]) == Flatten(pages) + page
  {
    assert (pages + [page])[..|pages|] == pages;
  }

  ghost predicate FullPages(pages: seq<seq<Directory>>) {
    forall i :: 0 <= i < |pages| ==> |pages[i]| == 100
  }

  /** Every page but the last is full, and none is empty. */
  ghost predicate WellPaged(pages: seq<seq<Directory>>) {
    forall i :: 0 <= i < |pages| ==> 0 < |pages[i]| <= 100 && (i < |pages| - 1 ==> |pages[i]| == 100)
  }

  lemma {:induction false} FullPagesLength(pages: seq<seq<Directory>>)
    requires FullPages(pages)
    ensures |Flatten(pages)| == PAGE_SIZE * |pages|
  {
    if pages != [] {
      FullPagesLength(pages[..|pages| - 1]);
    }
  }

  datatype Error = NotFound(d: Digest) | Malformed(d: Digest) | SendFailed

  ghost predicate Resolve(fetch: Fetcher, ds: seq<Digest>) {
    forall i :: 0 <= i < |ds| ==> fetch(ds[i]).Some?
  }

  /** How far the loop is: `served` of `order` are out of the queue, and the queue holds what is left of the
      level, then the children of what has been served of it.  Either the levels end, or a Directory that does
      not resolve is still to come. */
  ghost predicate Progress(fetch: Fetcher, order: seq<Digest>, served: nat, level: seq<Digest>, next: seq<Digest>,
      depth: nat) {
    && served <= |order|
    && order[served..] == Remaining(ChildrenIn(fetch), level, next, depth)
    && Resolve(fetch, order[..served])
    && (Bounded(ChildrenIn(fetch), level, next, depth) || Unresolved(fetch, order[served..]))
  }

  lemma UnresolvedNext(fetch: Fetcher, ds: seq<Digest>)
    requires ds != [] && Unresolved(fetch, ds) && fetch(ds[0]).Some?
    ensures Unresolved(fetch, ds[1..])
  {
    var d :| d in ds && fetch(d).None?;
    assert d in ds[1..];
  }

  lemma ResolveNext(fetch: Fetcher, order: seq<Digest>, served: nat)
    requires served < |order| && Resolve(fetch, order[..served]) && fetch(order[served]).Some?
    ensures Resolve(fetch, order[..served + 1])
  {
  }

  lemma TailNext(order: seq<Digest>, served: nat, head: Digest, rest: seq<Digest>)
    requires served <= |order| && order[served..] == [head] + rest
    ensures served < |order| && order[served] == head && order[served + 1..] == rest
  {
    assert order[served..][0] == head && order[served..][1..] == rest;
  }

  /** The head of the level is the next in order, and its children go behind the next level. */
  lemma TurnWithin(fetch: Fetcher, order: seq<Digest>, served: nat, level: seq<Digest>, next: seq<Digest>, depth: nat)
    requires Progress(fetch, order, served, level, next, depth) && level != []
    ensures served < |order| && order[served] == level[0]
    ensures fetch(level[0]).Some? ==>
      Progress(fetch, order, served + 1, level[1..], next + ChildrenIn(fetch)(level[0]), depth)
  {
    var kids := ChildrenIn(fetch);
    ServeHead(kids, level, next, depth);
    TailNext(order, served, level[0], Remaining(kids, level[1..], next + kids(level[0]), depth));
    if fetch(level[0]).Some? {
      ResolveNext(fetch, order, served);
      if Unresolved(fetch, order[served..]) {
        UnresolvedNext(fetch, order[served..]);
        assert order[served..][1..] == order[served + 1..];
      }
    }
  }

  /** An empty level gives way to the one behind it. */
  lemma NextTurn(fetch: Fetcher, order: seq<Digest>, served: nat, next: seq<Digest>, depth: nat)
    requires Progress(fetch, order, served, [], next, depth) && next != []
    ensures depth > 0 && Progress(fetch, order, served, next, [], depth - 1)
  {
    NextLevel(ChildrenIn(fetch), next, depth);
  }

  /** One turn of the queue: its head is the next in order, and its children go to the end. */
  lemma {:induction false} Turn(fetch: Fetcher, order: seq<Digest>, served: nat, queue: seq<Digest>,
      level: seq<Digest>, next: seq<Digest>, depth: nat)
    returns (level': seq<Digest>, next': seq<Digest>, depth': nat)
    requires Progress(fetch, order, served, level, next, depth) && queue == level + next && queue != []
    ensures served < |order| && order[served] == queue[0]
    ensures fetch(queue[0]).Some? ==> Progress(fetch, order, served + 1, level', next', depth')
    ensures queue[1..] + ChildrenIn(fetch)(queue[0]) == level' + next'
  {
    if level == [] {
      NextTurn(fetch, order, served, next, depth);
      level', next', depth' := next, [], depth - 1;
    } else {
      level', next', depth' := level, next, depth;
    }
    assert level' + next' == queue && level'[0] == queue[0];
    TurnWithin(fetch, order, served, level', next', depth');
    QueueNext(level', next', ChildrenIn(fetch)(queue[0]));
    level', next' := level'[1..], next' + ChildrenIn(fetch)(queue[0]);
  }

  /** The pages sent are full, and with the current one hold exactly what was served. */
  ghost predicate Paged(fetch: Fetcher, order: seq<Digest>, served: nat, sent: seq<seq<Directory>>,
      page: seq<Directory>) {
    && served <= |order|
    && FullPages(sent) && |page| < PAGE_SIZE
    && Flatten(sent) + page == Messages(fetch, order[..served])
  }

  lemma AddToPage(fetch: Fetcher, order: seq<Digest>, served: nat, sent: seq<seq<Directory>>, page: seq<Directory>)
    requires Paged(fetch, order, served, sent, page) && served < |order|
    ensures var larger := page + [Message(fetch, order[served])];
      && Flatten(sent) + larger == Messages(fetch, order[..served + 1])
      && (|larger| < PAGE_SIZE ==> Paged(fetch, order, served + 1, sent, larger))
      && (|larger| >= PAGE_SIZE ==> Paged(fetch, order, served + 1, sent + [larger], []))
  {
    var larger := page + [Message(fetch, order[served])];
    assert order[..served + 1] == order[..served] + [order[served]];
    assert Messages(fetch, order[..served + 1]) == Messages(fetch, order[..served]) + [Message(fetch, order[served])];
    assert Flatten(sent) + larger == Flatten(sent) + page + [Message(fetch, order[served])];
    FlattenLast(sent, larger);
    assert Flatten(sent) + larger + [] == Flatten(sent) + larger;
  }

  /** The page handling inside the loop.  A full page is sent, which may fail unless `connected`. */
  method AppendToPage(sent: seq<seq<Directory>>, page: seq<Directory>, dir: Directory, connected: bool)
    returns (sent': seq<seq<Directory>>, page': seq<Directory>, ok: bool)
    ensures connected ==> ok
    ensures (sent', page') ==
      if ok && |page| + 1 >= PAGE_SIZE then (sent + [page + [dir]], []) else (sent, page + [dir])
    ensures !ok ==> |page| + 1 >= PAGE_SIZE
  {
    sent', page', ok := sent, page + [dir], true;
    if |page'| >= PAGE_SIZE {
      if !connected {
        ok := *;
      }
      if ok {
        sent' := sent' + [page'];
        page' := [];
      }
    }
  }

  lemma LastPage(sent: seq<seq<Directory>>, page: seq<Directory>)
    requires FullPages(sent) && |page| < PAGE_SIZE
    ensures var all := if |page| > 0 then sent + [page] else sent;
      WellPaged(all) && Flatten(all) == Flatten(sent) + page
  {
    FlattenLast(sent, page);
  }

  /** Get and unmarshal one Directory. */
  method Fetch(store: Cas.Store, d: Digest) returns (dir: Option<Directory>, err: Option<Error>)
    ensures dir == FetchDirectory(store.blobs, d)
    ensures err == if dir.Some? then None
      else Some(if Cas.Lookup(store.blobs, d).None? then NotFound(d) else Malformed(d))
  {
    var data := store.Get(d);
    if data.None? {
      return None, Some(NotFound(d));
    }
    dir := UnmarshalDirectory(data.value);
    err := if dir.None? then Some(Malformed(d)) else None;
  }

  /** Everything was sent, in order. */
  ghost predicate Finished(fetch: Fetcher, order: seq<Digest>, sent: seq<seq<Directory>>) {
    Resolve(fetch, order) && Flatten(sent) == Messages(fetch, order) && WellPaged(sent)
  }

  /** Why the call stopped early: the first Directory in order that does not resolve, the full pages before it
      having been sent; or a page that could not be sent, the full pages before it having been. */
  ghost predicate Stopped(m: Cas.Blobs, order: seq<Digest>, sent: seq<seq<Directory>>, err: Error) {
    exists served: nat ::
      if err.SendFailed? then CutAt(m, order, served, sent) else StoppedAt(m, order, served, sent, err)
  }

  ghost predicate StoppedAt(m: Cas.Blobs, order: seq<Digest>, served: nat, sent: seq<seq<Directory>>, err: Error) {
    && served < |order|
    && Resolve(FetchIn(m), order[..served])
    && FetchDirectory(m, order[served]).None?
    && err == (if Cas.Lookup(m, order[served]).None? then NotFound(order[served]) else Malformed(order[served]))
    && FullPages(sent)
    && Flatten(sent) == Messages(FetchIn(m), order[..served - served % 100])
  }

  ghost predicate CutAt(m: Cas.Blobs, order: seq<Digest>, served: nat, sent: seq<seq<Directory>>) {
    && 100 * |sent| < served <= |order|
    && Resolve(FetchIn(m), order[..served])
    && FullPages(sent)
    && Flatten(sent) == Messages(FetchIn(m), order[..100 * |sent|])
  }

  /** The state of the loop of GetTree. */
  datatype Loop = Loop(queue: seq<Digest>, sent: seq<seq<Directory>>, page: seq<Directory>)

  /** How the queue splits into what is left of a level and what is behind it. */
  datatype Split = Split(level: seq<Digest>, next: seq<Digest>, depth: nat)

  ghost predicate LoopInvariant(fetch: Fetcher, order: seq<Digest>, served: nat, loop: Loop, split: Split) {
    && loop.queue == split.level + split.next
    && Progress(fetch, order, served, split.level, split.next, split.depth)
    && Paged(fetch, order, served, loop.sent, loop.page)
  }

  /** The same of a store, kept whole. */
  ghost predicate Serving(m: Cas.Blobs, order: seq<Digest>, served: nat, loop: Loop, split: Split) {
    LoopInvariant(FetchIn(m), order, served, loop, split) == true
  }

  /** The body of the loop of GetTree. */
  method ServeNext(store: Cas.Store, loop: Loop, connected: bool, ghost order: seq<Digest>, ghost served: nat,
      ghost split: Split)
    returns (loop': Loop, err: Option<Error>, ghost split': Split)
    requires Serving(store.blobs, order, served, loop, split) && loop.queue != []
    ensures served < |order|
    ensures err.None? ==> Serving(store.blobs, order, served + 1, loop', split')
    ensures err.Some? ==> Stopped(store.blobs, order, loop'.sent, err.value)
    ensures connected ==> err != Some(SendFailed)
  {
    ghost var m, fetch := store.blobs, FetchIn(store.blobs);
    ghost var level, next, depth := Turn(fetch, order, served, loop.queue, split.level, split.next, split.depth);
    split' := Split(level, next, depth);
    var d := loop.queue[0];
    var dir;
    dir, err := Fetch(store, d);
    if dir.None? {
      StoppedHere(m, order, served, loop.sent, loop.page, err.value);
      return loop, err, split;
    }
    assert dir.value == Message(fetch, order[served]);
    AddToPage(fetch, order, served, loop.sent, loop.page);
    var sent, page, ok := AppendToPage(loop.sent, loop.page, dir.value, connected);
    if !ok {
      CutHere(m, order, served, loop.sent, loop.page);
      return loop, Some(SendFailed), split;
    }
    assert ChildrenIn(fetch)(d) == Values(dir.value.directories);
    loop' := Loop(loop.queue[1..] + Values(dir.value.directories), sent, page);
  }

  /** The loop of GetTree, until the queue is empty or a Directory does not resolve or a page is not sent. */
  method ServeAll(store: Cas.Store, start: Loop, connected: bool, ghost order: seq<Digest>, ghost split: Split)
    returns (end: Loop, err: Option<Error>, ghost now: Split)
    requires Serving(store.blobs, order, 0, start, split)
    ensures err.None? ==> Serving(store.blobs, order, |order|, end, now)
    ensures err.Some? ==> Stopped(store.blobs, order, end.sent, err.value)
    ensures connected ==> err != Some(SendFailed)
  {
    ghost var served := 0;
    end, now := start, split;
    while |end.queue| > 0
      invariant Serving(store.blobs, order, served, end, now)
      decreases |order| - served
    {
      end, err, now := ServeNext(store, end, connected, order, served, now);
      if err.Some? {
        return;
      }
      served := served + 1;
    }
    AllServed(store.blobs, order, served, end, now);
    err := None;
  }

  /** GetTree.  It ends on every root for which the loop ends at all, and then without an error exactly when
      the levels end, all of it resolves, and every page goes out. */
  method GetTree(store: Cas.Store, root: Digest, connected: bool) returns (sent: seq<seq<Directory>>,
      err: Option<Error>)
    requires Walkable(store.blobs, root)
    ensures err.None? ==> Finite(FetchIn(store.blobs), root, Depth(store.blobs))
    ensures err.None? ==> Finished(FetchIn(store.blobs), InOrder(store.blobs, root), sent)
    ensures err.Some? ==> Stopped(store.blobs, InOrder(store.blobs, root), sent, err.value)
    ensures connected ==> err != Some(SendFailed)
    ensures connected && Resolve(FetchIn(store.blobs), InOrder(store.blobs, root)) ==> err.None?
  {
    ghost var order := InOrder(store.blobs, root);
    Start(store.blobs, root);
    ResolveIff(FetchIn(store.blobs), order);
    var loop;
    ghost var split;
    loop, err, split := ServeAll(store, Loop([root], [], []), connected, order, Split([], [root], Depth(store.blobs)));
    if err.Some? {
      StoppedIsUnresolved(store.blobs, order, loop.sent, err.value);
      return loop.sent, err;
    }
    Finish(store.blobs, order, loop, split);
    sent := loop.sent;
    if |loop.page| > 0 {
      if !connected {
        if * {
          CutAtTheEnd(store.blobs, order, loop, split);
          return sent, Some(SendFailed);
        }
      }
      sent := sent + [loop.page];
    }
  }

  lemma QueueNext<T>(level: seq<T>, next: seq<T>, kids: seq<T>)
    requires level != []
    ensures (level + next)[1..] + kids == level[1..] + (next + kids)
  {
  }

  lemma Start(m: Cas.Blobs, root: Digest)
    requires Walkable(m, root)
    ensures Serving(m, InOrder(m, root), 0, Loop([root], [], []), Split([], [root], Depth(m)))
  {
    var order := InOrder(m, root);
    assert [root] + OneDown(ChildrenIn(FetchIn(m)), []) == [root];
    assert [] + order == order == order[0..];
  }

  lemma ResolveIff(fetch: Fetcher, ds: seq<Digest>)
    ensures Resolve(fetch, ds) <==> !Unresolved(fetch, ds)
  {
  }

  lemma StoppedIsUnresolved(m: Cas.Blobs, order: seq<Digest>, sent: seq<seq<Directory>>, err: Error)
    requires Stopped(m, order, sent, err)
    ensures !err.SendFailed? ==> !Resolve(FetchIn(m), order)
  {
  }

  lemma AllServed(m: Cas.Blobs, order: seq<Digest>, served: nat, loop: Loop, split: Split)
    requires Serving(m, order, served, loop, split) && loop.queue == []
    ensures served == |order|
  {
    NextLevel(ChildrenIn(FetchIn(m)), split.next, split.depth);
  }

  lemma Finish(m: Cas.Blobs, order: seq<Digest>, loop: Loop, split: Split)
    requires Serving(m, order, |order|, loop, split)
    ensures Finished(FetchIn(m), order, if |loop.page| > 0 then loop.sent + [loop.page] else loop.sent)
  {
    assert order[..|order|] == order;
    LastPage(loop.sent, loop.page);
  }

  /** Where the pages sent stand when another is due. */
  lemma {:induction false} PagesSent(m: Cas.Blobs, order: seq<Digest>, served: nat, sent: seq<seq<Directory>>,
      page: seq<Directory>)
    requires Paged(FetchIn(m), order, served, sent, page)
    ensures PAGE_SIZE * |sent| + |page| == served
    ensures Flatten(sent) == Messages(FetchIn(m), order[..PAGE_SIZE * |sent|])
  {
    FullPagesLength(sent);
    var whole := PAGE_SIZE * |sent|;
    assert Flatten(sent) == (Flatten(sent) + page)[..whole];
    assert order[..whole] == order[..served][..whole];
  }

  lemma CutHere(m: Cas.Blobs, order: seq<Digest>, served: nat, sent: seq<seq<Directory>>, page: seq<Directory>)
    requires Paged(FetchIn(m), order, served, sent, page) && served < |order| && Resolve(FetchIn(m), order[..served])
    requires FetchDirectory(m, order[served]).Some?
    ensures Stopped(m, order, sent, SendFailed)
  {
    PagesSent(m, order, served, sent, page);
    assert order[..served + 1] == order[..served] + [order[served]];
    assert CutAt(m, order, served + 1, sent);
  }

  lemma CutAtTheEnd(m: Cas.Blobs, order: seq<Digest>, loop: Loop, split: Split)
    requires Serving(m, order, |order|, loop, split)
    requires |loop.page| > 0
    ensures Stopped(m, order, loop.sent, SendFailed)
  {
    PagesSent(m, order, |order|, loop.sent, loop.page);
    assert CutAt(m, order, |order|, loop.sent);
  }

  lemma StoppedHere(m: Cas.Blobs, order: seq<Digest>, served: nat, sent: seq<seq<Directory>>, page: seq<Directory>,
      err: Error)
    requires Paged(FetchIn(m), order, served, sent, page) && served < |order| && Resolve(FetchIn(m), order[..served])
    requires FetchDirectory(m, order[served]).None?
    requires err == if Cas.Lookup(m, order[served]).None? then NotFound(order[served]) else Malformed(order[served])
    ensures Stopped(m, order, sent, err)
  {
    PagesSent(m, order, served, sent, page);
    assert served % PAGE_SIZE == |page|;
    assert StoppedAt(m, order, served, sent, err);
  }
}
