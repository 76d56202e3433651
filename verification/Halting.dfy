/** When the walk of GetTree ends (internal/server/cas_service.go: the loop over the queue, with its error
    returns). */
module Halting {
  import opened Digests
  import opened Named
  import opened Wire
  import Cas
  import opened Trees
  import opened Breadth
  import opened Reach
  import opened GetTree

  /** The loop after some turns: still going, over because the queue is empty, or over with an error. */
  datatype Walk = Going(queue: seq<Digest>) | Ended | Refused(d: Digest)

  /** n turns of the loop: the head is fetched and its children go to the end of the queue. */
  function WalkAfter(fetch: Fetcher, queue: seq<Digest>, n: nat): Walk
    decreases n
  {
    if queue == [] then Ended
    else match fetch(queue[0])
      case None => Refused(queue[0])
      case Some(dir) => if n == 0 then Going(queue) else WalkAfter(fetch, queue[1..] + Values(dir.directories), n - 1)
  }

  ghost predicate Halts(fetch: Fetcher, root: Digest) {
    exists n: nat :: !WalkAfter(fetch, [root], n).Going?
  }

  /** The queue is empty, or its head does not resolve. */
  predicate Stops(fetch: Fetcher, queue: seq<Digest>) {
    queue == [] || fetch(queue[0]).None?
  }

  /** A queue that would be stopped after n turns is stopped by then. */
  lemma {:induction false} StopsSoon(fetch: Fetcher, queue: seq<Digest>, n: nat)
    requires Stops(fetch, QueueAfter(ChildrenIn(fetch), queue, n))
    ensures !WalkAfter(fetch, queue, n).Going?
    decreases n
  {
    if !Stops(fetch, queue) && n > 0 {
      StopsSoon(fetch, queue[1..] + ChildrenIn(fetch)(queue[0]), n - 1);
    }
  }

  /** A walk that is over met the end of the queue, or a head that does not resolve. */
  lemma {:induction false} StoppedAtSomeTurn(fetch: Fetcher, queue: seq<Digest>, n: nat) returns (i: nat)
    requires !WalkAfter(fetch, queue, n).Going?
    ensures i <= n && Stops(fetch, QueueAfter(ChildrenIn(fetch), queue, i))
    decreases n
  {
    if Stops(fetch, queue) {
      i := 0;
    } else {
      i := StoppedAtSomeTurn(fetch, queue[1..] + ChildrenIn(fetch)(queue[0]), n - 1);
      i := i + 1;
    }
  }

  /** What lies below a Directory digest depends on its hash alone, and only stored blobs have anything below. */
  lemma StoreIsKeyed(m: Cas.Blobs)
    ensures Keyed(ChildrenIn(FetchIn(m)), HashOf, m.Keys)
  {
    var kids := ChildrenIn(FetchIn(m));
    forall d | kids(d) != []
      ensures HashOf(d) in m.Keys && kids(d) == ChildrenOfBytes(m[d.hash])
    {
      ChildrenAreStored(m, d);
    }
  }

  function HashOf(d: Digest): Text { d.hash }

  function ChildrenOfBytes(data: Bytes): seq<Digest> {
    match UnmarshalDirectory(data)
    case None => []
    case Some(msg) => Values(msg.directories)
  }

  lemma ChildrenAreStored(m: Cas.Blobs, d: Digest)
    requires ChildrenIn(FetchIn(m))(d) != []
    ensures d.hash in m && ChildrenIn(FetchIn(m))(d) == ChildrenOfBytes(m[d.hash])
  {
    if IsEmpty(d) {
      EmptyDirectoryHasNoChildren();
    }
  }

  lemma EmptyDirectoryHasNoChildren()
    ensures ChildrenOfBytes([]) == []
  {
    DirectoryRoundTrip(EMPTY_DIRECTORY);
    EmptyDirectoryIsNoBytes(EMPTY_DIRECTORY);
  }

  /** Generic over the store: a walk ends exactly when the levels end or something reachable does not resolve. */
  lemma HaltsByReach(fetch: Fetcher, root: Digest)
    ensures Halts(fetch, root) <==>
      FinitelyDeep(ChildrenIn(fetch), [root]) || exists d :: Reachable(ChildrenIn(fetch), root, d) && fetch(d).None?
  {
    var kids := ChildrenIn(fetch);
    if FinitelyDeep(kids, [root]) {
      LoopEndsIff(kids, [root]);
      var n: nat :| QueueAfter(kids, [root], n) == [];
      StopsSoon(fetch, [root], n);
    }
    if d :| Reachable(kids, root, d) && fetch(d).None? {
      var p: seq<Digest> :| Leads(kids, p, root, d);
      var n := PathIsServed(kids, [root], p);
      StopsSoon(fetch, [root], n);
    }
    if Halts(fetch, root) {
      HaltedByReach(fetch, root);
    }
  }

  lemma HaltedByReach(fetch: Fetcher, root: Digest)
    requires Halts(fetch, root)
    ensures
      FinitelyDeep(ChildrenIn(fetch), [root]) || exists d :: Reachable(ChildrenIn(fetch), root, d) && fetch(d).None?
  {
    var kids := ChildrenIn(fetch);
    var n: nat :| !WalkAfter(fetch, [root], n).Going?;
    var i := StoppedAtSomeTurn(fetch, [root], n);
    var queue := QueueAfter(kids, [root], i);
    if queue == [] {
      LoopEndsIff(kids, [root]);
    } else {
      assert Leads(kids, [root], root, root);
      QueueIsReached(kids, root, [root], i);
      assert queue[0] in queue;
    }
  }

  /** GetTree ends exactly when, within one more level than there are blobs, the levels end or a Directory does
      not resolve.  Only a Directory that is, directly or not, among its own descendants can keep it going. */
  lemma HaltsIff(m: Cas.Blobs, root: Digest)
    ensures Halts(FetchIn(m), root) <==> Walkable(m, root)
  {
    var fetch, kids := FetchIn(m), ChildrenIn(FetchIn(m));
    HaltsByReach(fetch, root);
    StoreIsKeyed(m);
    FinitelyDeepIff(kids, HashOf, m.Keys, root);
    forall d ensures Reachable(kids, root, d) <==> d in InOrder(m, root) {
      ReachableIff(kids, HashOf, m.Keys, root, d);
    }
  }

  /** Where the levels end at all, looking at more of them changes nothing. */
  lemma EnoughLevels(m: Cas.Blobs, root: Digest, k: nat)
    requires Finite(FetchIn(m), root, k)
    ensures Finite(FetchIn(m), root, Depth(m)) && InOrder(m, root) == Order(FetchIn(m), root, k)
  {
    var kids := ChildrenIn(FetchIn(m));
    StoreIsKeyed(m);
    FinitelyDeepIff(kids, HashOf, m.Keys, root);
    if k <= Depth(m) {
      ExhaustedLonger(kids, [root], k, Depth(m));
    } else {
      ExhaustedLonger(kids, [root], Depth(m), k);
    }
  }

  /** GetTree goes on for ever exactly when everything reachable resolves, and something reachable is among its
      own descendants. */
  lemma LoopsIff(m: Cas.Blobs, root: Digest)
    ensures var kids := ChildrenIn(FetchIn(m));
      !Walkable(m, root) <==>
        && (forall d :: Reachable(kids, root, d) ==> FetchDirectory(m, d).Some?)
        && (exists d :: Reachable(kids, root, d) && OwnDescendant(kids, d))
  {
    var fetch, kids := FetchIn(m), ChildrenIn(FetchIn(m));
    StoreIsKeyed(m);
    EndlessIff(kids, HashOf, m.Keys, root);
    HaltsIff(m, root);
    HaltsByReach(fetch, root);
  }
}
