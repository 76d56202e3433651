/** The two ways of walking a captured tree agree: GetTree serves it level by level from the root digest,
    and the Tree blob lists it parents first (internal/server/cas_service.go and internal/casfs/casfs.go). */
module Traversal {
  import opened Digests
  import opened Named
  import opened Wire
  import Cas
  import opened Trees
  import opened Merkle
  import opened Breadth
  import opened GetTree
  import opened Halting
  import ByteStream
  import Capture

  /** The subtrees of a tree in the order its message lists them. */
  function KidsOf(t: Entries): seq<Entries> {
    Values(Sort(SubtreesOf(t)))
  }

  function DigestIn(sha: HashFn): Entries -> Digest { t => DigestOf(sha, t) }

  function MessageIn(sha: HashFn): Entries -> Directory { t => DirOf(sha, t) }

  // ---- Level order of digests is level order of trees ----

  /** The digests of the tree and of everything below it resolve to the trees' messages. */
  ghost predicate Resolves(sha: HashFn, fetch: Fetcher, t: Entries)
    decreases t, 1
  {
    fetch(DigestOf(sha, t)) == Some(DirOf(sha, t)) && ResolvesBelow(sha, fetch, t)
  }

  ghost predicate ResolvesBelow(sha: HashFn, fetch: Fetcher, es: Entries)
    decreases es, 0
  {
    es == [] || (
      && (match es[0].value
          case Dir(sub) => Resolves(sha, fetch, sub)
          case _ => true)
      && ResolvesBelow(sha, fetch, es[1..]))
  }

  ghost function ResolvesIn(sha: HashFn, fetch: Fetcher): Entries -> bool { t => Resolves(sha, fetch, t) }

  /** A tree that is complete in a store resolves there. */
  lemma {:induction false} CompleteResolves(sha: HashFn, m: Cas.Blobs, t: Entries)
    requires WellFormed(t) && Encodable(t) && Complete(sha, m, t)
    ensures Resolves(sha, FetchIn(m), t)
    decreases t, 1
  {
    StoredMessage(sha, m, t);
    forall i | 0 <= i < |t| && t[i].value.Dir?
      ensures Complete(sha, m, t[i].value.entries)
    {
      WellFormedUnique(t);
      FindMember(t, i);
      ChildBlobs(sha, t, t[i].name);
    }
    CompleteResolvesBelow(sha, m, t);
  }

  lemma {:induction false} CompleteResolvesBelow(sha: HashFn, m: Cas.Blobs, es: Entries)
    requires WellFormed(es) && Encodable(es)
    requires forall i :: 0 <= i < |es| && es[i].value.Dir? ==> Complete(sha, m, es[i].value.entries)
    ensures ResolvesBelow(sha, FetchIn(m), es)
    decreases es, 0
  {
    if es != [] {
      if es[0].value.Dir? {
        CompleteResolves(sha, m, es[0].value.entries);
      }
      CompleteResolvesBelow(sha, m, es[1..]);
    }
  }

  lemma {:induction false} MapDigests(sha: HashFn, t: Entries)
    ensures MapValues(DigestIn(sha), SubtreesOf(t)) == DirectoriesOf(sha, t)
  {
    if t != [] {
      MapDigests(sha, t[1..]);
      if t[0].value.Dir? {
        assert SubtreesOf(t)[1..] == SubtreesOf(t[1..]);
      }
    }
  }

  lemma {:induction false} ChildrenOfResolved(sha: HashFn, fetch: Fetcher, t: Entries)
    requires Resolves(sha, fetch, t)
    ensures ChildrenIn(fetch)(DigestOf(sha, t)) == Map(DigestIn(sha), KidsOf(t))
  {
    MapDigests(sha, t);
    SortMap(DigestIn(sha), SubtreesOf(t));
  }

  lemma {:induction false} SubtreeResolves(sha: HashFn, fetch: Fetcher, es: Entries, s: Named<Entries>)
    requires ResolvesBelow(sha, fetch, es) && s in SubtreesOf(es)
    ensures Resolves(sha, fetch, s.value) && Height(s.value) < Height(es)
  {
    if !(es[0].value.Dir? && s == Named(es[0].name, es[0].value.entries)) {
      SubtreeResolves(sha, fetch, es[1..], s);
    }
  }

  lemma {:induction false} KidResolves(sha: HashFn, fetch: Fetcher, t: Entries, kid: Entries)
    requires Resolves(sha, fetch, t) && kid in KidsOf(t)
    ensures Resolves(sha, fetch, kid) && Height(kid) < Height(t)
  {
    var s := Sort(SubtreesOf(t));
    var i :| 0 <= i < |s| && s[i].value == kid;
    SortMembers(SubtreesOf(t));
    assert s[i] in SubtreesOf(t);
    SubtreeResolves(sha, fetch, t, s[i]);
  }

  lemma {:induction false} DigestsTranslate(sha: HashFn, fetch: Fetcher)
    ensures Translates(KidsOf, ChildrenIn(fetch), DigestIn(sha), ResolvesIn(sha, fetch), Height)
  {
    forall t: Entries | Resolves(sha, fetch, t)
      ensures ChildrenIn(fetch)(DigestIn(sha)(t)) == Map(DigestIn(sha), KidsOf(t))
      ensures GoodBelow(ResolvesIn(sha, fetch), Height, KidsOf(t), Height(t))
    {
      ChildrenOfResolved(sha, fetch, t);
      forall kid | kid in KidsOf(t) ensures Resolves(sha, fetch, kid) && Height(kid) < Height(t) {
        KidResolves(sha, fetch, t, kid);
      }
    }
  }

  // ---- Parents-first order, as a bag ----

  /** A tree's message and those of everything below it: what its Tree blob holds. */
  ghost function TreeBag(sha: HashFn): Entries -> multiset<Directory> {
    t => multiset{DirOf(sha, t)} + multiset(Descendants(sha, t))
  }

  lemma {:induction false} BagOfInsert<T, U>(bag: T -> multiset<U>, x: Named<T>, s: seq<Named<T>>)
    ensures Bag(bag, Values(Insert(x, s))) == bag(x.value) + Bag(bag, Values(s))
  {
    if s != [] && Below(s[0].name, x.name) {
      BagOfInsert(bag, x, s[1..]);
      assert Insert(x, s)[1..] == Insert(x, s[1..]);
    } else {
      assert ([x] + s)[1..] == s;
    }
  }

  lemma {:induction false} BagOfSort<T, U>(bag: T -> multiset<U>, s: seq<Named<T>>)
    ensures Bag(bag, Values(Sort(s))) == Bag(bag, Values(s))
  {
    if s != [] {
      BagOfSort(bag, s[1..]);
      BagOfInsert(bag, s[0], Sort(s[1..]));
    }
  }

  lemma {:induction false} BagOfDescendants(sha: HashFn, t: Entries)
    ensures multiset(Descendants(sha, t)) == Bag(TreeBag(sha), Values(SubtreesOf(t)))
  {
    if t != [] {
      BagOfDescendants(sha, t[1..]);
      if t[0].value.Dir? {
        var sub := t[0].value.entries;
        assert SubtreesOf(t)[1..] == SubtreesOf(t[1..]);
        assert Values(SubtreesOf(t))[1..] == Values(SubtreesOf(t[1..]));
        assert TreeBag(sha)(sub) == multiset([DirOf(sha, sub)] + Descendants(sha, sub));
      }
    }
  }

  lemma {:induction false} TreesCollect(sha: HashFn)
    ensures Collects(KidsOf, MessageIn(sha), TreeBag(sha))
  {
    forall t: Entries ensures TreeBag(sha)(t) == multiset{MessageIn(sha)(t)} + Bag(TreeBag(sha), KidsOf(t)) {
      BagOfDescendants(sha, t);
      BagOfSort(TreeBag(sha), SubtreesOf(t));
    }
  }

  // ---- Agreement ----

  lemma {:induction false} MessagesOfResolved(sha: HashFn, fetch: Fetcher, ts: seq<Entries>, order: seq<Digest>)
    requires order == Map(DigestIn(sha), ts)
    requires forall t :: t in ts ==> ResolvesIn(sha, fetch)(t)
    ensures Resolve(fetch, order)
    ensures multiset(Messages(fetch, order)) == multiset(Map(MessageIn(sha), ts))
  {
    forall i | 0 <= i < |ts| ensures fetch(order[i]) == Some(MessageIn(sha)(ts[i])) {
      assert ts[i] in ts && ResolvesIn(sha, fetch)(ts[i]);
    }
    assert Messages(fetch, order) == Map(MessageIn(sha), ts);
  }

  /** The digests level by level, and the trees they stand for. */
  lemma {:induction false} ResolvedListings(sha: HashFn, fetch: Fetcher, t: Entries)
    returns (trees: seq<Entries>, order: seq<Digest>)
    requires Resolves(sha, fetch, t)
    ensures order == Order(fetch, DigestIn(sha)(t), Height(t) + 1) == Map(DigestIn(sha), trees)
    ensures forall u :: u in trees ==> ResolvesIn(sha, fetch)(u)
    ensures multiset(Map(MessageIn(sha), trees)) == TreeBag(sha)(t)
    ensures Finite(fetch, DigestIn(sha)(t), Height(t) + 1)
  {
    DigestsTranslate(sha, fetch);
    TreesCollect(sha);
    var kids, good := ChildrenIn(fetch), ResolvesIn(sha, fetch);
    RootLevels(KidsOf, kids, DigestIn(sha), good, Height, MessageIn(sha), TreeBag(sha), t);
    trees, order := Levels(KidsOf, [t], Height(t) + 1), Order(fetch, DigestIn(sha)(t), Height(t) + 1);
  }

  lemma {:induction false} ResolvedAgree(sha: HashFn, fetch: Fetcher, t: Entries)
    requires Resolves(sha, fetch, t)
    ensures var order := Order(fetch, DigestIn(sha)(t), Height(t) + 1);
      && Finite(fetch, DigestIn(sha)(t), Height(t) + 1)
      && Resolve(fetch, order)
      && multiset(Messages(fetch, order)) == TreeBag(sha)(t)
  {
    var trees, order := ResolvedListings(sha, fetch, t);
    MessagesOfResolved(sha, fetch, trees, order);
  }

  /** GetTree from a captured root digest meets finitely many levels, all of whose Directories resolve, and
      the Directories it serves are, with repetitions, exactly the root and the descendants that the Tree
      blob lists. */
  lemma {:induction false} TraversalsAgree(sha: HashFn, m: Cas.Blobs, t: Entries)
    requires WellFormed(t) && Encodable(t) && Complete(sha, m, t)
    ensures var order := Order(FetchIn(m), DigestOf(sha, t), Height(t) + 1);
      && Finite(FetchIn(m), DigestOf(sha, t), Height(t) + 1)
      && Resolve(FetchIn(m), order)
      && multiset(Messages(FetchIn(m), order)) == multiset{DirOf(sha, t)} + multiset(Descendants(sha, t))
  {
    CompleteResolves(sha, m, t);
    ResolvedAgree(sha, FetchIn(m), t);
    assert DigestIn(sha)(t) == DigestOf(sha, t);
  }

  /** The Tree blob of a captured tree reads back as the message of the root and those of its descendants. */
  lemma {:induction false} TreeBlobReadsBack(sha: HashFn, m: Cas.Blobs, t: Entries)
    requires WellFormed(t) && Encodable(t) && Cas.Holds(sha, m, TreeBytesOf(sha, t))
    ensures var blob := Cas.Lookup(m, FromBytes(sha, TreeBytesOf(sha, t)));
      blob.Some? && UnmarshalTree(blob.value) == Some(Tree(DirOf(sha, t), Descendants(sha, t)))
  {
    EncodableIsClean(sha, t);
    Capture.DescendantsClean(sha, t);
    TreeRoundTrip(Tree(DirOf(sha, t), Descendants(sha, t)), TreeBytesOf(sha, t));
  }

  /** A successful capture can be walked: from the root digest GetTree ends, without an error if its pages go
      out, and what it sends is, with repetitions, what the stored Tree blob unmarshals to. */
  method CaptureThenGetTree(sha: HashFn, store: Cas.Store, outputPath: Text, t: Entries, connected: bool)
    returns (od: Option<Cas.OutputDirectory>, pages: seq<seq<Directory>>, err: Option<Error>)
    requires WellFormed(t) && NoCollision(sha, Capture.OutputBlobs(sha, t))
    modifies store`blobs
    ensures store.reliable ==> (od.Some? <==> Encodable(t))
    ensures od.Some? ==> Walkable(store.blobs, od.value.rootDigest) && (connected ==> err.None?)
    ensures od.Some? && err.None? ==> SentAsListed(store.blobs, od.value.treeDigest, pages)
  {
    pages, err := [], None;
    ghost var done;
    od, done := Capture.CaptureDirectory(sha, store, outputPath, t);
    if od.None? {
      return;
    }
    Capture.CapturedComplete(sha, old(store.blobs), t);
    CapturedIsWalkable(sha, store.blobs, t);
    pages, err := GetTree.GetTree(store, od.value.rootDigest, connected);
    if err.None? {
      TreeBlobReadsBack(sha, store.blobs, t);
    }
  }

  /** The pages hold, with repetitions, the root and the children of the Tree blob. */
  ghost predicate SentAsListed(m: Cas.Blobs, treeDigest: Digest, pages: seq<seq<Directory>>) {
    match Cas.Lookup(m, treeDigest)
    case None => false
    case Some(blob) =>
      match UnmarshalTree(blob)
      case None => false
      case Some(tree) => multiset(Flatten(pages)) == multiset{tree.root} + multiset(tree.children)
  }

  lemma {:induction false} CapturedIsWalkable(sha: HashFn, m: Cas.Blobs, t: Entries)
    requires WellFormed(t) && Encodable(t) && Complete(sha, m, t)
    ensures var root := DigestOf(sha, t);
      && Walkable(m, root) && Resolve(FetchIn(m), InOrder(m, root))
      && multiset(Messages(FetchIn(m), InOrder(m, root))) == multiset{DirOf(sha, t)} + multiset(Descendants(sha, t))
  {
    TraversalsAgree(sha, m, t);
    EnoughLevels(m, DigestOf(sha, t), Height(t) + 1);
  }

  // ---- A store on which GetTree never ends ----

  /** A Directory listed as its own child. */
  function SelfContained(name: Text, d: Digest): Directory {
    Directory([], [Named(name, d)], [])
  }

  function LoopingStore(name: Text, d: Digest): Cas.Blobs {
    map[d.hash := EncodeDirectory(SelfContained(name, d))]
  }

  lemma OwnChild(name: Text, d: Digest)
    requires ValidUtf8(name) && Validate(d).None? && !IsEmpty(d)
    ensures FetchDirectory(LoopingStore(name, d), d) == Some(SelfContained(name, d))
    ensures ChildrenIn(FetchIn(LoopingStore(name, d)))(d) == [d]
  {
    AsciiIsUtf8(d.hash);
    DirectoryRoundTrip(SelfContained(name, d));
    assert SelfContained(name, d).directories[1..] == [];
  }

  lemma {:induction false} NeverEnds(fetch: Fetcher, d: Digest, n: nat)
    requires fetch(d).Some? && ChildrenIn(fetch)(d) == [d]
    ensures WalkAfter(fetch, [d], n) == Going([d])
    decreases n
  {
    if n > 0 {
      assert [d][1..] + [d] == [d];
      NeverEnds(fetch, d, n - 1);
    }
  }

  /** On a Directory that lists itself the loop of GetTree never ends. */
  lemma GetTreeCanLoop(name: Text, d: Digest)
    requires ValidUtf8(name) && Validate(d).None? && !IsEmpty(d)
    ensures !Halts(FetchIn(LoopingStore(name, d)), d)
  {
    OwnChild(name, d);
    forall n: nat ensures WalkAfter(FetchIn(LoopingStore(name, d)), [d], n).Going? {
      NeverEnds(FetchIn(LoopingStore(name, d)), d, n);
    }
  }

  /** One Write leads an empty store there: Write takes the marshalled Directory under the hash it lists. */
  lemma {:induction false} LoopingStoreIsWritten(name: Text, d: Digest, uuid: Text)
    requires ValidUtf8(name) && Validate(d).None? && !IsEmpty(d) && SLASH !in uuid
    requires |EncodeDirectory(SelfContained(name, d))| < TWO_63
    ensures var msgs := [ByteStream.OneMessage(uuid, d.hash, EncodeDirectory(SelfContained(name, d)))];
      && ByteStream.Verdict(msgs, ByteStream.EndOfStream).Committed?
      && ByteStream.Uploaded(map[], msgs, ByteStream.EndOfStream) == LoopingStore(name, d)
  {
    AsciiIsUtf8(d.hash);
    EmptyDirectoryIsNoBytes(SelfContained(name, d));
    ByteStream.AnyHashIsTaken(map[], uuid, d.hash, EncodeDirectory(SelfContained(name, d)), ByteStream.EndOfStream);
  }
}
