/** Breadth-first order of what lies below some things, independent of any queue, and the queue that
    produces it. */
module Breadth {

  function OneDown<T>(kids: T -> seq<T>, xs: seq<T>): seq<T> {
    if xs == [] then [] else kids(xs[0]) + OneDown(kids, xs[1..])
  }

  /** Nothing is k or more levels below the level `xs`. */
  predicate Exhausted<T>(kids: T -> seq<T>, xs: seq<T>, k: nat)
    decreases k
  {
    xs == [] || (k > 0 && Exhausted(kids, OneDown(kids, xs), k - 1))
  }

  /** k levels, one after the other. */
  function Levels<T>(kids: T -> seq<T>, xs: seq<T>, k: nat): seq<T>
    decreases k
  {
    if k == 0 then [] else xs + Levels(kids, OneDown(kids, xs), k - 1)
  }

  lemma {:induction false} LevelsOfNothing<T>(kids: T -> seq<T>, k: nat)
    ensures Levels(kids, [], k) == []
    decreases k
  {
    if k > 0 {
      LevelsOfNothing(kids, k - 1);
    }
  }

  lemma {:induction false} ExhaustedLonger<T>(kids: T -> seq<T>, xs: seq<T>, k: nat, n: nat)
    requires Exhausted(kids, xs, k) && k <= n
    ensures Exhausted(kids, xs, n)
    ensures Levels(kids, xs, n) == Levels(kids, xs, k)
    decreases k
  {
    if xs == [] {
      LevelsOfNothing(kids, k);
      LevelsOfNothing(kids, n);
    } else {
      ExhaustedLonger(kids, OneDown(kids, xs), k - 1, n - 1);
    }
  }

  // ---- The queue: what is left of the current level, then the kids of what was served of it ----

  function Remaining<T>(kids: T -> seq<T>, level: seq<T>, next: seq<T>, k: nat): seq<T> {
    level + Levels(kids, next + OneDown(kids, level), k)
  }

  ghost predicate Bounded<T>(kids: T -> seq<T>, level: seq<T>, next: seq<T>, k: nat) {
    Exhausted(kids, next + OneDown(kids, level), k)
  }

  /** Serving the head of the level puts its kids at the end of the queue. */
  lemma ServeHead<T>(kids: T -> seq<T>, level: seq<T>, next: seq<T>, k: nat)
    requires level != []
    ensures Bounded(kids, level, next, k) <==> Bounded(kids, level[1..], next + kids(level[0]), k)
    ensures Remaining(kids, level, next, k) == [level[0]] + Remaining(kids, level[1..], next + kids(level[0]), k)
  {
    var head, tail := kids(level[0]), OneDown(kids, level[1..]);
    assert next + (head + tail) == next + head + tail;
    assert level == [level[0]] + level[1..];
  }

  /** When the level is used up, what was put behind it is the next level. */
  lemma NextLevel<T>(kids: T -> seq<T>, next: seq<T>, k: nat)
    ensures k > 0 ==> Remaining(kids, [], next, k) == Remaining(kids, next, [], k - 1)
    ensures k == 0 || next == [] ==> Remaining(kids, [], next, k) == []
    ensures next != [] && Bounded(kids, [], next, k) ==> k > 0 && Bounded(kids, next, [], k - 1)
  {
    assert next + OneDown(kids, []) == next;
    assert [] + OneDown(kids, next) == OneDown(kids, next);
    if next == [] {
      LevelsOfNothing(kids, k);
    }
  }

  /** The queue after n turns of the loop. */
  function QueueAfter<T>(kids: T -> seq<T>, queue: seq<T>, n: nat): seq<T>
    decreases n
  {
    if n == 0 || queue == [] then queue
    else QueueAfter(kids, queue[1..] + kids(queue[0]), n - 1)
  }

  lemma {:induction false} BoundedLoopEnds<T>(kids: T -> seq<T>, level: seq<T>, next: seq<T>, k: nat)
    requires Bounded(kids, level, next, k)
    ensures QueueAfter(kids, level + next, |Remaining(kids, level, next, k)|) == []
    decreases |Remaining(kids, level, next, k)|, k
  {
    if level == [] {
      NextLevel(kids, next, k);
      if next != [] {
        assert next + [] == [] + next;
        BoundedLoopEnds(kids, next, [], k - 1);
      }
    } else {
      ServeHead(kids, level, next, k);
      assert (level + next)[1..] + kids(level[0]) == level[1..] + (next + kids(level[0]));
      BoundedLoopEnds(kids, level[1..], next + kids(level[0]), k);
    }
  }

  lemma {:induction false} EndedLoopBounded<T>(kids: T -> seq<T>, level: seq<T>, next: seq<T>, n: nat)
    requires level != [] && QueueAfter(kids, level + next, n) == []
    ensures Bounded(kids, level, next, n)
    decreases n
  {
    var rest, behind := level[1..], next + kids(level[0]);
    assert (level + next)[1..] + kids(level[0]) == rest + behind;
    ServeHead(kids, level, next, n);
    if rest != [] {
      EndedLoopBounded(kids, rest, behind, n - 1);
      ExhaustedLonger(kids, behind + OneDown(kids, rest), n - 1, n);
    } else if behind != [] {
      assert rest + behind == behind + [];
      EndedLoopBounded(kids, behind, [], n - 1);
      assert [] + OneDown(kids, behind) == OneDown(kids, behind);
      assert behind + OneDown(kids, rest) == behind;
    } else {
      assert behind + OneDown(kids, rest) == [];
    }
  }

  ghost predicate LoopEnds<T>(kids: T -> seq<T>, start: seq<T>) {
    exists n: nat :: QueueAfter(kids, start, n) == []
  }

  ghost predicate FinitelyDeep<T>(kids: T -> seq<T>, start: seq<T>) {
    exists k: nat :: Exhausted(kids, start, k)
  }

  /** The loop empties its queue exactly when only finitely many levels lie below the start. */
  lemma LoopEndsIff<T>(kids: T -> seq<T>, start: seq<T>)
    ensures LoopEnds(kids, start) <==> FinitelyDeep(kids, start)
  {
    if FinitelyDeep(kids, start) {
      var k: nat :| Exhausted(kids, start, k);
      assert start + OneDown(kids, []) == start && [] + start == start;
      BoundedLoopEnds(kids, [], start, k);
    }
    if LoopEnds(kids, start) {
      var n: nat :| QueueAfter(kids, start, n) == [];
      if start != [] {
        assert start + [] == start && [] + OneDown(kids, start) == OneDown(kids, start);
        EndedLoopBounded(kids, start, [], n);
      }
      assert Exhausted(kids, start, n + 1);
    }
  }

  // ---- Translating levels ----

  function Map<T, U>(f: T -> U, xs: seq<T>): (r: seq<U>)
    ensures |r| == |xs|
    ensures forall i :: 0 <= i < |xs| ==> r[i] == f(xs[i])
  {
    if xs == [] then [] else [f(xs[0])] + Map(f, xs[1..])
  }

  lemma MapAppend<T, U>(f: T -> U, a: seq<T>, b: seq<T>)
    ensures Map(f, a + b) == Map(f, a) + Map(f, b)
  {
  }

  lemma {:induction false} OneDownAppend<T>(kids: T -> seq<T>, a: seq<T>, b: seq<T>)
    ensures OneDown(kids, a + b) == OneDown(kids, a) + OneDown(kids, b)
    decreases |a|
  {
    if a == [] {
      assert a + b == b;
    } else {
      assert (a + b)[1..] == a[1..] + b;
      OneDownAppend(kids, a[1..], b);
    }
  }

  /** All of `xs` are good and rank below k. */
  ghost predicate GoodBelow<T>(good: T -> bool, rank: T -> nat, xs: seq<T>, k: nat) {
    forall x :: x in xs ==> good(x) && rank(x) < k
  }

  /** On good things, f takes kids to kids, and kids are good and rank lower. */
  ghost predicate Translates<T(!new), U>(kids: T -> seq<T>, kids': U -> seq<U>, f: T -> U, good: T -> bool,
      rank: T -> nat) {
    forall x {:trigger kids'(f(x))} :: good(x) ==>
      kids'(f(x)) == Map(f, kids(x)) && GoodBelow(good, rank, kids(x), rank(x))
  }

  lemma {:induction false} OneDownTranslates<T(!new), U>(kids: T -> seq<T>, kids': U -> seq<U>, f: T -> U,
      good: T -> bool, rank: T -> nat, xs: seq<T>, k: nat)
    requires Translates(kids, kids', f, good, rank) && GoodBelow(good, rank, xs, k) && k > 0
    ensures OneDown(kids', Map(f, xs)) == Map(f, OneDown(kids, xs))
    ensures GoodBelow(good, rank, OneDown(kids, xs), k - 1)
    decreases |xs|
  {
    if xs != [] {
      assert xs[0] in xs;
      assert GoodBelow(good, rank, xs[1..], k);
      OneDownTranslates(kids, kids', f, good, rank, xs[1..], k);
      MapAppend(f, kids(xs[0]), OneDown(kids, xs[1..]));
      assert Map(f, xs)[1..] == Map(f, xs[1..]);
    }
  }

  lemma {:induction false} LevelsTranslate<T(!new), U>(kids: T -> seq<T>, kids': U -> seq<U>, f: T -> U,
      good: T -> bool, rank: T -> nat, xs: seq<T>, k: nat)
    requires Translates(kids, kids', f, good, rank) && GoodBelow(good, rank, xs, k)
    ensures Levels(kids', Map(f, xs), k) == Map(f, Levels(kids, xs, k))
    ensures Exhausted(kids, xs, k) && Exhausted(kids', Map(f, xs), k)
    ensures forall x :: x in Levels(kids, xs, k) ==> good(x)
    decreases k
  {
    if xs == [] {
      LevelsOfNothing(kids, k);
      LevelsOfNothing(kids', k);
    } else {
      assert xs[0] in xs;
      OneDownTranslates(kids, kids', f, good, rank, xs, k);
      LevelsTranslate(kids, kids', f, good, rank, OneDown(kids, xs), k - 1);
      MapAppend(f, xs, Levels(kids, OneDown(kids, xs), k - 1));
    }
  }

  // ---- Level order as a bag ----

  ghost function Bag<T, U>(bag: T -> multiset<U>, xs: seq<T>): multiset<U> {
    if xs == [] then multiset{} else bag(xs[0]) + Bag(bag, xs[1..])
  }

  lemma {:induction false} BagAppend<T, U>(bag: T -> multiset<U>, a: seq<T>, b: seq<T>)
    ensures Bag(bag, a + b) == Bag(bag, a) + Bag(bag, b)
    decreases |a|
  {
    if a == [] {
      assert a + b == b;
    } else {
      assert (a + b)[1..] == a[1..] + b;
      BagAppend(bag, a[1..], b);
    }
  }

  /** The bag of each thing is its own member and the bags of its kids. */
  ghost predicate Collects<T(!new), U>(kids: T -> seq<T>, f: T -> U, bag: T -> multiset<U>) {
    forall x :: bag(x) == multiset{f(x)} + Bag(bag, kids(x))
  }

  lemma {:induction false} BagOneDown<T(!new), U>(kids: T -> seq<T>, f: T -> U, bag: T -> multiset<U>, xs: seq<T>)
    requires Collects(kids, f, bag)
    ensures Bag(bag, xs) == multiset(Map(f, xs)) + Bag(bag, OneDown(kids, xs))
    decreases |xs|
  {
    if xs != [] {
      BagOneDown(kids, f, bag, xs[1..]);
      BagAppend(bag, kids(xs[0]), OneDown(kids, xs[1..]));
      assert Map(f, xs) == [f(xs[0])] + Map(f, xs[1..]);
      assert bag(xs[0]) == multiset{f(xs[0])} + Bag(bag, kids(xs[0]));
    }
  }

  /** Whatever the traversal order that `bag` stands for, level order has the same members. */
  lemma {:induction false} LevelsCollect<T(!new), U>(kids: T -> seq<T>, f: T -> U, bag: T -> multiset<U>, xs: seq<T>,
      k: nat)
    requires Collects(kids, f, bag) && Exhausted(kids, xs, k)
    ensures multiset(Map(f, Levels(kids, xs, k))) == Bag(bag, xs)
    decreases k
  {
    if xs == [] {
      LevelsOfNothing(kids, k);
    } else {
      LevelsCollect(kids, f, bag, OneDown(kids, xs), k - 1);
      MapAppend(f, xs, Levels(kids, OneDown(kids, xs), k - 1));
      BagOneDown(kids, f, bag, xs);
    }
  }

  /** The three facts for a single root: its levels translate, end, stay good, and collect its bag. */
  lemma RootLevels<T(!new), U, V>(kids: T -> seq<T>, kids': U -> seq<U>, f: T -> U, good: T -> bool, rank: T -> nat,
      g: T -> V, bag: T -> multiset<V>, root: T)
    requires Translates(kids, kids', f, good, rank) && good(root) && Collects(kids, g, bag)
    ensures var k, xs := rank(root) + 1, Levels(kids, [root], rank(root) + 1);
      && Exhausted(kids', [f(root)], k)
      && Levels(kids', [f(root)], k) == Map(f, xs)
      && (forall x :: x in xs ==> good(x))
      && multiset(Map(g, xs)) == bag(root)
  {
    var k := rank(root) + 1;
    assert Map(f, [root]) == [f(root)];
    LevelsTranslate(kids, kids', f, good, rank, [root], k);
    LevelsCollect(kids, g, bag, [root], k);
    assert Bag(bag, [root]) == bag(root) + Bag(bag, []);
  }
}
