/** What can be reached from a root, by paths, by levels and by a queue; and how far one has to look when what
    lies below a thing depends on one of finitely many keys. */
module Reach {
  import opened Breadth

  // ---- Paths ----

  predicate IsPath<T(==)>(kids: T -> seq<T>, p: seq<T>) {
    p != [] && forall i :: 0 <= i < |p| - 1 ==> p[i + 1] in kids(p[i])
  }

  /** p leads from x to y. */
  predicate Leads<T(==)>(kids: T -> seq<T>, p: seq<T>, x: T, y: T) {
    IsPath(kids, p) && p[0] == x && p[|p| - 1] == y
  }

  ghost predicate Reachable<T(!new)>(kids: T -> seq<T>, x: T, y: T) {
    exists p: seq<T> :: Leads(kids, p, x, y)
  }

  // ---- Levels ----

  /** The things k levels below `xs`. */
  function Level<T>(kids: T -> seq<T>, xs: seq<T>, k: nat): seq<T>
    decreases k
  {
    if k == 0 then xs else Level(kids, OneDown(kids, xs), k - 1)
  }

  lemma {:induction false} LevelOfNothing<T>(kids: T -> seq<T>, k: nat)
    ensures Level(kids, [], k) == []
    decreases k
  {
    if k > 0 {
      LevelOfNothing(kids, k - 1);
    }
  }

  lemma {:induction false} ExhaustedIff<T>(kids: T -> seq<T>, xs: seq<T>, k: nat)
    ensures Exhausted(kids, xs, k) <==> Level(kids, xs, k) == []
    decreases k
  {
    if xs == [] {
      LevelOfNothing(kids, k);
    } else if k > 0 {
      ExhaustedIff(kids, OneDown(kids, xs), k - 1);
    }
  }

  lemma {:induction false} OneDownMember<T>(kids: T -> seq<T>, xs: seq<T>, y: T)
    ensures y in OneDown(kids, xs) <==> exists x :: x in xs && y in kids(x)
    decreases |xs|
  {
    if xs != [] {
      OneDownMember(kids, xs[1..], y);
      assert forall x :: x in xs <==> x == xs[0] || x in xs[1..];
    }
  }

  /** A path of k steps ends k levels down. */
  lemma {:induction false} PathEndsInLevel<T>(kids: T -> seq<T>, xs: seq<T>, p: seq<T>)
    requires IsPath(kids, p) && p[0] in xs
    ensures p[|p| - 1] in Level(kids, xs, |p| - 1)
    decreases |p|
  {
    if |p| > 1 {
      OneDownMember(kids, xs, p[1]);
      PathEndsInLevel(kids, OneDown(kids, xs), p[1..]);
    }
  }

  /** Whatever is k levels down is at the end of a path of k steps. */
  lemma {:induction false} LevelHasPath<T>(kids: T -> seq<T>, xs: seq<T>, k: nat, y: T) returns (p: seq<T>)
    requires y in Level(kids, xs, k)
    ensures IsPath(kids, p) && p[0] in xs && p[|p| - 1] == y && |p| == k + 1
    decreases k
  {
    if k == 0 {
      p := [y];
    } else {
      var q := LevelHasPath(kids, OneDown(kids, xs), k - 1, y);
      OneDownMember(kids, xs, q[0]);
      var x :| x in xs && q[0] in kids(x);
      p := [x] + q;
    }
  }

  lemma {:induction false} LevelInLevels<T>(kids: T -> seq<T>, xs: seq<T>, k: nat, j: nat, y: T)
    requires j < k && y in Level(kids, xs, j)
    ensures y in Levels(kids, xs, k)
    decreases k
  {
    if j > 0 {
      LevelInLevels(kids, OneDown(kids, xs), k - 1, j - 1, y);
    }
  }

  lemma {:induction false} LevelsHaveLevel<T>(kids: T -> seq<T>, xs: seq<T>, k: nat, y: T) returns (j: nat)
    requires y in Levels(kids, xs, k)
    ensures j < k && y in Level(kids, xs, j)
    decreases k
  {
    if y in xs {
      j := 0;
    } else {
      j := LevelsHaveLevel(kids, OneDown(kids, xs), k - 1, y);
      j := j + 1;
    }
  }

  // ---- Finitely many keys ----

  /** Things with anything below them have one of the keys, and what is below depends on the key alone. */
  ghost predicate Keyed<T(!new), K>(kids: T -> seq<T>, key: T -> K, keys: set<K>) {
    && (forall x :: kids(x) != [] ==> key(x) in keys)
    && (forall x, y :: kids(x) != [] && kids(y) != [] && key(x) == key(y) ==> kids(x) == kids(y))
  }

  lemma {:induction false} Pigeonhole<K>(s: seq<K>, keys: set<K>) returns (i: nat, j: nat)
    requires |s| > |keys| && forall k :: 0 <= k < |s| ==> s[k] in keys
    ensures i < j < |s| && s[i] == s[j]
    decreases |s|
  {
    if k :| 1 <= k < |s| && s[k] == s[0] {
      i, j := 0, k;
    } else {
      var a, b := Pigeonhole(s[1..], keys - {s[0]});
      i, j := a + 1, b + 1;
    }
  }

  /** On a path of more steps than keys two steps leave from the same key. */
  lemma SameKeyTwice<T(!new), K>(kids: T -> seq<T>, key: T -> K, keys: set<K>, p: seq<T>) returns (i: nat, j: nat)
    requires Keyed(kids, key, keys) && IsPath(kids, p) && |p| - 1 > |keys|
    ensures i < j < |p| - 1 && kids(p[i]) == kids(p[j])
  {
    var s := seq(|p| - 1, k requires 0 <= k < |p| - 1 => key(p[k]));
    forall k | 0 <= k < |s| ensures s[k] in keys && kids(p[k]) != [] {
      assert p[k + 1] in kids(p[k]);
    }
    i, j := Pigeonhole(s, keys);
  }

  /** Where there is a path there is one of no more steps than keys. */
  lemma {:induction false} ShortPath<T(!new), K>(kids: T -> seq<T>, key: T -> K, keys: set<K>, p: seq<T>)
    returns (q: seq<T>)
    requires Keyed(kids, key, keys) && IsPath(kids, p)
    ensures IsPath(kids, q) && q[0] == p[0] && q[|q| - 1] == p[|p| - 1] && |q| - 1 <= |keys|
    decreases |p|
  {
    q := p;
    if |p| - 1 > |keys| {
      var i, j := SameKeyTwice(kids, key, keys, p);
      q := ShortPath(kids, key, keys, p[..i + 1] + p[j + 1..]);
    }
  }

  /** Where there is a path of more steps than keys there is one of any number of steps. */
  lemma {:induction false} LongPath<T(!new), K>(kids: T -> seq<T>, key: T -> K, keys: set<K>, p: seq<T>, n: nat)
    returns (q: seq<T>)
    requires Keyed(kids, key, keys) && IsPath(kids, p) && |p| - 1 > |keys|
    ensures IsPath(kids, q) && q[0] == p[0] && |q| == n + 1
    decreases if |p| > n then 0 else n + 1 - |p|
  {
    if |p| > n {
      q := p[..n + 1];
    } else {
      var i, j := SameKeyTwice(kids, key, keys, p);
      q := LongPath(kids, key, keys, p[..j + 1] + p[i + 1..], n);
    }
  }

  /** Only finitely many levels lie below the root exactly when they end after one more level than there are keys. */
  lemma FinitelyDeepIff<T(!new), K>(kids: T -> seq<T>, key: T -> K, keys: set<K>, root: T)
    requires Keyed(kids, key, keys)
    ensures FinitelyDeep(kids, [root]) <==> Exhausted(kids, [root], |keys| + 1)
  {
    ExhaustedIff(kids, [root], |keys| + 1);
    if !Exhausted(kids, [root], |keys| + 1) {
      var p := LevelHasPath(kids, [root], |keys| + 1, Level(kids, [root], |keys| + 1)[0]);
      forall k: nat ensures !Exhausted(kids, [root], k) {
        var q := LongPath(kids, key, keys, p, k);
        PathEndsInLevel(kids, [root], q);
        ExhaustedIff(kids, [root], k);
      }
    }
  }

  /** x is reached again from one of its own kids. */
  ghost predicate OwnDescendant<T(!new)>(kids: T -> seq<T>, x: T) {
    exists kid :: kid in kids(x) && Reachable(kids, kid, x)
  }

  /** A path can go round a circle as often as one likes. */
  lemma {:induction false} Rounds<T>(kids: T -> seq<T>, p: seq<T>, round: seq<T>, n: nat) returns (q: seq<T>)
    requires IsPath(kids, p) && IsPath(kids, round)
    requires round[0] in kids(p[|p| - 1]) && round[|round| - 1] == p[|p| - 1]
    ensures IsPath(kids, q) && q[0] == p[0] && |q| >= |p| + n
    decreases n
  {
    if n == 0 {
      q := p;
    } else {
      q := Rounds(kids, p + round, round, n - 1);
    }
  }

  lemma CircleIsEndless<T(!new)>(kids: T -> seq<T>, root: T, x: T)
    requires Reachable(kids, root, x) && OwnDescendant(kids, x)
    ensures !FinitelyDeep(kids, [root])
  {
    var p: seq<T> :| Leads(kids, p, root, x);
    var kid :| kid in kids(x) && Reachable(kids, kid, x);
    var round: seq<T> :| Leads(kids, round, kid, x);
    forall k: nat ensures !Exhausted(kids, [root], k) {
      var q := Rounds(kids, p, round, k);
      PathEndsInLevel(kids, [root], q[..k + 1]);
      ExhaustedIff(kids, [root], k);
    }
  }

  lemma SameKeyIsCircle<T(!new)>(kids: T -> seq<T>, p: seq<T>, i: nat, j: nat)
    requires IsPath(kids, p) && i < j < |p| - 1 && kids(p[i]) == kids(p[j])
    ensures Reachable(kids, p[0], p[j]) && OwnDescendant(kids, p[j])
  {
    var x, kid, round := p[j], p[i + 1], p[i + 1..j + 1];
    assert Leads(kids, p[..j + 1], p[0], x);
    assert kid in kids(p[i]);
    assert round[0] == kid && round[|round| - 1] == x;
    assert Leads(kids, round, kid, x);
    assert Reachable(kids, kid, x);
  }

  /** The levels go on for ever exactly when something reachable is its own descendant. */
  lemma EndlessIff<T(!new), K>(kids: T -> seq<T>, key: T -> K, keys: set<K>, root: T)
    requires Keyed(kids, key, keys)
    ensures !FinitelyDeep(kids, [root]) <==> exists x :: Reachable(kids, root, x) && OwnDescendant(kids, x)
  {
    if x :| Reachable(kids, root, x) && OwnDescendant(kids, x) {
      CircleIsEndless(kids, root, x);
    }
    if !FinitelyDeep(kids, [root]) {
      ExhaustedIff(kids, [root], |keys| + 1);
      var p := LevelHasPath(kids, [root], |keys| + 1, Level(kids, [root], |keys| + 1)[0]);
      var i, j := SameKeyTwice(kids, key, keys, p);
      SameKeyIsCircle(kids, p, i, j);
    }
  }

  /** What can be reached at all is among the first levels, one more than there are keys. */
  lemma ReachableIff<T(!new), K>(kids: T -> seq<T>, key: T -> K, keys: set<K>, root: T, y: T)
    requires Keyed(kids, key, keys)
    ensures Reachable(kids, root, y) <==> y in Levels(kids, [root], |keys| + 1)
  {
    if p: seq<T> :| Leads(kids, p, root, y) {
      var q := ShortPath(kids, key, keys, p);
      PathEndsInLevel(kids, [root], q);
      LevelInLevels(kids, [root], |keys| + 1, |q| - 1, y);
    }
    if y in Levels(kids, [root], |keys| + 1) {
      var j := LevelsHaveLevel(kids, [root], |keys| + 1, y);
      var p := LevelHasPath(kids, [root], j, y);
      assert Leads(kids, p, root, y);
    }
  }

  // ---- The queue ----

  lemma {:induction false} QueueAfterMore<T>(kids: T -> seq<T>, queue: seq<T>, a: nat, b: nat)
    ensures QueueAfter(kids, queue, a + b) == QueueAfter(kids, QueueAfter(kids, queue, a), b)
    decreases a
  {
    if a > 0 && queue != [] {
      QueueAfterMore(kids, queue[1..] + kids(queue[0]), a - 1, b);
    } else if queue == [] {
      assert QueueAfter(kids, [], a + b) == [] == QueueAfter(kids, QueueAfter<T>(kids, [], a), b);
    }
  }

  /** What waits at place i is at the head i turns later. */
  lemma {:induction false} Advances<T>(kids: T -> seq<T>, queue: seq<T>, i: nat)
    requires i < |queue|
    ensures QueueAfter(kids, queue, i) != [] && QueueAfter(kids, queue, i)[0] == queue[i]
    decreases i
  {
    if i > 0 {
      var next := queue[1..] + kids(queue[0]);
      assert next[i - 1] == queue[i];
      Advances(kids, next, i - 1);
    }
  }

  /** Whatever a path leads to from the queue comes to its head. */
  lemma {:induction false} PathIsServed<T>(kids: T -> seq<T>, queue: seq<T>, p: seq<T>) returns (n: nat)
    requires IsPath(kids, p) && p[0] in queue
    ensures QueueAfter(kids, queue, n) != [] && QueueAfter(kids, queue, n)[0] == p[|p| - 1]
    decreases |p|
  {
    var i :| 0 <= i < |queue| && queue[i] == p[0];
    Advances(kids, queue, i);
    n := i;
    if |p| > 1 {
      var here := QueueAfter(kids, queue, i);
      var next := here[1..] + kids(here[0]);
      assert QueueAfter(kids, here, 1) == next;
      var rest := PathIsServed(kids, next, p[1..]);
      QueueAfterMore(kids, queue, i, 1);
      QueueAfterMore(kids, queue, i + 1, rest);
      n := i + 1 + rest;
    }
  }

  /** Whatever is in the queue was reached from where it started. */
  lemma {:induction false} QueueIsReached<T(!new)>(kids: T -> seq<T>, root: T, queue: seq<T>, n: nat)
    requires forall x :: x in queue ==> Reachable(kids, root, x)
    ensures forall x :: x in QueueAfter(kids, queue, n) ==> Reachable(kids, root, x)
    decreases n
  {
    if n > 0 && queue != [] {
      var next := queue[1..] + kids(queue[0]);
      forall x | x in next ensures Reachable(kids, root, x) {
        if x in kids(queue[0]) {
          assert queue[0] in queue;
          var p: seq<T> :| Leads(kids, p, root, queue[0]);
          assert Leads(kids, p + [x], root, x);
        }
      }
      QueueIsReached(kids, root, next, n - 1);
    }
  }
}
