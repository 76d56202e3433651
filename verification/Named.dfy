/** Lists of named things: directory listings and the three child lists of a REAPI Directory.
    sort.Slice by name, and what sorting cannot change. */
module Named {
  import opened Digests

  datatype Named<+T> = Named(name: Text, value: T)

  /** Go's `<` on strings: bytewise lexicographic. */
  predicate Below(a: Text, b: Text) {
    if b == [] then false
    else if a == [] then true
    else a[0] < b[0] || (a[0] == b[0] && Below(a[1..], b[1..]))
  }

  lemma {:induction false} BelowIsStrictOrder(a: Text, b: Text, c: Text)
    ensures !Below(a, a)
    ensures Below(a, b) && Below(b, c) ==> Below(a, c)
    ensures Below(a, b) || a == b || Below(b, a)
    decreases |a| + |b| + |c|
  {
    if a != [] && b != [] && c != [] {
      BelowIsStrictOrder(a[1..], b[1..], c[1..]);
      assert a == [a[0]] + a[1..] && b == [b[0]] + b[1..];
    } else if a != [] {
      BelowIsStrictOrder(a[1..], if b == [] then b else b[1..], c);
      assert a == [a[0]] + a[1..] && (b != [] ==> b == [b[0]] + b[1..]);
    }
  }

  /** Go's order, without recursion: a proper prefix comes first, and otherwise the first difference decides. */
  lemma {:induction false} BelowMeans(a: Text, b: Text)
    ensures Below(a, b) <==> exists k :: FirstDifference(a, b, k)
    decreases |a|
  {
    if b == [] {
    } else if a == [] {
      assert FirstDifference(a, b, 0);
    } else {
      BelowMeans(a[1..], b[1..]);
      if k: nat :| FirstDifference(a[1..], b[1..], k) {
        if a[0] == b[0] {
          assert a[..k + 1] == [a[0]] + a[1..][..k] && b[..k + 1] == [b[0]] + b[1..][..k];
          assert FirstDifference(a, b, k + 1);
        }
      }
      if a[0] < b[0] {
        assert FirstDifference(a, b, 0);
      }
      if k: nat :| FirstDifference(a, b, k) && k > 0 {
        assert a[..k][0] == a[0] && b[..k][0] == b[0];
        assert a[1..][..k - 1] == a[..k][1..] && b[1..][..k - 1] == b[..k][1..];
        assert FirstDifference(a[1..], b[1..], k - 1);
      }
    }
  }

  predicate FirstDifference(a: Text, b: Text, k: nat) {
    k <= |a| && k < |b| && a[..k] == b[..k] && (k == |a| || a[k] < b[k])
  }

  /** The first thing called n. */
  function Find<T>(s: seq<Named<T>>, n: Text): Option<T> {
    if s == [] then None
    else if s[0].name == n then Some(s[0].value)
    else Find(s[1..], n)
  }

  lemma {:induction false} FindAppend<T>(a: seq<Named<T>>, b: seq<Named<T>>, n: Text)
    ensures Find(a + b, n) == if Find(a, n).Some? then Find(a, n) else Find(b, n)
  {
    if a == [] {
      assert a + b == b;
    } else {
      assert (a + b)[1..] == a[1..] + b;
      FindAppend(a[1..], b, n);
    }
  }

  predicate Unique<T>(s: seq<Named<T>>) {
    s == [] || (Find(s[1..], s[0].name).None? && Unique(s[1..]))
  }

  /** Strictly ascending by name. */
  predicate Ascending<T>(s: seq<Named<T>>) {
    |s| < 2 || (Below(s[0].name, s[1].name) && Ascending(s[1..]))
  }

  function Insert<T>(x: Named<T>, s: seq<Named<T>>): seq<Named<T>> {
    if s == [] || !Below(s[0].name, x.name) then [x] + s
    else [s[0]] + Insert(x, s[1..])
  }

  /** sort.Slice with `<` on names.  Names are unique wherever the code sorts, so the result does
      not depend on the algorithm (SortKeepsFind and AscendingDetermined). */
  function Sort<T>(s: seq<Named<T>>): seq<Named<T>> {
    if s == [] then [] else Insert(s[0], Sort(s[1..]))
  }

  lemma {:induction false} InsertMembers<T>(x: Named<T>, s: seq<Named<T>>)
    ensures forall y :: y in Insert(x, s) ==> y == x || y in s
  {
    if s != [] && Below(s[0].name, x.name) {
      InsertMembers(x, s[1..]);
    }
  }

  lemma {:induction false} SortMembers<T>(s: seq<Named<T>>)
    ensures forall y :: y in Sort(s) ==> y in s
  {
    if s != [] {
      SortMembers(s[1..]);
      InsertMembers(s[0], Sort(s[1..]));
    }
  }

  lemma {:induction false} FindMember<T>(s: seq<Named<T>>, i: nat)
    requires i < |s| && Unique(s)
    ensures Find(s, s[i].name) == Some(s[i].value)
  {
    if i > 0 {
      FindMember(s[1..], i - 1);
    }
  }

  lemma {:induction false} FindWitness<T>(s: seq<Named<T>>, n: Text) returns (i: nat)
    requires Find(s, n).Some?
    ensures i < |s| && s[i] == Named(n, Find(s, n).value)
  {
    if s[0].name == n {
      i := 0;
    } else {
      i := FindWitness(s[1..], n);
      i := i + 1;
    }
  }

  lemma {:induction false} AscendingHead<T>(s: seq<Named<T>>, n: Text)
    requires Ascending(s) && s != [] && (n == s[0].name || Below(n, s[0].name))
    ensures Find(s[1..], n).None?
    ensures Unique(s)
    decreases |s|
  {
    if |s| > 1 {
      BelowIsStrictOrder(n, s[0].name, s[1].name);
      BelowIsStrictOrder(n, s[1].name, s[1].name);
      AscendingHead(s[1..], n);
      BelowIsStrictOrder(s[0].name, s[1].name, s[1].name);
      AscendingHead(s[1..], s[0].name);
    }
  }

  lemma AscendingUnique<T>(s: seq<Named<T>>)
    requires Ascending(s)
    ensures Unique(s)
  {
    if s != [] {
      AscendingHead(s, s[0].name);
    }
  }

  lemma {:induction false} InsertKeepsFind<T>(x: Named<T>, s: seq<Named<T>>, n: Text)
    requires Find(s, x.name).None?
    ensures Find(Insert(x, s), n) == if n == x.name then Some(x.value) else Find(s, n)
  {
    if s != [] && Below(s[0].name, x.name) {
      InsertKeepsFind(x, s[1..], n);
    } else {
      assert ([x] + s)[1..] == s;
    }
  }

  lemma {:induction false} InsertAscending<T>(x: Named<T>, s: seq<Named<T>>)
    requires Ascending(s) && Find(s, x.name).None?
    ensures Ascending(Insert(x, s))
  {
    if s != [] && Below(s[0].name, x.name) {
      InsertAscending(x, s[1..]);
      var rest := Insert(x, s[1..]);
      assert ([s[0]] + rest)[1..] == rest;
    } else if s != [] {
      BelowIsStrictOrder(x.name, s[0].name, s[0].name);
      assert ([x] + s)[1..] == s;
    }
  }

  /** Sorting uniquely named things puts them in strictly ascending order and changes no lookup. */
  lemma {:induction false} SortKeepsFind<T>(s: seq<Named<T>>)
    requires Unique(s)
    ensures Ascending(Sort(s))
    ensures forall n :: Find(Sort(s), n) == Find(s, n)
  {
    if s != [] {
      SortKeepsFind(s[1..]);
      InsertAscending(s[0], Sort(s[1..]));
      forall n ensures Find(Sort(s), n) == Find(s, n) {
        InsertKeepsFind(s[0], Sort(s[1..]), n);
      }
    }
  }

  /** An ascending list is determined by its lookups. */
  lemma {:induction false} AscendingDetermined<T>(a: seq<Named<T>>, b: seq<Named<T>>)
    requires Ascending(a) && Ascending(b)
    requires forall n :: Find(a, n) == Find(b, n)
    ensures a == b
  {
    if a == [] {
      assert b == [] || Find(b, b[0].name).Some?;
    } else if b == [] {
      assert Find(a, a[0].name).Some?;
      assert false;
    } else {
      BelowIsStrictOrder(a[0].name, b[0].name, a[0].name);
      if Below(a[0].name, b[0].name) {
        AscendingHead(b, a[0].name);
        assert Find(a, a[0].name).Some?;
        assert false;
      } else if Below(b[0].name, a[0].name) {
        AscendingHead(a, b[0].name);
        assert Find(b, b[0].name).Some?;
        assert false;
      }
      assert Find(a, a[0].name) == Some(a[0].value) && Find(b, b[0].name) == Some(b[0].value);
      AscendingHead(a, a[0].name);
      AscendingHead(b, b[0].name);
      forall n ensures Find(a[1..], n) == Find(b[1..], n) {
        assert Find(a, n) == Find(b, n);
      }
      AscendingDetermined(a[1..], b[1..]);
      assert a == [a[0]] + a[1..] && b == [b[0]] + b[1..];
    }
  }

  /** Sorting is the identity on an ascending list. */
  lemma {:induction false} SortAscending<T>(s: seq<Named<T>>)
    requires Ascending(s)
    ensures Sort(s) == s
  {
    if s != [] {
      SortAscending(s[1..]);
      if |s| > 1 {
        BelowIsStrictOrder(s[0].name, s[1].name, s[0].name);
      }
      assert s == [s[0]] + s[1..];
    }
  }

  function MapValues<T, U>(f: T -> U, s: seq<Named<T>>): (r: seq<Named<U>>)
    ensures |r| == |s|
    ensures forall i :: 0 <= i < |s| ==> r[i] == Named(s[i].name, f(s[i].value))
  {
    if s == [] then [] else [Named(s[0].name, f(s[0].value))] + MapValues(f, s[1..])
  }

  lemma {:induction false} InsertMap<T, U>(f: T -> U, x: Named<T>, s: seq<Named<T>>)
    ensures MapValues(f, Insert(x, s)) == Insert(Named(x.name, f(x.value)), MapValues(f, s))
  {
    if s != [] && Below(s[0].name, x.name) {
      InsertMap(f, x, s[1..]);
      assert ([s[0]] + Insert(x, s[1..]))[1..] == Insert(x, s[1..]);
      assert MapValues(f, s)[1..] == MapValues(f, s[1..]);
    } else {
      assert ([x] + s)[1..] == s;
    }
  }

  lemma {:induction false} SortMap<T, U>(f: T -> U, s: seq<Named<T>>)
    ensures MapValues(f, Sort(s)) == Sort(MapValues(f, s))
  {
    if s != [] {
      SortMap(f, s[1..]);
      InsertMap(f, s[0], Sort(s[1..]));
      assert MapValues(f, s)[1..] == MapValues(f, s[1..]);
    }
  }
}
