/** The names that Materialize writes (internal/casfs/casfs.go: checkName). */
module EntryNames {
  import opened Digests
  import opened Strings
  import opened Trees

  /** filepath.Join, segment by segment: empty ones and "." lead nowhere, ".." leads up. */
  function Walk(dir: Path, parts: seq<Text>): Path
    decreases |parts|
  {
    if parts == [] then dir
    else if parts[0] == [] || parts[0] == [46] then Walk(dir, parts[1..])
    else if parts[0] == [46, 46] then Walk(if dir == [] then [] else dir[..|dir| - 1], parts[1..])
    else Walk(dir + [parts[0]], parts[1..])
  }

  /** checkName accepts exactly the names that lead to an entry of the directory itself. */
  lemma LegalNamesStay(n: Text)
    ensures LegalName(n) <==> forall dir: Path :: Walk(dir, Split(n, 47)) == dir + [n]
  {
    if LegalName(n) {
      SplitWhole(n, 47);
      forall dir: Path ensures Walk(dir, Split(n, 47)) == dir + [n] {
        assert [n][1..] == [];
      }
    } else {
      forall i | 0 <= i < |Split(n, 47)| ensures 47 !in Split(n, 47)[i] {
        SplitParts(n, 47, i);
      }
      WalkedSegments([], Split(n, 47));
      var led := Walk([], Split(n, 47));
      if 47 in n {
        assert |led| > 0 ==> led[0] != n;
        assert led != [n];
      } else {
        SplitWhole(n, 47);
        assert [n][1..] == [] && Walk([], [n][1..]) == [];
        assert n in {[], [46], [46, 46]};
        assert led == [];
      }
      assert [] + [n] == [n];
    }
  }

  /** A walk never makes a segment with a separator. */
  lemma {:induction false} WalkedSegments(dir: Path, parts: seq<Text>)
    requires forall i :: 0 <= i < |dir| ==> 47 !in dir[i]
    requires forall i :: 0 <= i < |parts| ==> 47 !in parts[i]
    ensures forall i :: 0 <= i < |Walk(dir, parts)| ==> 47 !in Walk(dir, parts)[i]
    decreases |parts|
  {
    if parts != [] {
      if parts[0] == [] || parts[0] == [46] {
        WalkedSegments(dir, parts[1..]);
      } else if parts[0] == [46, 46] {
        WalkedSegments(if dir == [] then [] else dir[..|dir| - 1], parts[1..]);
      } else {
        WalkedSegments(dir + [parts[0]], parts[1..]);
      }
    }
  }
}
