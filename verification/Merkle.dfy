/** The two facts that make a root digest worth having: it is a canonical form of the tree, and the order
    in which capture stores blobs never leaves a stored Directory with a dangling reference. */
module Merkle {
  import opened Digests
  import opened Named
  import opened Wire
  import Cas
  import opened Trees

  // ---- Which blobs a tree needs ----

  lemma {:induction false} ChildSteps(es: Entries, n: Text)
    requires Find(es, n).Some?
    ensures match Find(es, n).value
      case File(content, _) => PutFile(content) in EntrySteps(es)
      case Symlink(_) => true
      case Dir(sub) => forall s :: s in Steps(sub) ==> s in EntrySteps(es)
  {
    if es[0].name != n {
      ChildSteps(es[1..], n);
    }
  }

  lemma {:induction false} ChildBlobs(sha: HashFn, es: Entries, n: Text)
    requires Find(es, n).Some?
    ensures BytesOf(sha, es) in Blobs(sha, es)
    ensures Find(es, n).value.File? ==> Find(es, n).value.content in Blobs(sha, es)
    ensures Find(es, n).value.Dir? ==> Blobs(sha, Find(es, n).value.entries) <= Blobs(sha, es)
  {
    ChildSteps(es, n);
    RootBlob(sha, es);
    match Find(es, n).value
    case File(content, _) =>
      assert PutFile(content) in Steps(es);
      assert StepBytes(sha, PutFile(content)) == content;
    case Symlink(_) =>
    case Dir(sub) =>
      forall s | s in Steps(sub) ensures s in Steps(es) {
        assert s in EntrySteps(es);
      }
  }

  lemma RootBlob(sha: HashFn, es: Entries)
    ensures BytesOf(sha, es) in Blobs(sha, es)
  {
    assert Steps(es)[|EntrySteps(es)|] == PutDirectory(es);
    assert StepBytes(sha, PutDirectory(es)) == BytesOf(sha, es);
  }

  /** A tree that is complete in a store can be read back from it. */
  lemma {:induction false} StoredMessage(sha: HashFn, m: Cas.Blobs, t: Entries)
    requires WellFormed(t) && Encodable(t) && Complete(sha, m, t)
    ensures Cas.Lookup(m, DigestOf(sha, t)) == Some(BytesOf(sha, t))
    ensures FetchDirectory(m, DigestOf(sha, t)) == Some(DirOf(sha, t))
  {
    RootBlob(sha, t);
    assert Cas.Holds(sha, m, BytesOf(sha, t));
    EncodableIsClean(sha, t);
    DirectoryRoundTrip(DirOf(sha, t));
  }

  // ---- The root digest is a canonical form ----

  /** What sits at one name agrees, and below it the trees still agree. */
  lemma {:induction false} SameTreeChild(t: Entries, u: Entries, n: Text)
    requires SameTree(t, u)
    ensures Flagged(At(t, [n])) == Flagged(At(u, [n]))
    ensures SubtreeOf(Find(t, n)).Some? <==> SubtreeOf(Find(u, n)).Some?
    ensures SubtreeOf(Find(t, n)).Some? ==> SameTree(SubtreeOf(Find(t, n)).value, SubtreeOf(Find(u, n)).value)
  {
    assert [n][1..] == [];
    assert Flagged(At(t, [n])) == Flagged(At(u, [n]));
    if SubtreeOf(Find(t, n)).Some? {
      var t', u' := SubtreeOf(Find(t, n)).value, SubtreeOf(Find(u, n)).value;
      forall p ensures Flagged(At(t', p)) == Flagged(At(u', p)) {
        var q := [n] + p;
        assert q[1..] == p;
        assert Flagged(At(t, q)) == Flagged(At(u, q));
      }
    }
  }

  lemma FlagIsKept(m: Mode, n: Mode)
    ensures IsExecutable(MaterializedMode(IsExecutable(m))) == IsExecutable(m)
    ensures MaterializedMode(IsExecutable(m)) == MaterializedMode(IsExecutable(n)) ==>
      IsExecutable(m) == IsExecutable(n)
  {
  }

  /** The messages answer every lookup alike. */
  ghost predicate SameLookups(sha: HashFn, t: Entries, u: Entries) {
    forall n ::
      && FileRefOf(sha, Find(t, n)) == FileRefOf(sha, Find(u, n))
      && TargetOf(Find(t, n)) == TargetOf(Find(u, n))
      && SubdigestOf(sha, Find(t, n)) == SubdigestOf(sha, Find(u, n))
  }

  lemma {:induction false} SameLookupsSameMessage(sha: HashFn, t: Entries, u: Entries)
    requires WellFormed(t) && WellFormed(u)
    ensures SameLookups(sha, t, u) <==> DirOf(sha, t) == DirOf(sha, u)
  {
    DirOfLookups(sha, t);
    DirOfLookups(sha, u);
    var d, e := DirOf(sha, t), DirOf(sha, u);
    if SameLookups(sha, t, u) {
      AscendingDetermined(d.files, e.files);
      AscendingDetermined(d.symlinks, e.symlinks);
      AscendingDetermined(d.directories, e.directories);
    }
    if d == e {
      forall n: Text
        ensures FileRefOf(sha, Find(t, n)) == FileRefOf(sha, Find(u, n))
        ensures TargetOf(Find(t, n)) == TargetOf(Find(u, n))
        ensures SubdigestOf(sha, Find(t, n)) == SubdigestOf(sha, Find(u, n))
      {
        assert Find(d.files, n) == Find(e.files, n);
        assert Find(d.symlinks, n) == Find(e.symlinks, n);
        assert Find(d.directories, n) == Find(e.directories, n);
      }
    }
  }

  /** Equal trees have equal messages, whatever order their entries were enumerated in. */
  lemma {:induction false} SameTreeSameMessage(sha: HashFn, t: Entries, u: Entries)
    requires WellFormed(t) && WellFormed(u) && SameTree(t, u)
    ensures DirOf(sha, t) == DirOf(sha, u)
    decreases Height(t)
  {
    forall n: Text
      ensures FileRefOf(sha, Find(t, n)) == FileRefOf(sha, Find(u, n))
      ensures TargetOf(Find(t, n)) == TargetOf(Find(u, n))
      ensures SubdigestOf(sha, Find(t, n)) == SubdigestOf(sha, Find(u, n))
    {
      SameTreeChild(t, u, n);

      if SubtreeOf(Find(t, n)).Some? {
        WellFormedChild(t, n);
        WellFormedChild(u, n);
        ChildHeight(t, n);
        SameTreeSameMessage(sha, SubtreeOf(Find(t, n)).value, SubtreeOf(Find(u, n)).value);
      } else if FileRefOf(sha, Find(t, n)).Some? {
        FlagIsKept(Find(t, n).value.mode, Find(u, n).value.mode);
      }
    }
    SameLookupsSameMessage(sha, t, u);
  }

  /** Where no hashes collide, equal messages list under a name the same file, up to the executable flag, the
      same symlink, or directories of the same digest. */
  lemma {:induction false} SameMessageSameEntry(sha: HashFn, t: Entries, u: Entries, n: Text)
    requires WellFormed(t) && WellFormed(u) && NoCollision(sha, Blobs(sha, t) + Blobs(sha, u))
    requires DirOf(sha, t) == DirOf(sha, u)
    ensures match (Find<Node>(t, n), Find<Node>(u, n))
      case (None, None) => true
      case (Some(File(c, mode)), Some(File(c', mode'))) =>
        Flagged(Some(StatFile(c, mode))) == Flagged(Some(StatFile(c', mode')))
      case (Some(Symlink(x)), Some(Symlink(y))) => x == y
      case (Some(Dir(t')), Some(Dir(u'))) => DigestOf(sha, t') == DigestOf(sha, u')
      case _ => false
  {
    SameLookupsSameMessage(sha, t, u);
    assert FileRefOf(sha, Find(t, n)) == FileRefOf(sha, Find(u, n));
    assert TargetOf(Find(t, n)) == TargetOf(Find(u, n));
    assert SubdigestOf(sha, Find(t, n)) == SubdigestOf(sha, Find(u, n));
    if Find(t, n).Some? && Find(t, n).value.File? {
      ChildBlobs(sha, t, n);
      ChildBlobs(sha, u, n);
      DigestIdentifies(sha, Blobs(sha, t) + Blobs(sha, u), Find(t, n).value.content, Find(u, n).value.content);
    }
  }

  /** Where no hashes collide, equal messages come from equal trees. */
  lemma {:induction false} SameMessageSameTree(sha: HashFn, t: Entries, u: Entries, p: Path)
    requires WellFormed(t) && WellFormed(u) && Encodable(t) && Encodable(u)
    requires NoCollision(sha, Blobs(sha, t) + Blobs(sha, u))
    requires DirOf(sha, t) == DirOf(sha, u)
    ensures Flagged(At(t, p)) == Flagged(At(u, p))
    decreases p
  {
    if p != [] {
      var n := p[0];
      SameMessageSameEntry(sha, t, u, n);
      if Find(t, n).Some? && Find(t, n).value.Dir? {
        var t', u', all := Find(t, n).value.entries, Find(u, n).value.entries, Blobs(sha, t) + Blobs(sha, u);
        WellFormedChild(t, n);
        WellFormedChild(u, n);
        EncodableChild(t, n);
        EncodableChild(u, n);
        ChildBlobs(sha, t, n);
        ChildBlobs(sha, u, n);
        SameDigestSameMessage(sha, t', u', all);
        NoCollisionSubset(sha, Blobs(sha, t') + Blobs(sha, u'), all);
        SameMessageSameTree(sha, t', u', p[1..]);
      }
    }
  }

  lemma {:induction false} SameDigestSameMessage(sha: HashFn, t: Entries, u: Entries, all: set<Bytes>)
    requires WellFormed(t) && WellFormed(u) && Encodable(t) && Encodable(u)
    requires NoCollision(sha, all) && Blobs(sha, t) + Blobs(sha, u) <= all
    requires DigestOf(sha, t) == DigestOf(sha, u)
    ensures DirOf(sha, t) == DirOf(sha, u)
  {
    RootBlob(sha, t);
    RootBlob(sha, u);
    DigestIdentifies(sha, all, BytesOf(sha, t), BytesOf(sha, u));
    EncodableIsClean(sha, t);
    EncodableIsClean(sha, u);
    EncodeDirectoryInjective(DirOf(sha, t), DirOf(sha, u));
  }

  /** The root digest is a canonical form: it does not depend on the order in which entries were
      enumerated, and two trees share it exactly when they are equal up to the executable flag. */
  lemma {:induction false} CanonicalForm(sha: HashFn, t: Entries, u: Entries)
    requires WellFormed(t) && WellFormed(u) && Encodable(t) && Encodable(u)
    requires NoCollision(sha, Blobs(sha, t) + Blobs(sha, u))
    ensures DigestOf(sha, t) == DigestOf(sha, u) <==> SameTree(t, u)
  {
    if SameTree(t, u) {
      SameTreeSameMessage(sha, t, u);
    }
    if DigestOf(sha, t) == DigestOf(sha, u) {
      SameDigestSameMessage(sha, t, u, Blobs(sha, t) + Blobs(sha, u));
      forall p ensures Flagged(At(t, p)) == Flagged(At(u, p)) {
        SameMessageSameTree(sha, t, u, p);
      }
    }
  }
}
