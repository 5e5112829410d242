/** What one apply does to the stored object. */
module ApplyEffects {
  import opened Options
  import opened Json
  import opened ThreeWayMerge
  import opened StatefulSets

  lemma {:induction false} SetAtCovers(t: Json, p: Path, v: Json, want: Json)
    requires p != [] && Covers(t, want) && At(want, p).None? && !LeafOn(want, p)
    ensures Covers(SetAt(t, p, v), want)
    decreases |p|
  {
    var k := p[0];
    if k in want.fields {
      assert |p| != 1;
      SetAtCovers(t.fields[k], p[1..], v, want.fields[k]);
    }
  }

  lemma {:induction false} SetAtNotLeaf(t: Json, p: Path, v: Json, q: Path)
    requires Apart(p, q) && !LeafOn(t, q)
    ensures !LeafOn(SetAt(t, p, v), q)
    decreases |p|
  {
    if p[0] == q[0] {
      if p[0] in t.fields {
        SetAtNotLeaf(t.fields[p[0]], p[1..], v, q[1..]);
      } else {
        FreshNotLeaf(p[1..], v, q[1..]);
      }
    }
  }

  lemma {:induction false} FreshNotLeaf(p: Path, v: Json, q: Path)
    requires Apart(p, q)
    ensures !LeafOn(SetAt(Null, p, v), q)
    decreases |p|
  {
    if p[0] == q[0] {
      FreshNotLeaf(p[1..], v, q[1..]);
    }
  }

  lemma PathFacts()
    ensures Apart(HASH, LAST) && Apart(SERVICE, LAST) && Apart(POLICY, LAST)
    ensures Apart(HASH, SERVICE) && Apart(HASH, POLICY) && Apart(HASH, NAMESPACE) && Apart(HASH, REPLICAS)
    ensures Apart(SERVICE, POLICY) && Apart(SERVICE, NAMESPACE) && Apart(SERVICE, REPLICAS)
    ensures Apart(POLICY, SERVICE) && Apart(POLICY, NAMESPACE) && Apart(POLICY, REPLICAS)
    ensures Apart(SERVICE, HASH) && Apart(POLICY, HASH)
  {
    assert Apart(["annotations"], ["namespace"]);
    assert Apart(HASH[2..], LAST[2..]) && Apart(HASH[1..], LAST[1..]);
    assert Apart(SERVICE[1..], POLICY[1..]) && Apart(POLICY[1..], SERVICE[1..]);
    assert Apart(SERVICE[1..], REPLICAS[1..]) && Apart(POLICY[1..], REPLICAS[1..]);
    assert Apart(HASH[1..], NAMESPACE[1..]);
  }

  lemma LastApart(p: Path)
    requires p in {HASH, REPLICAS, SERVICE, POLICY, SPEC, NAMESPACE}
    ensures Apart(LAST, p)
  {
    if p in {HASH, NAMESPACE} {
      assert Apart(LAST[1..], NAMESPACE[1..]);
      assert Apart(LAST[2..], HASH[2..]) && Apart(LAST[1..], HASH[1..]);
    }
  }

  lemma HashedPathFacts(i: nat)
    requires i < |HASHED|
    ensures Apart(HASH, HASHED[i]) && Apart(SERVICE, HASHED[i]) && Apart(POLICY, HASHED[i]) && Apart(LAST, HASHED[i])
  {
    var q := HASHED[i];
    assert |q| == 2;
    assert Apart(HASH[1..], q[1..]) && Apart(LAST[1..], q[1..]);
    assert Apart(SERVICE[1..], q[1..]) && Apart(POLICY[1..], q[1..]);
  }

  lemma DesiredFacts(want: Doc, p: Path)
    requires Desired(want) && p in {HASH, LAST}
    ensures At(want, p).None? && !LeafOn(want, p)
  {
    assert p[0] == "metadata" && p[1..][0] == "annotations";
    var m := want.fields["metadata"];
    assert At(m, p[1..]).None? && !LeafOn(m, p[1..]);
  }

  lemma AlignedFacts(want: Doc, actual: Json, p: Path)
    requires Desired(want)
    ensures CleanObj(Aligned(want, actual))
    ensures Apart(SERVICE, p) && Apart(POLICY, p) ==> At(Aligned(want, actual), p) == At(want, p)
    ensures Apart(SERVICE, p) && Apart(POLICY, p) && !LeafOn(want, p) ==> !LeafOn(Aligned(want, actual), p)
    ensures At(Aligned(want, actual), SERVICE) == Some(Atom(AtomAt(actual, SERVICE)))
    ensures AtomAt(actual, POLICY) == ORDERED ==> At(Aligned(want, actual), POLICY) == Some(Atom(ORDERED))
  {
    PathFacts();
    var v := Atom(AtomAt(actual, SERVICE));
    var e1 := if AtomAt(actual, POLICY) == ORDERED then SetAt(want, POLICY, Atom(ORDERED)) else want;
    SetAtClean(want, POLICY, Atom(ORDERED));
    SetAtClean(e1, SERVICE, v);
    SetAtSame(want, POLICY, Atom(ORDERED));
    SetAtSame(e1, SERVICE, v);
    SetAtApart(e1, SERVICE, v, POLICY);
    if Apart(SERVICE, p) && Apart(POLICY, p) {
      SetAtApart(want, POLICY, Atom(ORDERED), p);
      SetAtApart(e1, SERVICE, v, p);
      if !LeafOn(want, p) {
        SetAtNotLeaf(want, POLICY, Atom(ORDERED), p);
        SetAtNotLeaf(e1, SERVICE, v, p);
      }
    }
  }

  /** The object a patch is computed from: what the user wants, aligned with what creation fixed,
      with the hash of exactly that on it and no trace of the last applied configuration. */
  lemma SentFacts(hash: Hasher, want: Doc, actual: Json)
    requires Desired(want)
    ensures var e := Sent(hash, want, actual);
      && CleanObj(e)
      && At(e, LAST).None? && !LeafOn(e, LAST)
      && At(e, HASH) == Some(Atom(hash(HashedFieldsOf(Aligned(want, actual)))))
      && At(e, SERVICE) == Some(Atom(AtomAt(actual, SERVICE)))
      && At(e, NAMESPACE) == At(want, NAMESPACE)
      && At(e, REPLICAS) == At(want, REPLICAS)
      && (AtomAt(actual, POLICY) == ORDERED ==> At(e, POLICY) == Some(Atom(ORDERED)))
  {
    PathFacts();
    var a := Aligned(want, actual);
    var v := Atom(StatefulSetDeepEqual(hash, a, actual).0);
    DesiredFacts(want, HASH);
    DesiredFacts(want, LAST);
    AlignedFacts(want, actual, HASH);
    AlignedFacts(want, actual, LAST);
    AlignedFacts(want, actual, NAMESPACE);
    AlignedFacts(want, actual, REPLICAS);
    SetAtClean(a, HASH, v);
    SetAtSame(a, HASH, v);
    SetAtApart(a, HASH, v, LAST);
    SetAtNotLeaf(a, HASH, v, LAST);
    SetAtApart(a, HASH, v, SERVICE);
    SetAtApart(a, HASH, v, POLICY);
    SetAtApart(a, HASH, v, NAMESPACE);
    SetAtApart(a, HASH, v, REPLICAS);
  }

  /** Annotations are not hashed. */
  lemma HashIgnoresAnnotations(t: Json, p: Path, v: Json)
    requires p in {HASH, LAST}
    ensures HashedFieldsOf(SetAt(t, p, v)) == HashedFieldsOf(t)
  {
    PathFacts();
    var r := SetAt(t, p, v);
    forall i: nat | i < |HASHED| ensures At(r, HASHED[i]) == At(t, HASHED[i]) {
      HashedPathFacts(i);
      SetAtApart(t, p, v, HASHED[i]);
    }
    assert Apart(LAST, SERVICE) && Apart(LAST, REPLICAS);
    SetAtApart(t, p, v, SERVICE);
    SetAtApart(t, p, v, REPLICAS);
  }

  lemma {:induction false} LeafEnds(j: Json, p: Path)
    requires At(j, p).Some? && !At(j, p).value.Obj?
    ensures LeafOn(j, p)
    decreases p
  {
    if p != [] && j.Obj? {
      LeafEnds(j.fields[p[0]], p[1..]);
    }
  }

  lemma CoversAtom(cur: Json, want: Json, p: Path)
    requires Covers(cur, want) && At(want, p).Some? && !At(want, p).value.Obj?
    ensures At(cur, p) == At(want, p)
  {
    LeafEnds(want, p);
    CoversAt(cur, want, p);
  }

  /** ApplyStatefulSet never reaches the "no changes detected" exit of the patch: it only patches when
      the hash it is about to note differs from the stored one. */
  lemma EmptyPatchUnreachable(hash: Hasher, want: Doc, s: Stored)
    requires Desired(want) && LastApplied(s.tree).Some?
    requires !StatefulSetDeepEqual(hash, Aligned(want, s.tree), s.tree).1
    ensures ThreeWayPatch(LastApplied(s.tree).value, Sent(hash, want, s.tree), s.tree) != EMPTY
  {
    var e := Sent(hash, want, s.tree);
    PatchEmptyIff(LastApplied(s.tree).value, e, s.tree);
    SentFacts(hash, want, s.tree);
    if Covers(s.tree, e) {
      CoversAtom(s.tree, e, HASH);
      NamespaceIsSet(want);
      CoversAtom(s.tree, e, NAMESPACE);
      AlignedEquality(hash, want, s.tree);
    }
  }

  lemma NamespaceIsSet(want: Doc)
    requires Desired(want)
    ensures At(want, NAMESPACE).Some? && At(want, NAMESPACE).value.Atom?
  {
    var m := want.fields["metadata"];
    assert At(m, ["namespace"]) == Some(m.fields["namespace"]);
    assert NAMESPACE[1..] == ["namespace"];
  }

  /** The write decision in plain terms: the stored object carries the hash of what would be sent. */
  lemma AlignedEquality(hash: Hasher, want: Doc, actual: Json)
    requires Desired(want)
    ensures var a := Aligned(want, actual);
      StatefulSetDeepEqual(hash, a, actual) ==
        (hash(HashedFieldsOf(a)),
         hash(HashedFieldsOf(a)) == (if At(actual, HASH).Some? then AtomAt(actual, HASH) else hash(HashedFieldsOf(actual)))
           && AtomAt(want, NAMESPACE) == AtomAt(actual, NAMESPACE))
  {
    PathFacts();
    DesiredFacts(want, HASH);
    AlignedFacts(want, actual, HASH);
    AlignedFacts(want, actual, NAMESPACE);
  }

  /** The tree that the first write of a patch stores. */
  function PatchedTree(hash: Hasher, want: Doc, s: Stored, fill: Json): Doc
    requires LastApplied(s.tree).Some?
  {
    Defaulted(Merged(LastApplied(s.tree).value, Sent(hash, want, s.tree), s.tree), fill)
  }

  /** The cases in which an apply goes on to patch. */
  predicate Patches(hash: Hasher, want: Doc, enableScaleTo1: bool, s: Stored, w: Weather) {
    && w.getOk && w.writeOk
    && !(s.deleting && HasFinalizers(s.tree))
    && (enableScaleTo1 || !ScaleTo1Refused(want, s.tree))
    && !StatefulSetDeepEqual(hash, Aligned(want, s.tree), s.tree).1
    && LastApplied(s.tree).Some?
  }

  /** An apply to an existing object clears the finalizers of a deleted one, or patches, and then the
      two writes store exactly the three-way merge and the record of it, or leaves the object alone. */
  lemma ApplyExistingIs(hash: Hasher, want: Doc, enableScaleTo1: bool, s: Stored, w: Weather)
    requires Desired(want)
    ensures var (obj, outcome) := Apply(hash, want, enableScaleTo1, Some(s), w);
      if Patches(hash, want, enableScaleTo1, s, w) then
        var s1 := Rewritten(s, PatchedTree(hash, want, s, w.fill));
        (obj, outcome) == if s1.None? then (None, Unrecorded) else Record(s1.value, Sent(hash, want, s.tree), w)
      else if outcome == Cleared then
        s.deleting && HasFinalizers(s.tree) && obj == None
      else
        obj == Some(s) && outcome in {Failed, Refused, Unchanged}
  {
    if Patches(hash, want, enableScaleTo1, s, w) {
      EmptyPatchUnreachable(hash, want, s);
      SentFacts(hash, want, s.tree);
      MergeRefines(LastApplied(s.tree).value, Sent(hash, want, s.tree), s.tree);
    }
    RemoveAtGone(s.tree, FINALIZERS);
  }

  /** A completed patch: every desired value is stored, everything dropped since the last applied tree
      is gone unless the server fills it in, every other value that was there is still there, and
      nothing else appears but what the server fills in. */
  lemma PatchedAt(hash: Hasher, want: Doc, s: Stored, fill: Json, p: Path)
    requires Desired(want) && LastApplied(s.tree).Some?
    ensures var e, last, t := Sent(hash, want, s.tree), LastApplied(s.tree).value, PatchedTree(hash, want, s, fill);
      && (LeafOn(e, p) ==> At(t, p) == At(e, p))
      && (At(e, p).None? && !LeafOn(e, p) ==>
            if !Dropped(last, e, p) && At(s.tree, p).Some?
            then At(t, p).Some? && (At(s.tree, p).value.Obj? || At(t, p) == At(s.tree, p))
            else At(t, p).None? || At(t, p) == At(fill, p))
  {
    var e, last := Sent(hash, want, s.tree), LastApplied(s.tree).value;
    var m := Merged(last, e, s.tree);
    MergedAt(last, e, s.tree, p);
    DefaultedAt(m, fill, p);
    if At(m, p).Some? && !At(m, p).value.Obj? {
      LeafEnds(m, p);
    }
    if LeafOn(e, p) {
      MergedLeaf(last, e, s.tree, p);
    }
  }

  lemma {:induction false} MergedLeaf(last: Json, want: Json, cur: Json, p: Path)
    requires want.Obj? && LeafOn(want, p)
    ensures LeafOn(Merged(last, want, cur), p)
    decreases p
  {
    if want.fields[p[0]].Obj? {
      MergedLeaf(Child(last, p[0]), want.fields[p[0]], Child(cur, p[0]), p[1..]);
    } else {
      assert LeafOn(want.fields[p[0]], p[1..]);
    }
  }
}
