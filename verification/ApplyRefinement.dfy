/** The hash-guarded apply against an apply that always patches. */
module ApplyRefinement {
  import opened Options
  import opened Json
  import opened ThreeWayMerge
  import opened StatefulSets
  import opened ApplyEffects
  import opened ApplyRuns
  import opened ApplyCache

  ghost predicate Injective(hash: Hasher) {
    forall a, b :: hash(a) == hash(b) ==> a == b
  }

  function AtOrNull(j: Json, p: Path): Json {
    match At(j, p) case Some(v) => v case None => Null
  }

  lemma {:induction false} MergedBelow(last: Json, want: Json, cur: Json, p: Path)
    requires want.Obj? && At(want, p).Some? && At(want, p).value.Obj?
    ensures At(Merged(last, want, cur), p) == Some(Merged(AtOrNull(last, p), At(want, p).value, AtOrNull(cur, p)))
    decreases |p|
  {
    if p != [] {
      var k := p[0];
      MergedBelow(Child(last, k), want.fields[k], Child(cur, k), p[1..]);
      NullAt(p[1..]);
      if p[1..] == [] {
        assert AtOrNull(last, p) == Child(last, k) && AtOrNull(cur, p) == Child(cur, k);
      } else {
        assert AtOrNull(last, p) == AtOrNull(Child(last, k), p[1..]);
        assert AtOrNull(cur, p) == AtOrNull(Child(cur, k), p[1..]);
      }
    }
  }

  lemma NullAt(p: Path)
    ensures AtOrNull(Null, p) == Null
  {}

  /** `cur` holds what `want` sets at `p`, and may hold more below it. */
  predicate CoveredAt(want: Json, cur: Json, p: Path) {
    match At(want, p)
    case None => true
    case Some(v) => At(cur, p).Some? && if v.Obj? then Covers(At(cur, p).value, v) else At(cur, p).value == v
  }

  lemma {:induction false} CoversBelow(want: Json, cur: Json, p: Path)
    requires Covers(cur, want)
    ensures CoveredAt(want, cur, p)
    decreases |p|
  {
    if p != [] && At(want, p).Some? {
      if want.fields[p[0]].Obj? {
        CoversBelow(want.fields[p[0]], cur.fields[p[0]], p[1..]);
      }
    }
  }

  lemma MergedNoop(want: Json, cur: Json)
    requires CleanObj(want) && Covers(cur, want)
    ensures Merged(want, want, cur) == cur
  {
    NoSelfDeletions(want);
    PatchEmptyIff(want, want, cur);
    MergeRefines(want, want, cur);
    ApplyNothing(cur);
  }

  lemma {:induction false} MergedSelf(last: Json, want: Json)
    requires want.Obj?
    ensures Merged(last, want, want) == want
    decreases want
  {
    forall k | k in want.fields && want.fields[k].Obj?
      ensures Merged(Child(last, k), want.fields[k], want.fields[k]) == want.fields[k]
    {
      MergedSelf(Child(last, k), want.fields[k]);
    }
    assert Merged(last, want, want).fields == want.fields;
  }

  /** One path: merging leaves it alone if last and want agree there and cur covers it, or if want is
      what is there already. */
  lemma MergeKeeps(last: Json, want: Json, cur: Json, p: Path)
    requires CleanObj(want) && p != [] && At(want, p[..|p| - 1]).Some? && !LeafOn(want, p[..|p| - 1])
    requires (At(want, p) == At(last, p) && CoveredAt(last, cur, p)) || At(want, p) == At(cur, p)
    ensures At(Merged(last, want, cur), p) == At(cur, p)
  {
    MergedAt(last, want, cur, p);
    AtClean(want, p);
    if At(want, p).None? {
      NotLeafNext(want, p);
      if Dropped(last, want, p) {
        DroppedHere(last, want, p);
      }
    } else if At(want, p).value.Obj? {
      MergedBelow(last, want, cur, p);
      var v := At(want, p).value;
      if At(want, p) == At(cur, p) {
        MergedSelf(AtOrNull(last, p), v);
      } else {
        MergedNoop(v, AtOrNull(cur, p));
      }
    } else {
      LeafEnds(want, p);
    }
  }

  lemma {:induction false} NotLeafNext(j: Json, p: Path)
    requires p != [] && !LeafOn(j, p[..|p| - 1]) && At(j, p).None?
    ensures !LeafOn(j, p)
    decreases |p|
  {
    if |p| > 1 && p[0] in j.fields {
      assert p[..|p| - 1][1..] == p[1..][..|p[1..]| - 1];
      NotLeafNext(j.fields[p[0]], p[1..]);
    } else if |p| == 1 {
      assert p[1..] == [];
    }
  }

  predicate HashedCovered(last: Json, t: Json) {
    (forall i :: 0 <= i < |HASHED| ==> CoveredAt(last, t, HASHED[i])) && CoveredAt(last, t, REPLICAS)
  }

  /** The stored object carries the hash of its last applied tree, and still has what that tree set in
      the hashed fields. */
  predicate Synced(hash: Hasher, t: Json) {
    && LastApplied(t).Some?
    && var last := LastApplied(t).value;
      && At(last, LAST).None?
      && HashedCovered(last, t)
      && (At(last, REPLICAS).Some? ==> At(last, REPLICAS).value.Num? && At(last, REPLICAS).value.n >= 0)
      && (At(t, HASH).Some? ==> At(t, HASH) == Some(Atom(hash(HashedFieldsOf(last)))))
  }

  lemma SentParts(hash: Hasher, want: Doc, actual: Json, i: nat)
    requires Desired(want) && i < |HASHED|
    ensures var e, q := Sent(hash, want, actual), HASHED[i];
      && At(e, q) == At(want, q)
      && At(e, q[..1]).Some? && !LeafOn(e, q[..1])
  {
    var q := HASHED[i];
    HashedPathFacts(i);
    AlignedFacts(want, actual, q);
    SetAtApart(Aligned(want, actual), HASH, Atom(StatefulSetDeepEqual(hash, Aligned(want, actual), actual).0), q);
    assert q[..1] == [q[0]] && q[0] in {"metadata", "spec"};
    SectionKept(hash, want, actual, q[..1]);
  }

  lemma SectionKept(hash: Hasher, want: Doc, actual: Json, p: Path)
    requires Desired(want) && p in {["metadata"], ["spec"]}
    ensures At(Sent(hash, want, actual), p).Some? && !LeafOn(Sent(hash, want, actual), p)
  {
    var e1 := if AtomAt(actual, POLICY) == ORDERED then SetAt(want, POLICY, Atom(ORDERED)) else want;
    assert e1.fields["metadata"].Obj? && e1.fields["spec"].Obj?;
    var a := Aligned(want, actual);
    assert a.fields["metadata"].Obj? && a.fields["spec"].Obj?;
    var e := Sent(hash, want, actual);
    assert p[0] in e.fields && e.fields[p[0]].Obj?;
    assert p[1..] == [];
    assert !LeafOn(e.fields[p[0]], p[1..]);
  }

  lemma SentHash(hash: Hasher, want: Doc, actual: Json)
    requires Desired(want)
    ensures HashedFieldsOf(Sent(hash, want, actual)) == HashedFieldsOf(Aligned(want, actual))
    ensures HashedFieldsOf(Aligned(want, actual)) == HashedFieldsOf(want).(serviceName := AtomAt(actual, SERVICE))
  {
    HashIgnoresAnnotations(Aligned(want, actual), HASH, Atom(StatefulSetDeepEqual(hash, Aligned(want, actual), actual).0));
    AlignedHash(want, actual);
  }

  lemma ReplicasTyped(want: Doc)
    requires Desired(want)
    ensures At(want, REPLICAS).Some? ==> At(want, REPLICAS).value.Num? && At(want, REPLICAS).value.n >= 0
  {
    assert REPLICAS[1..] == ["replicas"] && REPLICAS[1..][1..] == [];
    var spec := want.fields["spec"];
    assert At(want, REPLICAS) == At(spec, REPLICAS[1..]);
    if "replicas" in spec.fields {
      assert At(spec, REPLICAS[1..]) == At(spec.fields["replicas"], []);
    }
  }

  /** Without hash collisions, the write that equal hashes save would have left every hashed field as
      it is. */
  lemma SkipRefinesPatch(hash: Hasher, want: Doc, s: Stored)
    requires Injective(hash) && Desired(want) && Synced(hash, s.tree)
    requires StatefulSetDeepEqual(hash, Aligned(want, s.tree), s.tree).1
    ensures HashedFieldsOf(Merged(LastApplied(s.tree).value, Sent(hash, want, s.tree), s.tree)) == HashedFieldsOf(s.tree)
  {
    hide At, Sent, Merged, Aligned, SetAt, LeafOn;
    var last, e, t := LastApplied(s.tree).value, Sent(hash, want, s.tree), s.tree;
    var m := Merged(last, e, t);
    AlignedEquality(hash, want, t);
    SentHash(hash, want, t);
    var other := if At(t, HASH).Some? then last else t;
    assert HashedFieldsOf(e) == HashedFieldsOf(other);
    forall i: nat | i < |HASHED| ensures At(m, HASHED[i]) == At(t, HASHED[i]) {
      SentParts(hash, want, t, i);
      assert HashedFieldsOf(e).parts[i] == HashedFieldsOf(other).parts[i];
      SentFacts(hash, want, t);
      MergeKeeps(last, e, t, HASHED[i]);
    }
    assert HashedFieldsOf(m).parts == HashedFieldsOf(t).parts;
    SkipKeepsScalars(hash, want, s);
  }

  lemma SkipKeepsScalars(hash: Hasher, want: Doc, s: Stored)
    requires Injective(hash) && Desired(want) && Synced(hash, s.tree)
    requires StatefulSetDeepEqual(hash, Aligned(want, s.tree), s.tree).1
    ensures var m := Merged(LastApplied(s.tree).value, Sent(hash, want, s.tree), s.tree);
      AtomAt(m, SERVICE) == AtomAt(s.tree, SERVICE) && HashedFieldsOf(m).replicas == HashedFieldsOf(s.tree).replicas
  {
    hide At, Sent, Merged, Aligned, SetAt, LeafOn;
    var last, e, t := LastApplied(s.tree).value, Sent(hash, want, s.tree), s.tree;
    AlignedEquality(hash, want, t);
    SentHash(hash, want, t);
    SentFacts(hash, want, t);
    ReplicasTyped(want);
    LeafEnds(e, SERVICE);
    MergedAt(last, e, t, SERVICE);
    SectionKept(hash, want, t, SPEC);
    assert REPLICAS[..1] == SPEC;
    if At(t, HASH).Some? {
      assert HashedFieldsOf(e) == HashedFieldsOf(last);
      MergeKeeps(last, e, t, REPLICAS);
    } else {
      assert HashedFieldsOf(e) == HashedFieldsOf(t);
      MergedAt(last, e, t, REPLICAS);
      if At(e, REPLICAS).Some? { LeafEnds(e, REPLICAS); } else { NotLeafNext(e, REPLICAS); }
    }
  }

  // ---- over runs ----

  /** Others keep the hashed fields, the hash and the record; patches complete both writes. */
  predicate Disciplined(obj: Option<Stored>, ev: Event) {
    match ev
    case Sync(want, _, w) =>
      && Desired(want) && At(w.fill, HASH).None? && At(w.fill, LAST).None? && w.between.None? && w.recordOk
    case Foreign(t) =>
      obj.Some? ==>
        && HashedFieldsOf(t) == HashedFieldsOf(obj.value.tree) && At(t, REPLICAS) == At(obj.value.tree, REPLICAS)
        && At(t, HASH) == At(obj.value.tree, HASH) && At(t, LAST) == At(obj.value.tree, LAST)
    case MarkDeleted => true
  }

  function RunObj(hash: Hasher, obj: Option<Stored>, evs: seq<Event>): Option<Stored>
    decreases |evs|
  {
    if evs == [] then obj else RunObj(hash, Step(hash, obj, evs[0]).0, evs[1..])
  }

  predicate DisciplinedRun(hash: Hasher, obj: Option<Stored>, evs: seq<Event>)
    decreases |evs|
  {
    evs == [] || (Disciplined(obj, evs[0]) && DisciplinedRun(hash, Step(hash, obj, evs[0]).0, evs[1..]))
  }

  lemma RecordSynced(hash: Hasher, t: Doc, e: Doc)
    requires Covers(t, e) && At(e, LAST).None?
    requires At(e, REPLICAS).Some? ==> At(e, REPLICAS).value.Num? && At(e, REPLICAS).value.n >= 0
    requires At(t, HASH).Some? ==> At(t, HASH) == Some(Atom(hash(HashedFieldsOf(e))))
    ensures Synced(hash, SetAt(t, LAST, Text(e)))
  {
    hide At, SetAt, Covers, HashedFieldsOf;
    var r := SetAt(t, LAST, Text(e));
    RecordedAs(t, e);
    RecordKeepsKeys(t, e);
    forall i: nat | i < |HASHED| ensures CoveredAt(e, r, HASHED[i]) {
      HashedPathFacts(i);
      CoversBelow(e, t, HASHED[i]);
      SetAtApart(t, LAST, Text(e), HASHED[i]);
    }
    CoversBelow(e, t, REPLICAS);
    LastApart(REPLICAS);
    SetAtApart(t, LAST, Text(e), REPLICAS);
  }

  lemma PatchSynced(hash: Hasher, want: Doc, s: Stored, fill: Json)
    requires Desired(want) && LastApplied(s.tree).Some?
    ensures Synced(hash, SetAt(PatchedTree(hash, want, s, fill), LAST, Text(Sent(hash, want, s.tree))))
  {
    var e, t := Sent(hash, want, s.tree), PatchedTree(hash, want, s, fill);
    SentFacts(hash, want, s.tree);
    SentHash(hash, want, s.tree);
    ReplicasTyped(want);
    PatchedKeys(hash, want, s, fill);
    MergedCovers(LastApplied(s.tree).value, e, s.tree);
    DefaultedCovers(Merged(LastApplied(s.tree).value, e, s.tree), fill, e);
    RecordSynced(hash, t, e);
  }

  lemma {:induction false} SelfCovers(t: Json)
    requires t.Obj?
    ensures Covers(t, t)
  {
    forall k | k in t.fields && t.fields[k].Obj? ensures Covers(t.fields[k], t.fields[k]) {
      SelfCovers(t.fields[k]);
    }
  }

  lemma CreateSynced(hash: Hasher, want: Doc, fill: Json)
    requires Desired(want) && At(fill, HASH).None? && At(fill, LAST).None?
    ensures Synced(hash, Defaulted(SetAt(want, LAST, Text(want)), fill))
  {
    hide At, SetAt, Covers, HashedFieldsOf, Defaulted, LeafOn;
    var t0 := SetAt(want, LAST, Text(want));
    var t := Defaulted(t0, fill);
    DesiredFacts(want, LAST);
    DesiredFacts(want, HASH);
    ReplicasTyped(want);
    SelfCovers(want);
    SetAtCovers(want, LAST, Text(want), want);
    DefaultedCovers(t0, fill, want);
    forall i: nat | i < |HASHED| ensures CoveredAt(want, t, HASHED[i]) {
      CoversBelow(want, t, HASHED[i]);
    }
    CoversBelow(want, t, REPLICAS);
    SetAtSame(want, LAST, Text(want));
    LeafEnds(t0, LAST);
    DefaultedAt(t0, fill, LAST);
    RecordKeepsKeys(want, want);
    DefaultedAt(t0, fill, HASH);
    PathFacts();
    LastApart(HASH);
    SetAtNotLeaf(want, LAST, Text(want), HASH);
    assert LastApplied(t) == Some(want);
  }

  lemma StepSynced(hash: Hasher, obj: Option<Stored>, ev: Event)
    requires Disciplined(obj, ev) && (obj.Some? ==> Synced(hash, obj.value.tree))
    ensures var obj' := Step(hash, obj, ev).0; obj'.Some? ==> Synced(hash, obj'.value.tree)
  {
    hide At, SetAt, HashedFieldsOf, Sent, PatchedTree, Defaulted, Desired;
    var (obj', outcome) := Step(hash, obj, ev);
    match ev
    case Sync(want, enable, w) =>
      if outcome == Created {
        CreateSynced(hash, want, w.fill);
      } else if obj.Some? {
        ApplyExistingIs(hash, want, enable, obj.value, w);
        PatchSynced(hash, want, obj.value, w.fill);
      }
    case Foreign(t) =>
      if obj.Some? {
        SameHashedCovered(obj.value.tree, t);
      }
    case MarkDeleted =>
  }

  lemma SameHashedCovered(t: Json, t': Json)
    requires HashedFieldsOf(t) == HashedFieldsOf(t') && At(t, REPLICAS) == At(t', REPLICAS) && LastApplied(t).Some?
    requires HashedCovered(LastApplied(t).value, t)
    ensures HashedCovered(LastApplied(t).value, t')
  {
    forall i: nat | i < |HASHED| ensures CoveredAt(LastApplied(t).value, t', HASHED[i]) {
      assert HashedFieldsOf(t).parts[i] == HashedFieldsOf(t').parts[i];
    }
  }

  /** Along every disciplined run from scratch, whenever an apply skips its write because the hashes
      agree, an always-patching operator would have stored the same hashed fields. */
  lemma {:induction false} GuardRefinesAlwaysPatch(hash: Hasher, obj: Option<Stored>, evs: seq<Event>, want: Doc)
    requires Injective(hash) && Desired(want)
    requires obj.Some? ==> Synced(hash, obj.value.tree)
    requires DisciplinedRun(hash, obj, evs)
    ensures var obj' := RunObj(hash, obj, evs);
      obj'.Some? && StatefulSetDeepEqual(hash, Aligned(want, obj'.value.tree), obj'.value.tree).1 ==>
        && LastApplied(obj'.value.tree).Some?
        && HashedFieldsOf(Merged(LastApplied(obj'.value.tree).value, Sent(hash, want, obj'.value.tree), obj'.value.tree))
             == HashedFieldsOf(obj'.value.tree)
    decreases |evs|
  {
    if evs != [] {
      StepSynced(hash, obj, evs[0]);
      GuardRefinesAlwaysPatch(hash, Step(hash, obj, evs[0]).0, evs[1..], want);
    } else if obj.Some? && StatefulSetDeepEqual(hash, Aligned(want, obj.value.tree), obj.value.tree).1 {
      SkipRefinesPatch(hash, want, obj.value);
    }
  }

  // ---- what creation fixes ----

  lemma PatchKeepsPolicy(hash: Hasher, want: Doc, s: Stored, fill: Json)
    requires Desired(want) && LastApplied(s.tree).Some? && AtomAt(s.tree, POLICY) == ORDERED
    ensures AtomAt(PatchedTree(hash, want, s, fill), POLICY) == ORDERED
  {
    var e, t := Sent(hash, want, s.tree), PatchedTree(hash, want, s, fill);
    SentFacts(hash, want, s.tree);
    MergedCovers(LastApplied(s.tree).value, e, s.tree);
    DefaultedCovers(Merged(LastApplied(s.tree).value, e, s.tree), fill, e);
    CoversAtom(t, e, POLICY);
  }

  predicate FixedFields(t: Json, service: string, ordered: bool) {
    AtomAt(t, SERVICE) == service && (ordered ==> AtomAt(t, POLICY) == ORDERED)
  }

  /** Others keep the service name and an ordered policy. */
  predicate KeepsFixed(ev: Event, service: string, ordered: bool) {
    match ev
    case Sync(want, _, w) => Desired(want) && (w.between.Some? ==> FixedFields(w.between.value, service, ordered))
    case Foreign(t) => FixedFields(t, service, ordered)
    case MarkDeleted => true
  }

  lemma StepKeepsFixed(hash: Hasher, s: Stored, ev: Event, service: string, ordered: bool)
    requires FixedFields(s.tree, service, ordered) && KeepsFixed(ev, service, ordered)
    ensures var obj' := Step(hash, Some(s), ev).0; obj'.Some? ==> FixedFields(obj'.value.tree, service, ordered)
  {
    hide At, SetAt, Sent, PatchedTree, Desired;
    if ev.Sync? {
      ApplyExistingIs(hash, ev.want, ev.enableScaleTo1, s, ev.w);
      if Patches(hash, ev.want, ev.enableScaleTo1, s, ev.w) {
        PatchedKeys(hash, ev.want, s, ev.w.fill);
        if ordered {
          PatchKeepsPolicy(hash, ev.want, s, ev.w.fill);
        }
        var t := HalfWay(hash, ev.want, s, ev.w);
        RecordKeepsKeys(t, Sent(hash, ev.want, s.tree));
        LastApart(POLICY);
        SetAtApart(t, LAST, Text(Sent(hash, ev.want, s.tree)), POLICY);
      }
    }
  }

  predicate Survives(hash: Hasher, obj: Option<Stored>, evs: seq<Event>)
    decreases |evs|
  {
    obj.Some? && (evs == [] || Survives(hash, Step(hash, obj, evs[0]).0, evs[1..]))
  }

  /** Whatever the user asks for later, the service name of an existing StatefulSet and an OrderedReady
      policy stay as long as the object does. */
  lemma {:induction false} CreationFixesServiceAndPolicy(hash: Hasher, s: Stored, evs: seq<Event>, service: string, ordered: bool)
    requires FixedFields(s.tree, service, ordered)
    requires forall i :: 0 <= i < |evs| ==> KeepsFixed(evs[i], service, ordered)
    requires Survives(hash, Some(s), evs)
    ensures var obj := RunObj(hash, Some(s), evs);
      obj.Some? && FixedFields(obj.value.tree, service, ordered)
    decreases |evs|
  {
    if evs != [] {
      StepKeepsFixed(hash, s, evs[0], service, ordered);
      CreationFixesServiceAndPolicy(hash, Step(hash, Some(s), evs[0]).0.value, evs[1..], service, ordered);
    }
  }
}
