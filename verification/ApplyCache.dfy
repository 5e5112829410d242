/** The hash as a cache of the desired object: how often it lets a write through, and what a crash between
    the two writes of a patch costs. */
module ApplyCache {
  import opened Options
  import opened Json
  import opened ThreeWayMerge
  import opened StatefulSets
  import opened ApplyEffects
  import opened ApplyRuns

  lemma AlignedHash(want: Doc, actual: Json)
    requires Desired(want)
    ensures HashedFieldsOf(Aligned(want, actual)) == HashedFieldsOf(want).(serviceName := AtomAt(actual, SERVICE))
  {
    PathFacts();
    var a := Aligned(want, actual);
    forall i: nat | i < |HASHED| ensures At(a, HASHED[i]) == At(want, HASHED[i]) {
      HashedPathFacts(i);
      AlignedFacts(want, actual, HASHED[i]);
    }
    AlignedFacts(want, actual, REPLICAS);
    assert HashedFieldsOf(a).parts == HashedFieldsOf(want).parts;
  }

  /** The stored values that decide whether the next apply of `want` writes. */
  predicate SameKeys(a: Json, b: Json) {
    At(a, HASH) == At(b, HASH) && AtomAt(a, SERVICE) == AtomAt(b, SERVICE) && AtomAt(a, NAMESPACE) == AtomAt(b, NAMESPACE)
  }

  /** Everybody may edit everything but those values; the object is not being deleted. */
  predicate Quiet(hash: Hasher, want: Doc, obj: Option<Stored>, ev: Event) {
    match ev
    case Sync(want', _, w) =>
      && want' == want
      && (obj.Some? && w.between.Some? && LastApplied(obj.value.tree).Some? ==>
            SameKeys(PatchedTree(hash, want, obj.value, w.fill), w.between.value))
    case Foreign(t) => obj.Some? ==> SameKeys(obj.value.tree, t)
    case MarkDeleted => false
  }

  predicate QuietRun(hash: Hasher, want: Doc, obj: Option<Stored>, evs: seq<Event>)
    decreases |evs|
  {
    evs == [] || (Quiet(hash, want, obj, evs[0]) && QuietRun(hash, want, Step(hash, obj, evs[0]).0, evs[1..]))
  }

  function Count(hash: Hasher, obj: Option<Stored>, evs: seq<Event>, counted: set<Outcome>): nat
    decreases |evs|
  {
    if evs == [] then 0
    else
      var (obj', outcome) := Step(hash, obj, evs[0]);
      (if evs[0].Sync? && outcome in counted then 1 else 0) + Count(hash, obj', evs[1..], counted)
  }

  predicate Live(want: Doc, obj: Option<Stored>) {
    obj.Some? && !obj.value.deleting && AtomAt(obj.value.tree, NAMESPACE) == AtomAt(want, NAMESPACE)
  }

  predicate Settled(hash: Hasher, want: Doc, obj: Option<Stored>) {
    Live(want, obj) && At(obj.value.tree, HASH) == Some(Atom(hash(HashedFieldsOf(Aligned(want, obj.value.tree)))))
  }

  lemma SettledSkips(hash: Hasher, want: Doc, obj: Option<Stored>, ev: Event)
    requires Desired(want) && Settled(hash, want, obj) && Quiet(hash, want, obj, ev)
    ensures Settled(hash, want, Step(hash, obj, ev).0)
    ensures Step(hash, obj, ev).1 !in {Created, Patched, Unrecorded}
  {
    match ev
    case Sync(_, enable, w) =>
      ApplyExistingIs(hash, want, enable, obj.value, w);
      AlignedEquality(hash, want, obj.value.tree);
    case Foreign(t) =>
      AlignedHash(want, obj.value.tree);
      AlignedHash(want, t);
    case MarkDeleted =>
  }

  lemma PatchedKeys(hash: Hasher, want: Doc, s: Stored, fill: Json)
    requires Desired(want) && LastApplied(s.tree).Some?
    ensures var t := PatchedTree(hash, want, s, fill);
      && At(t, HASH) == Some(Atom(hash(HashedFieldsOf(Aligned(want, s.tree)))))
      && AtomAt(t, SERVICE) == AtomAt(s.tree, SERVICE)
      && AtomAt(t, NAMESPACE) == AtomAt(want, NAMESPACE)
  {
    SentFacts(hash, want, s.tree);
    NamespaceIsSet(want);
    var e, t := Sent(hash, want, s.tree), PatchedTree(hash, want, s, fill);
    MergedCovers(LastApplied(s.tree).value, e, s.tree);
    DefaultedCovers(Merged(LastApplied(s.tree).value, e, s.tree), fill, e);
    CoversAtom(t, e, HASH);
    CoversAtom(t, e, SERVICE);
    CoversAtom(t, e, NAMESPACE);
  }

  lemma RecordKeepsKeys(t: Json, doc: Json)
    ensures SameKeys(t, SetAt(t, LAST, Text(doc)))
  {
    assert Apart(LAST[2..], HASH[2..]) && Apart(LAST[1..], HASH[1..]) && Apart(LAST[1..], NAMESPACE[1..]);
    SetAtApart(t, LAST, Text(doc), HASH);
    SetAtApart(t, LAST, Text(doc), SERVICE);
    SetAtApart(t, LAST, Text(doc), NAMESPACE);
  }

  lemma PatchSettles(hash: Hasher, want: Doc, obj: Option<Stored>, ev: Event)
    requires Desired(want) && Live(want, obj) && Quiet(hash, want, obj, ev)
    requires ev.Sync? && Step(hash, obj, ev).1 in {Patched, Unrecorded}
    ensures Settled(hash, want, Step(hash, obj, ev).0)
  {
    hide At, SetAt, Sent, PatchedTree, Aligned;
    var s := obj.value;
    ApplyExistingIs(hash, want, ev.enableScaleTo1, s, ev.w);
    PatchedKeys(hash, want, s, ev.w.fill);
    var t := HalfWay(hash, want, s, ev.w);
    RecordKeepsKeys(t, Sent(hash, want, s.tree));
    AlignedHash(want, s.tree);
    AlignedHash(want, t);
    AlignedHash(want, Step(hash, obj, ev).0.value.tree);
  }

  lemma CreateLives(hash: Hasher, want: Doc, ev: Event)
    requires Desired(want) && ev.Sync? && ev.want == want && Step(hash, None, ev).1 == Created
    ensures Live(want, Step(hash, None, ev).0)
  {
    NamespaceIsSet(want);
    var t := SetAt(want, LAST, Text(want));
    RecordKeepsKeys(want, want);
    assert Apart(LAST[1..], NAMESPACE[1..]);
    SetAtApart(want, LAST, Text(want), NAMESPACE);
    LeafEnds(t, NAMESPACE);
    DefaultedAt(t, ev.w.fill, NAMESPACE);
  }

  /** For a fixed desired object the operator creates at most once and patches at most once, over any
      number of reconciles, failures, server defaults and edits by others. */
  lemma {:induction false} AtMostOneCreateAndOnePatch(hash: Hasher, want: Doc, obj: Option<Stored>, evs: seq<Event>)
    requires Desired(want) && QuietRun(hash, want, obj, evs)
    requires obj.Some? ==> Live(want, obj)
    ensures Count(hash, obj, evs, {Created}) <= if obj.Some? then 0 else 1
    ensures Count(hash, obj, evs, {Patched, Unrecorded}) <= if Settled(hash, want, obj) then 0 else 1
    decreases |evs|
  {
    if evs != [] {
      var ev := evs[0];
      var (obj', outcome) := Step(hash, obj, ev);
      StepLives(hash, want, obj, ev);
      AtMostOneCreateAndOnePatch(hash, want, obj', evs[1..]);
    }
  }

  lemma StepLives(hash: Hasher, want: Doc, obj: Option<Stored>, ev: Event)
    requires Desired(want) && Quiet(hash, want, obj, ev) && (obj.Some? ==> Live(want, obj))
    ensures var (obj', outcome) := Step(hash, obj, ev);
      && (obj'.Some? ==> Live(want, obj'))
      && (obj.Some? ==> obj'.Some? && outcome != Created)
      && (outcome == Created ==> obj'.Some?)
      && (Settled(hash, want, obj) ==> Settled(hash, want, obj') && outcome !in {Patched, Unrecorded})
      && (outcome in {Patched, Unrecorded} ==> Settled(hash, want, obj'))
  {
    var (obj', outcome) := Step(hash, obj, ev);
    if Settled(hash, want, obj) {
      SettledSkips(hash, want, obj, ev);
    } else if outcome in {Patched, Unrecorded} {
      PatchSettles(hash, want, obj, ev);
    } else if outcome == Created {
      CreateLives(hash, want, ev);
    }
    if ev.Sync? && obj.Some? {
      ApplyExistingIs(hash, want, ev.enableScaleTo1, obj.value, ev.w);
    }
  }

  // ---- a crash between the two writes of a patch ----

  /** The first write of a patch succeeds and the second never happens. */
  predicate Crashes(hash: Hasher, want: Doc, enableScaleTo1: bool, s: Stored, w: Weather) {
    && Desired(want) && !s.deleting && Patches(hash, want, enableScaleTo1, s, w)
    && At(LastApplied(s.tree).value, LAST).None? && At(w.fill, LAST).None?
    && w.between.None? && !w.recordOk
    && AtomAt(s.tree, NAMESPACE) == AtomAt(want, NAMESPACE)
  }

  /** After such a crash the new hash is stored next to the old record, and no retry repairs it: every
      later apply of the same object leaves everything as it is. */
  lemma CrashIsNotRetried(hash: Hasher, want: Doc, enableScaleTo1: bool, s: Stored, w: Weather, again: bool, w': Weather)
    requires Crashes(hash, want, enableScaleTo1, s, w)
    ensures var (obj, outcome) := Apply(hash, want, enableScaleTo1, Some(s), w);
      && outcome == Unrecorded && obj.Some?
      && obj.value.tree == PatchedTree(hash, want, s, w.fill)
      && LastApplied(obj.value.tree) == LastApplied(s.tree)
      && Apply(hash, want, again, obj, w').0 == obj
  {
    hide Apply, At, PatchedTree, Sent, Desired, Settled, StatefulSetDeepEqual;
    var (obj, outcome) := Apply(hash, want, enableScaleTo1, Some(s), w);
    ApplyExistingIs(hash, want, enableScaleTo1, s, w);
    PatchKeepsRecord(hash, want, s, w.fill);
    PatchSettles(hash, want, Some(s), Sync(want, enableScaleTo1, w));
    SettledStays(hash, want, obj, again, w');
  }

  lemma SettledStays(hash: Hasher, want: Doc, obj: Option<Stored>, enableScaleTo1: bool, w: Weather)
    requires Desired(want) && Settled(hash, want, obj)
    ensures Apply(hash, want, enableScaleTo1, obj, w).0 == obj
  {
    ApplyExistingIs(hash, want, enableScaleTo1, obj.value, w);
    AlignedEquality(hash, want, obj.value.tree);
  }

  /** What the crash costs.  A value set by the unrecorded patch and not wanted by the next one is
      removed by it exactly when that drops it from the older record. */
  lemma CrashOrphansIff(hash: Hasher, want1: Doc, enable1: bool, s: Stored, w1: Weather, want2: Doc, fill: Json, p: Path)
    requires Crashes(hash, want1, enable1, s, w1) && Desired(want2)
    requires var s1 := Apply(hash, want1, enable1, Some(s), w1).0;
      && s1.Some? && IsLeaf(Sent(hash, want1, s.tree), p)
      && At(Sent(hash, want2, s1.value.tree), p).None? && !LeafOn(Sent(hash, want2, s1.value.tree), p)
      && LastApplied(s1.value.tree).Some? && At(fill, p).None?
    ensures var s1 := Apply(hash, want1, enable1, Some(s), w1).0.value;
      var e2 := Sent(hash, want2, s1.tree);
      At(PatchedTree(hash, want2, s1, fill), p).Some? <==> !Dropped(LastApplied(s.tree).value, e2, p)
  {
    hide Apply, Sent, PatchedTree, At, LeafOn;
    CrashIsNotRetried(hash, want1, enable1, s, w1, enable1, w1);
    var s1 := Apply(hash, want1, enable1, Some(s), w1).0.value;
    LeafEnds(Sent(hash, want1, s.tree), p);
    PatchedAt(hash, want1, s, w1.fill, p);
    PatchedAt(hash, want2, s1, fill, p);
  }
}
