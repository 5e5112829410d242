/** The hash guard as a refinement: two operators see the same requests, one guarded by the hash, the other
    patching every time, and their StatefulSets agree on all hashed fields throughout. */
module AlwaysPatch {
  import opened Options
  import opened Json
  import opened ThreeWayMerge
  import opened StatefulSets
  import opened ApplyEffects
  import opened ApplyRuns
  import opened ApplyCache
  import opened ApplyRefinement

  /** The apply without the comparison of hashes. */
  function AlwaysApply(hash: Hasher, want: Doc, enableScaleTo1: bool, obj: Option<Stored>, w: Weather): (Option<Stored>, Outcome) {
    if !w.getOk || obj.None? then Apply(hash, want, enableScaleTo1, obj, w)
    else if obj.value.deleting && HasFinalizers(obj.value.tree) then Apply(hash, want, enableScaleTo1, obj, w)
    else if !enableScaleTo1 && ScaleTo1Refused(want, obj.value.tree) then (obj, Refused)
    else PatchOf(Sent(hash, want, obj.value.tree), obj.value, w)
  }

  /** What happens to both objects; other actors edit each in its own way. */
  datatype PairEvent =
    | Both(want: Doc, enableScaleTo1: bool, w: Weather)
    | Edits(guarded: Doc, always: Doc)
    | MarkBoth

  function GuardedStep(hash: Hasher, obj: Option<Stored>, ev: PairEvent): Option<Stored> {
    match ev
    case Both(want, enable, w) => Apply(hash, want, enable, obj, w).0
    case Edits(t, _) => Step(hash, obj, Foreign(t)).0
    case MarkBoth => Step(hash, obj, MarkDeleted).0
  }

  function AlwaysStep(hash: Hasher, obj: Option<Stored>, ev: PairEvent): Option<Stored> {
    match ev
    case Both(want, enable, w) => AlwaysApply(hash, want, enable, obj, w).0
    case Edits(_, t) => Step(hash, obj, Foreign(t)).0
    case MarkBoth => Step(hash, obj, MarkDeleted).0
  }

  // ---- the relation ----

  predicate IsKey(q: Path) {
    q in HASHED || q == REPLICAS
  }

  /** Equal values of all hashed fields, in the objects and in their records, and the same hash noted. */
  ghost predicate Alike(g: Json, a: Json) {
    && (forall q :: IsKey(q) ==> At(g, q) == At(a, q))
    && AtomAt(g, SERVICE) == AtomAt(a, SERVICE) && At(g, HASH) == At(a, HASH)
    && LastApplied(g).Some? && LastApplied(a).Some?
    && (forall q :: IsKey(q) ==> At(LastApplied(g).value, q) == At(LastApplied(a).value, q))
    && AtomAt(LastApplied(g).value, SERVICE) == AtomAt(LastApplied(a).value, SERVICE)
  }

  ghost predicate Related(hash: Hasher, g: Option<Stored>, a: Option<Stored>) {
    && (g.Some? <==> a.Some?)
    && (g.Some? ==>
          && g.value.deleting == a.value.deleting && (g.value.deleting ==> HasFinalizers(g.value.tree))
          && Synced(hash, g.value.tree) && Synced(hash, a.value.tree) && Alike(g.value.tree, a.value.tree))
  }

  lemma SameFields(g: Json, a: Json)
    requires forall q :: IsKey(q) ==> At(g, q) == At(a, q)
    requires AtomAt(g, SERVICE) == AtomAt(a, SERVICE)
    ensures HashedFieldsOf(g) == HashedFieldsOf(a)
  {
    assert IsKey(REPLICAS);
    forall i | 0 <= i < |HASHED| ensures At(g, HASHED[i]) == At(a, HASHED[i]) {
      assert IsKey(HASHED[i]);
    }
    assert HashedFieldsOf(g).parts == HashedFieldsOf(a).parts;
  }

  predicate Skips(hash: Hasher, want: Doc, obj: Option<Stored>) {
    obj.Some? && StatefulSetDeepEqual(hash, Aligned(want, obj.value.tree), obj.value.tree).1
  }

  /** The server has nothing to fill into the hashed fields. */
  ghost predicate FillsNothing(t: Json, fill: Json) {
    forall q :: IsKey(q) ==> At(Defaulted(t, fill), q) == At(t, q)
  }

  /** Requests complete their writes and edits keep the hashed fields, the hash and the record.  Where the
      guard skips, it rests on a hash that was noted, not on the look of an object just created, and the
      server would fill in nothing new; SkipLimits shows what happens otherwise. */
  ghost predicate Fair(hash: Hasher, g: Option<Stored>, a: Option<Stored>, ev: PairEvent) {
    match ev
    case Both(want, enable, w) =>
      && Disciplined(g, Sync(want, enable, w))
      && (Skips(hash, want, g) ==>
            && At(g.value.tree, HASH).Some?
            && (a.Some? && LastApplied(a.value.tree).Some? ==>
                  FillsNothing(Merged(LastApplied(a.value.tree).value, Sent(hash, want, a.value.tree), a.value.tree), w.fill)))
    case Edits(tg, ta) => Disciplined(g, Foreign(tg)) && Disciplined(a, Foreign(ta))
    case MarkBoth => true
  }

  ghost predicate FairRun(hash: Hasher, g: Option<Stored>, a: Option<Stored>, evs: seq<PairEvent>)
    decreases |evs|
  {
    evs == [] ||
      (Fair(hash, g, a, evs[0]) && FairRun(hash, GuardedStep(hash, g, evs[0]), AlwaysStep(hash, a, evs[0]), evs[1..]))
  }

  function GuardedRun(hash: Hasher, obj: Option<Stored>, evs: seq<PairEvent>): Option<Stored>
    decreases |evs|
  {
    if evs == [] then obj else GuardedRun(hash, GuardedStep(hash, obj, evs[0]), evs[1..])
  }

  function AlwaysRun(hash: Hasher, obj: Option<Stored>, evs: seq<PairEvent>): Option<Stored>
    decreases |evs|
  {
    if evs == [] then obj else AlwaysRun(hash, AlwaysStep(hash, obj, evs[0]), evs[1..])
  }

  // ---- one path of a merge and of defaulting ----

  lemma {:induction false} NotLeafIsObj(j: Json, p: Path)
    requires At(j, p).Some?
    ensures !LeafOn(j, p) <==> At(j, p).value.Obj?
    decreases |p|
  {
    if p != [] {
      NotLeafIsObj(j.fields[p[0]], p[1..]);
    }
  }

  /** `e` has the value of `want` at a path, beside others. */
  predicate CarriesKey(e: Json, want: Json, q: Path) {
    && At(e, q) == At(want, q) && q != []
    && At(e, q[..|q| - 1]).Some? && At(e, q[..|q| - 1]).value.Obj? && !LeafOn(e, q[..|q| - 1])
  }

  lemma SentKey(hash: Hasher, want: Doc, actual: Json, q: Path)
    requires Desired(want) && IsKey(q)
    ensures CarriesKey(Sent(hash, want, actual), want, q)
  {
    hide CarriesKey, Sent, Desired;
    if q == REPLICAS {
      SentReplicas(hash, want, actual);
    } else {
      var i :| 0 <= i < |HASHED| && HASHED[i] == q;
      SentHashed(hash, want, actual, i);
    }
  }

  lemma SentReplicas(hash: Hasher, want: Doc, actual: Json)
    requires Desired(want)
    ensures CarriesKey(Sent(hash, want, actual), want, REPLICAS)
  {
    hide At, LeafOn, Sent, Desired;
    SentFacts(hash, want, actual);
    SectionKept(hash, want, actual, SPEC);
    assert REPLICAS[..1] == SPEC;
    NotLeafIsObj(Sent(hash, want, actual), SPEC);
  }

  lemma SentHashed(hash: Hasher, want: Doc, actual: Json, i: nat)
    requires Desired(want) && i < |HASHED|
    ensures CarriesKey(Sent(hash, want, actual), want, HASHED[i])
  {
    hide At, LeafOn, Sent, Desired;
    SentParts(hash, want, actual, i);
    TwoSteps(i);
    NotLeafIsObj(Sent(hash, want, actual), HASHED[i][..1]);
  }

  lemma TwoSteps(i: nat)
    requires i < |HASHED|
    ensures |HASHED[i]| == 2
  {}

  lemma MergedSame(l1: Json, l2: Json, e1: Json, e2: Json, c1: Json, c2: Json, q: Path)
    requires e1.Obj? && e2.Obj? && q != []
    requires At(l1, q) == At(l2, q) && At(e1, q) == At(e2, q) && At(c1, q) == At(c2, q)
    requires At(e1, q[..|q| - 1]).Some? && !LeafOn(e1, q[..|q| - 1])
    requires At(e2, q[..|q| - 1]).Some? && !LeafOn(e2, q[..|q| - 1])
    ensures At(Merged(l1, e1, c1), q) == At(Merged(l2, e2, c2), q)
  {
    MergedByValues(l1, e1, c1, q);
    MergedByValues(l2, e2, c2, q);
  }

  /** The value of a merge at a path whose parent is wanted, in terms of the values there. */
  lemma MergedByValues(l: Json, e: Json, c: Json, q: Path)
    requires e.Obj? && q != [] && At(e, q[..|q| - 1]).Some? && !LeafOn(e, q[..|q| - 1])
    ensures At(Merged(l, e, c), q) ==
      match At(e, q)
      case None => if At(l, q).Some? then None else At(c, q)
      case Some(v) => if v.Obj? then Some(Merged(AtOrNull(l, q), v, AtOrNull(c, q))) else Some(v)
  {
    hide Merged, LeafOn, Dropped;
    if At(e, q).None? {
      NotLeafNext(e, q);
      MergedAt(l, e, c, q);
      if Dropped(l, e, q) {
        DroppedHere(l, e, q);
      } else if At(l, q).Some? {
        DroppedIff(l, e, q);
      }
    } else if At(e, q).value.Obj? {
      MergedBelow(l, e, c, q);
    } else {
      LeafEnds(e, q);
      MergedAt(l, e, c, q);
    }
  }

  lemma {:induction false} DefaultedBelow(t: Json, fill: Json, q: Path)
    requires At(t, q).Some?
    ensures At(Defaulted(t, fill), q) == Some(Defaulted(At(t, q).value, AtOrNull(fill, q)))
    decreases |q|
  {
    if q != [] {
      DefaultedBelow(t.fields[q[0]], Child(fill, q[0]), q[1..]);
      NullAt(q[1..]);
      assert AtOrNull(fill, q) == AtOrNull(Child(fill, q[0]), q[1..]);
    }
  }

  lemma DefaultedSame(t1: Json, t2: Json, fill: Json, q: Path)
    requires q != [] && At(t1, q) == At(t2, q)
    requires At(t1, q[..|q| - 1]).Some? && At(t1, q[..|q| - 1]).value.Obj?
    requires At(t2, q[..|q| - 1]).Some? && At(t2, q[..|q| - 1]).value.Obj?
    ensures At(Defaulted(t1, fill), q) == At(Defaulted(t2, fill), q)
  {
    hide At, LeafOn, Defaulted;
    if At(t1, q).Some? {
      DefaultedBelow(t1, fill, q);
      DefaultedBelow(t2, fill, q);
    } else {
      NotLeafIsObj(t1, q[..|q| - 1]);
      NotLeafIsObj(t2, q[..|q| - 1]);
      NotLeafNext(t1, q);
      NotLeafNext(t2, q);
      DefaultedAt(t1, fill, q);
      DefaultedAt(t2, fill, q);
    }
  }

  // ---- both patch ----

  lemma PatchedSame(hash: Hasher, want: Doc, g: Stored, a: Stored, fill: Json, q: Path)
    requires Desired(want) && IsKey(q) && Alike(g.tree, a.tree)
    ensures At(PatchedTree(hash, want, g, fill), q) == At(PatchedTree(hash, want, a, fill), q)
  {
    hide At, LeafOn, Sent, Desired, Merged, Defaulted, LastApplied;
    var eg, ea := Sent(hash, want, g.tree), Sent(hash, want, a.tree);
    var lg, la := LastApplied(g.tree).value, LastApplied(a.tree).value;
    SentKey(hash, want, g.tree, q);
    SentKey(hash, want, a.tree, q);
    MergedSame(lg, la, eg, ea, g.tree, a.tree, q);
    MergedShape(lg, eg, g.tree, q[..|q| - 1]);
    MergedShape(la, ea, a.tree, q[..|q| - 1]);
    DefaultedSame(Merged(lg, eg, g.tree), Merged(la, ea, a.tree), fill, q);
  }

  function Complete(hash: Hasher, want: Doc, s: Stored, fill: Json): Doc
    requires LastApplied(s.tree).Some?
  {
    SetAt(PatchedTree(hash, want, s, fill), LAST, Text(Sent(hash, want, s.tree)))
  }

  lemma KeyApart(q: Path)
    requires IsKey(q)
    ensures Apart(LAST, q)
  {
    if q == REPLICAS {
      LastApart(REPLICAS);
    } else {
      var i :| 0 <= i < |HASHED| && HASHED[i] == q;
      HashedPathFacts(i);
    }
  }

  /** What a completed patch leaves, as far as the guard can see. */
  lemma CompleteFacts(hash: Hasher, want: Doc, s: Stored, fill: Json)
    requires Desired(want) && LastApplied(s.tree).Some?
    ensures var t := Complete(hash, want, s, fill);
      && Synced(hash, t) && LastApplied(t) == Some(Sent(hash, want, s.tree))
      && At(t, HASH) == Some(Atom(hash(HashedFieldsOf(want).(serviceName := AtomAt(s.tree, SERVICE)))))
      && AtomAt(t, SERVICE) == AtomAt(s.tree, SERVICE)
      && AtomAt(Sent(hash, want, s.tree), SERVICE) == AtomAt(s.tree, SERVICE)
      && forall q :: IsKey(q) ==> At(t, q) == At(PatchedTree(hash, want, s, fill), q)
  {
    hide At, LeafOn, Sent, Desired, PatchedTree, SetAt, IsKey, Synced;
    var p, e := PatchedTree(hash, want, s, fill), Sent(hash, want, s.tree);
    PatchSynced(hash, want, s, fill);
    RecordedAs(p, e);
    PatchedKeys(hash, want, s, fill);
    RecordKeepsKeys(p, e);
    AlignedHash(want, s.tree);
    SentFacts(hash, want, s.tree);
    forall q | IsKey(q) ensures At(SetAt(p, LAST, Text(e)), q) == At(p, q) {
      KeyApart(q);
      SetAtApart(p, LAST, Text(e), q);
    }
  }

  lemma BothPatch(hash: Hasher, want: Doc, g: Stored, a: Stored, fill: Json)
    requires Desired(want) && Alike(g.tree, a.tree)
    ensures Alike(Complete(hash, want, g, fill), Complete(hash, want, a, fill))
  {
    hide At, LeafOn, Sent, Desired, PatchedTree, SetAt, IsKey, Synced, Complete;
    CompleteFacts(hash, want, g, fill);
    CompleteFacts(hash, want, a, fill);
    forall q | IsKey(q)
      ensures At(PatchedTree(hash, want, g, fill), q) == At(PatchedTree(hash, want, a, fill), q)
      ensures At(Sent(hash, want, g.tree), q) == At(Sent(hash, want, a.tree), q)
    {
      PatchedSame(hash, want, g, a, fill, q);
      SentKey(hash, want, g.tree, q);
      SentKey(hash, want, a.tree, q);
    }
  }

  // ---- the guard skips ----

  lemma SkipKeepsKey(hash: Hasher, want: Doc, a: Stored, q: Path)
    requires Injective(hash) && Desired(want) && Synced(hash, a.tree) && At(a.tree, HASH).Some? && IsKey(q)
    requires StatefulSetDeepEqual(hash, Aligned(want, a.tree), a.tree).1
    ensures At(Merged(LastApplied(a.tree).value, Sent(hash, want, a.tree), a.tree), q) == At(a.tree, q)
    ensures At(Sent(hash, want, a.tree), q) == At(LastApplied(a.tree).value, q)
    ensures AtomAt(Sent(hash, want, a.tree), SERVICE) == AtomAt(LastApplied(a.tree).value, SERVICE)
  {
    hide At, LeafOn, Sent, Merged, Aligned, SetAt, CoveredAt;
    var last, e := LastApplied(a.tree).value, Sent(hash, want, a.tree);
    AlignedEquality(hash, want, a.tree);
    SentHash(hash, want, a.tree);
    assert HashedFieldsOf(e) == HashedFieldsOf(last);
    SentFacts(hash, want, a.tree);
    SentKey(hash, want, a.tree, q);
    if q == REPLICAS {
      ReplicasTyped(want);
    } else {
      var i :| 0 <= i < |HASHED| && HASHED[i] == q;
      assert HashedFieldsOf(e).parts[i] == HashedFieldsOf(last).parts[i];
    }
    MergeKeeps(last, e, a.tree, q);
  }

  lemma OnlyAlwaysPatches(hash: Hasher, want: Doc, g: Stored, a: Stored, fill: Json)
    requires Injective(hash) && Desired(want) && Synced(hash, a.tree) && Alike(g.tree, a.tree) && At(g.tree, HASH).Some?
    requires StatefulSetDeepEqual(hash, Aligned(want, a.tree), a.tree).1
    requires FillsNothing(Merged(LastApplied(a.tree).value, Sent(hash, want, a.tree), a.tree), fill)
    ensures Alike(g.tree, Complete(hash, want, a, fill))
  {
    hide At, LeafOn, Sent, Desired, Merged, Defaulted, SetAt, IsKey, Synced, Complete, Aligned;
    CompleteFacts(hash, want, a, fill);
    forall q | IsKey(q)
      ensures At(PatchedTree(hash, want, a, fill), q) == At(a.tree, q)
      ensures At(Sent(hash, want, a.tree), q) == At(LastApplied(a.tree).value, q)
    {
      SkipKeepsKey(hash, want, a, q);
    }
    SkipKeepsKey(hash, want, a, REPLICAS) by { ReplicasIsKey(); }
    SkipKeepsHash(hash, want, a);
  }

  lemma ReplicasIsKey()
    ensures IsKey(REPLICAS)
  {}

  lemma SkipKeepsHash(hash: Hasher, want: Doc, a: Stored)
    requires Desired(want) && Synced(hash, a.tree) && At(a.tree, HASH).Some?
    requires StatefulSetDeepEqual(hash, Aligned(want, a.tree), a.tree).1
    ensures At(a.tree, HASH) == Some(Atom(hash(HashedFieldsOf(want).(serviceName := AtomAt(a.tree, SERVICE)))))
  {
    hide At, Aligned;
    AlignedEquality(hash, want, a.tree);
    AlignedHash(want, a.tree);
  }

  // ---- one step of both ----

  lemma SkipTogether(hash: Hasher, want: Doc, g: Json, a: Json)
    requires Desired(want) && Alike(g, a)
    ensures StatefulSetDeepEqual(hash, Aligned(want, g), g).1 <==> StatefulSetDeepEqual(hash, Aligned(want, a), a).1
  {
    hide At, Aligned, IsKey, HashedFieldsOf, LastApplied, Desired;
    AlignedEquality(hash, want, g);
    AlignedEquality(hash, want, a);
    AlignedHash(want, g);
    AlignedHash(want, a);
    NamespaceIsKey();
    SameFields(g, a);
  }

  lemma NamespaceIsKey()
    ensures IsKey(NAMESPACE) && IsKey(FINALIZERS) && IsKey(REPLICAS)
  {
    assert HASHED[1] == NAMESPACE && HASHED[3] == FINALIZERS;
  }

  /** The patch of the always-patching operator, with both writes. */
  lemma AlwaysPatchIs(hash: Hasher, want: Doc, s: Stored, w: Weather)
    requires Desired(want) && LastApplied(s.tree).Some? && !s.deleting && w.between.None? && w.recordOk
    ensures var obj := PatchOf(Sent(hash, want, s.tree), s, w).0;
      && obj.Some? && !obj.value.deleting
      && (obj.value.tree == s.tree || obj.value.tree == Complete(hash, want, s, w.fill))
      && (!w.writeOk ==> obj.value.tree == s.tree)
      && (w.writeOk && !StatefulSetDeepEqual(hash, Aligned(want, s.tree), s.tree).1 ==> obj.value.tree == Complete(hash, want, s, w.fill))
      && (w.writeOk && !Covers(s.tree, Sent(hash, want, s.tree)) ==> obj.value.tree == Complete(hash, want, s, w.fill))
  {
    hide At, Sent, SetAt, Desired, StatefulSetDeepEqual, Merged, Aligned;
    var e := Sent(hash, want, s.tree);
    SentFacts(hash, want, s.tree);
    MergeRefines(LastApplied(s.tree).value, e, s.tree);
    PatchEmptyIff(LastApplied(s.tree).value, e, s.tree);
    if !StatefulSetDeepEqual(hash, Aligned(want, s.tree), s.tree).1 {
      EmptyPatchUnreachable(hash, want, s);
    }
  }

  lemma StepTogether(hash: Hasher, g: Stored, a: Stored, want: Doc, w: Weather)
    requires Injective(hash) && Related(hash, Some(g), Some(a)) && !g.deleting
    requires Disciplined(Some(g), Sync(want, true, w))
    requires Skips(hash, want, Some(g)) ==>
      At(g.tree, HASH).Some? && FillsNothing(Merged(LastApplied(a.tree).value, Sent(hash, want, a.tree), a.tree), w.fill)
    ensures var skip := Skips(hash, want, Some(g));
      Related(hash, if skip then Some(g) else PatchOf(Sent(hash, want, g.tree), g, w).0, PatchOf(Sent(hash, want, a.tree), a, w).0)
  {
    hide At, Sent, SetAt, Desired, StatefulSetDeepEqual, Merged, Aligned, IsKey, Complete, PatchOf, Alike, Synced, FillsNothing;
    AlikeHasRecords(g.tree, a.tree);
    SkipTogether(hash, want, g.tree, a.tree);
    AlwaysPatchIs(hash, want, a, w);
    AlwaysPatchIs(hash, want, g, w);
    CompleteFacts(hash, want, a, w.fill);
    CompleteFacts(hash, want, g, w.fill);
    if Skips(hash, want, Some(g)) {
      OnlyAlwaysPatches(hash, want, g, a, w.fill);
    } else {
      BothPatch(hash, want, g, a, w.fill);
    }
  }

  lemma AlikeHasRecords(g: Json, a: Json)
    requires Alike(g, a)
    ensures LastApplied(g).Some? && LastApplied(a).Some?
    ensures At(g, FINALIZERS) == At(a, FINALIZERS) && At(g, REPLICAS) == At(a, REPLICAS)
  {
    NamespaceIsKey();
  }

  lemma SyncTogether(hash: Hasher, g: Option<Stored>, a: Option<Stored>, want: Doc, enable: bool, w: Weather)
    requires Injective(hash) && Related(hash, g, a) && Fair(hash, g, a, Both(want, enable, w))
    ensures Related(hash, Apply(hash, want, enable, g, w).0, AlwaysApply(hash, want, enable, a, w).0)
  {
    hide At, Sent, SetAt, Desired, StatefulSetDeepEqual, Merged, Aligned, PatchOf, Synced, Alike, FillsNothing, Defaulted;
    if g.None? {
      CreateSynced(hash, want, w.fill);
      SelfAlike(Defaulted(SetAt(want, LAST, Text(want)), w.fill)) by { SyncedHasRecord(hash, Defaulted(SetAt(want, LAST, Text(want)), w.fill)); }
    } else {
      AlikeHasRecords(g.value.tree, a.value.tree);
      RemoveAtGone(g.value.tree, FINALIZERS);
      RemoveAtGone(a.value.tree, FINALIZERS);
      if !g.value.deleting {
        StepTogether(hash, g.value, a.value, want, w);
      }
    }
  }

  lemma SyncedHasRecord(hash: Hasher, t: Json)
    requires Synced(hash, t)
    ensures LastApplied(t).Some?
  {}

  lemma SelfAlike(t: Json)
    requires LastApplied(t).Some?
    ensures Alike(t, t)
  {}

  lemma EditTogether(hash: Hasher, g: Stored, a: Stored, tg: Doc, ta: Doc)
    requires Related(hash, Some(g), Some(a))
    requires Disciplined(Some(g), Foreign(tg)) && Disciplined(Some(a), Foreign(ta))
    ensures Related(hash, Step(hash, Some(g), Foreign(tg)).0, Step(hash, Some(a), Foreign(ta)).0)
  {
    hide At, Synced, LastApplied;
    StepSynced(hash, Some(g), Foreign(tg));
    StepSynced(hash, Some(a), Foreign(ta));
    NamespaceIsKey();
    EditKeepsKeys(g.tree, tg);
    EditKeepsKeys(a.tree, ta);
  }

  lemma EditKeepsKeys(t: Json, t': Json)
    requires HashedFieldsOf(t) == HashedFieldsOf(t') && At(t, REPLICAS) == At(t', REPLICAS) && At(t, LAST) == At(t', LAST)
    ensures forall q :: IsKey(q) ==> At(t, q) == At(t', q)
    ensures AtomAt(t, SERVICE) == AtomAt(t', SERVICE) && LastApplied(t) == LastApplied(t')
  {
    hide At;
    forall q | IsKey(q) && q != REPLICAS ensures At(t, q) == At(t', q) {
      var i :| 0 <= i < |HASHED| && HASHED[i] == q;
      assert HashedFieldsOf(t).parts[i] == HashedFieldsOf(t').parts[i];
    }
  }

  lemma PairStep(hash: Hasher, g: Option<Stored>, a: Option<Stored>, ev: PairEvent)
    requires Injective(hash) && Related(hash, g, a) && Fair(hash, g, a, ev)
    ensures Related(hash, GuardedStep(hash, g, ev), AlwaysStep(hash, a, ev))
  {
    hide At, Synced, Alike, Apply, AlwaysApply, Skips, FillsNothing;
    match ev
    case Both(want, enable, w) => SyncTogether(hash, g, a, want, enable, w);
    case Edits(tg, ta) => if g.Some? { EditTogether(hash, g.value, a.value, tg, ta); }
    case MarkBoth => if g.Some? { AlikeHasRecords(g.value.tree, a.value.tree); }
  }

  /** Over every fair run of requests, failures, defaults, edits and deletions: the guarded operator and the
      one that always patches create, lose and hold their StatefulSets together, with the same values in
      every hashed field and the same hash, although the guarded one has skipped writes. */
  lemma {:induction false} GuardedFollowsAlways(hash: Hasher, g: Option<Stored>, a: Option<Stored>, evs: seq<PairEvent>)
    requires Injective(hash) && Related(hash, g, a) && FairRun(hash, g, a, evs)
    ensures var g', a' := GuardedRun(hash, g, evs), AlwaysRun(hash, a, evs);
      && Related(hash, g', a') && (g'.Some? <==> a'.Some?)
      && (g'.Some? ==> HashedFieldsOf(g'.value.tree) == HashedFieldsOf(a'.value.tree))
    decreases |evs|
  {
    hide Related, Fair, GuardedStep, AlwaysStep, HashedFieldsOf;
    if evs != [] {
      PairStep(hash, g, a, evs[0]);
      GuardedFollowsAlways(hash, GuardedStep(hash, g, evs[0]), AlwaysStep(hash, a, evs[0]), evs[1..]);
    } else {
      RelatedFields(hash, g, a);
    }
  }

  lemma RelatedFields(hash: Hasher, g: Option<Stored>, a: Option<Stored>)
    requires Related(hash, g, a)
    ensures g.Some? <==> a.Some?
    ensures g.Some? ==> HashedFieldsOf(g.value.tree) == HashedFieldsOf(a.value.tree)
  {
    hide Synced, HashedFieldsOf;
    if g.Some? {
      SameFields(g.value.tree, a.value.tree);
    }
  }
}
