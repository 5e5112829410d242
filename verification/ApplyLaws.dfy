/** What one apply does, from the fields of the objects themselves. */
module ApplyLaws {
  import opened Options
  import opened Json
  import opened ThreeWayMerge
  import opened StatefulSets
  import opened ApplyEffects
  import opened ApplyRuns
  import opened ApplyCache
  import opened ApplyRefinement

  /** The object is on its way out and waits for its finalizers. */
  predicate Leaving(s: Stored) {
    && s.deleting && At(s.tree, ["metadata", "finalizers"]).Some?
    && At(s.tree, ["metadata", "finalizers"]).value.Obj? && At(s.tree, ["metadata", "finalizers"]).value.fields != map[]
  }

  /** More than one replica is stored, and one or an unsaid number is asked for. */
  predicate ScalesInToOne(want: Json, t: Json) {
    && At(t, ["spec", "replicas"]).Some? && At(t, ["spec", "replicas"]).value.Num? && At(t, ["spec", "replicas"]).value.n > 1
    && (match At(want, ["spec", "replicas"])
        case Some(Num(n)) => n == 1
        case _ => true)
  }

  lemma LeavingIff(s: Stored)
    ensures Leaving(s) <==> s.deleting && HasFinalizers(s.tree)
  {
    hide At;
  }

  lemma ScalesInToOneIff(want: Json, t: Json)
    ensures ScalesInToOne(want, t) <==> ScaleTo1Refused(want, t)
  {
    hide At;
  }

  lemma PatchOfIsNoRefusal(e: Doc, s: Stored, w: Weather)
    ensures PatchOf(e, s, w).1 !in {Refused, Created, Outcome.Cleared}
  {
    hide ThreeWayPatch, Rewritten, LastApplied, Defaulted, ApplyPatch, SetAt;
  }

  /** An apply without leave to scale to one is refused exactly when it would scale in to one, or to a number
      that nobody said; every other change of the replicas goes through.  With leave none is refused. */
  lemma RefusedIff(hash: Hasher, want: Doc, s: Stored, w: Weather)
    ensures Apply(hash, want, false, Some(s), w).1 == Refused <==> w.getOk && !Leaving(s) && ScalesInToOne(want, s.tree)
    ensures Apply(hash, want, true, Some(s), w).1 != Refused
    ensures Apply(hash, want, false, Some(s), w).1 == Refused ==> Apply(hash, want, false, Some(s), w).0 == Some(s)
  {
    hide At, PatchOf, StatefulSetDeepEqual, ScaleTo1Refused, ScalesInToOne, Leaving, HasFinalizers;
    LeavingIff(s);
    ScalesInToOneIff(want, s.tree);
    PatchOfIsNoRefusal(Sent(hash, want, s.tree), s, w);
  }

  // ---- the record ----

  /** The annotation is missing, blank, or holds an object; anything else cannot be read. */
  predicate Readable(t: Json) {
    match At(t, ["metadata", "annotations", "starrocks.kubernetes.operator/last-applied-configuration"])
    case None => true
    case Some(Text(doc)) => doc.Obj?
    case Some(Atom(text)) => text == ""
    case _ => false
  }

  /** What the record says; a missing or blank one says nothing. */
  function RecordOf(t: Json): Doc {
    match At(t, ["metadata", "annotations", "starrocks.kubernetes.operator/last-applied-configuration"])
    case Some(Text(doc)) => if doc.Obj? then doc else EMPTY
    case _ => EMPTY
  }

  lemma ReadableIff(t: Json)
    ensures Readable(t) <==> LastApplied(t).Some?
    ensures Readable(t) ==> LastApplied(t) == Some(RecordOf(t))
  {
    hide At;
  }

  /** Nothing fails and nobody comes in between. */
  predicate Unhindered(w: Weather) {
    w.getOk && w.writeOk && w.between.None? && w.recordOk
  }

  lemma PathNames()
    ensures LAST == ["metadata", "annotations", "starrocks.kubernetes.operator/last-applied-configuration"]
    ensures HASH == ["metadata", "annotations", "app.starrocks.components/hash"]
    ensures SERVICE == ["spec", "serviceName"] && POLICY == ["spec", "podManagementPolicy"] && REPLICAS == ["spec", "replicas"]
    ensures ORDERED == "OrderedReady"
  {}

  /** An unhindered apply to a living object with another hash is patched if the record can be read, and
      fails and changes nothing if not.  A patch stores the record of what was sent. */
  lemma RecordDecides(hash: Hasher, want: Doc, enable: bool, s: Stored, w: Weather)
    requires Desired(want) && !s.deleting && Unhindered(w) && (enable || !ScalesInToOne(want, s.tree))
    requires !StatefulSetDeepEqual(hash, Aligned(want, s.tree), s.tree).1
    ensures var (obj, outcome) := Apply(hash, want, enable, Some(s), w);
      && (outcome == Patched <==> Readable(s.tree))
      && (!Readable(s.tree) ==> outcome == Failed && obj == Some(s))
      && (outcome == Patched ==>
            && obj.Some? && !obj.value.deleting && Readable(obj.value.tree)
            && RecordOf(obj.value.tree) == Sent(hash, want, s.tree)
            && At(obj.value.tree, ["metadata", "annotations", "app.starrocks.components/hash"]) ==
                 Some(Atom(hash(HashedFieldsOf(want).(serviceName := AtomAt(s.tree, SERVICE)))))
            && LastApplied(s.tree).Some?
            && obj.value.tree == SetAt(PatchedTree(hash, want, s, w.fill), LAST, Text(Sent(hash, want, s.tree))))
  {
    hide At, SetAt, PatchedTree, Sent, Desired, StatefulSetDeepEqual, Aligned, Apply, ScalesInToOne, ScaleTo1Refused, HasFinalizers, Readable, RecordOf;
    ScalesInToOneIff(want, s.tree);
    ReadableIff(s.tree);
    ApplyExistingIs(hash, want, enable, s, w);
    if LastApplied(s.tree).Some? {
      RecordedAs(PatchedTree(hash, want, s, w.fill), Sent(hash, want, s.tree));
      ReadableIff(SetAt(PatchedTree(hash, want, s, w.fill), LAST, Text(Sent(hash, want, s.tree))));
      PatchedKeys(hash, want, s, w.fill);
      RecordKeepsKeys(PatchedTree(hash, want, s, w.fill), Sent(hash, want, s.tree));
      AlignedHash(want, s.tree);
      PathNames();
    } else {
      UnreadableFails(hash, want, enable, s, w);
    }
  }

  lemma UnreadableFails(hash: Hasher, want: Doc, enable: bool, s: Stored, w: Weather)
    requires w.getOk && !s.deleting && (enable || !ScaleTo1Refused(want, s.tree)) && LastApplied(s.tree).None?
    requires !StatefulSetDeepEqual(hash, Aligned(want, s.tree), s.tree).1
    ensures Apply(hash, want, enable, Some(s), w) == (Some(s), Failed)
  {
    hide At, StatefulSetDeepEqual, ScaleTo1Refused, HasFinalizers, LastApplied, Aligned;
  }

  /** An object that has no record loses nothing in its first patch: whatever is not asked for stays. */
  lemma FirstPatchKeeps(hash: Hasher, want: Doc, s: Stored, fill: Json, p: Path)
    requires Desired(want) && Readable(s.tree) && RecordOf(s.tree) == EMPTY
    requires IsLeaf(s.tree, p) && At(Sent(hash, want, s.tree), p).None? && !LeafOn(Sent(hash, want, s.tree), p)
    ensures LastApplied(s.tree).Some? && At(PatchedTree(hash, want, s, fill), p) == At(s.tree, p)
  {
    hide At, Sent, Desired, PatchedTree, LeafOn, Readable, RecordOf;
    ReadableIff(s.tree);
    PatchedAt(hash, want, s, fill, p);
  }

  /** A failed read or a failed first write changes nothing. */
  lemma FailuresChangeNothing(hash: Hasher, want: Doc, enable: bool, obj: Option<Stored>, w: Weather)
    requires !w.getOk || !w.writeOk
    ensures Apply(hash, want, enable, obj, w).0 == obj
    ensures !w.getOk ==> Apply(hash, want, enable, obj, w).1 == Failed
  {
    hide At, StatefulSetDeepEqual, Sent, SetAt, ThreeWayPatch, LastApplied, ScaleTo1Refused;
  }

  // ---- replicas, service name and policy ----

  /** Asking for any other number than one gets that number, in and out of recovery. */
  lemma ScalesTo(hash: Hasher, want: Doc, enable: bool, s: Stored, w: Weather, n: int)
    requires Desired(want) && !s.deleting && Readable(s.tree) && Unhindered(w)
    requires At(want, ["spec", "replicas"]) == Some(Num(n)) && (n != 1 || enable)
    requires !StatefulSetDeepEqual(hash, Aligned(want, s.tree), s.tree).1
    ensures var (obj, outcome) := Apply(hash, want, enable, Some(s), w);
      outcome == Patched && obj.Some? && At(obj.value.tree, ["spec", "replicas"]) == Some(Num(n))
  {
    hide At, SetAt, PatchedTree, Sent, Desired, StatefulSetDeepEqual, Aligned, Apply, Readable, LeafOn, RecordOf;
    RecordDecides(hash, want, enable, s, w);
    var e, t := Sent(hash, want, s.tree), PatchedTree(hash, want, s, w.fill);
    PathNames();
    SentFacts(hash, want, s.tree);
    LeafEnds(e, REPLICAS);
    PatchedAt(hash, want, s, w.fill, REPLICAS);
    LastApart(REPLICAS);
    SetAtApart(t, LAST, Text(e), REPLICAS);
  }

  lemma PolicyIsAligned(hash: Hasher, want: Doc, actual: Json)
    requires Desired(want)
    ensures At(Sent(hash, want, actual), POLICY) ==
      if At(actual, POLICY) == Some(Atom(ORDERED)) then Some(Atom(ORDERED)) else At(want, POLICY)
  {
    hide At, SetAt, Desired, Apart, StatefulSetDeepEqual;
    SentFacts(hash, want, actual);
    PathFacts();
    var v := Atom(AtomAt(actual, SERVICE));
    SetAtApart(Aligned(want, actual), HASH, Atom(StatefulSetDeepEqual(hash, Aligned(want, actual), actual).0), POLICY);
    SetAtApart(want, SERVICE, v, POLICY);
    AtomIs(actual);
  }

  lemma AtomIs(t: Json)
    ensures AtomAt(t, POLICY) == ORDERED <==> At(t, POLICY) == Some(Atom(ORDERED))
  {
    hide At;
  }

  /** A patch keeps the service name, and an OrderedReady policy; with any other policy the user's is
      stored. */
  lemma PatchKeepsWhatCreationFixed(hash: Hasher, want: Doc, s: Stored, fill: Json, name: string)
    requires Desired(want) && LastApplied(s.tree).Some?
    ensures var t := SetAt(PatchedTree(hash, want, s, fill), LAST, Text(Sent(hash, want, s.tree)));
      && (At(s.tree, ["spec", "serviceName"]) == Some(Atom(name)) ==> At(t, ["spec", "serviceName"]) == Some(Atom(name)))
      && (At(s.tree, ["spec", "podManagementPolicy"]) == Some(Atom("OrderedReady")) ==>
            At(t, ["spec", "podManagementPolicy"]) == Some(Atom("OrderedReady")))
      && (At(s.tree, ["spec", "podManagementPolicy"]) != Some(Atom("OrderedReady")) && IsLeaf(want, ["spec", "podManagementPolicy"]) ==>
            At(t, ["spec", "podManagementPolicy"]) == At(want, ["spec", "podManagementPolicy"]))
  {
    hide At, SetAt, PatchedTree, Sent, Desired, StatefulSetDeepEqual, Aligned, LeafOn;
    var e, p := Sent(hash, want, s.tree), PatchedTree(hash, want, s, fill);
    PathNames();
    SentFacts(hash, want, s.tree);
    PolicyIsAligned(hash, want, s.tree);
    LeafEnds(e, SERVICE);
    PatchedAt(hash, want, s, fill, SERVICE);
    PatchedAt(hash, want, s, fill, POLICY);
    LastApart(SERVICE);
    LastApart(POLICY);
    SetAtApart(p, LAST, Text(e), SERVICE);
    SetAtApart(p, LAST, Text(e), POLICY);
    if IsLeaf(e, POLICY) {
      LeafEnds(e, POLICY);
    }
  }

  // ---- creation ----

  /** What is created: everything asked for, the record of it, nothing else but the server's defaults. */
  lemma CreateStores(hash: Hasher, want: Doc, enable: bool, w: Weather, p: Path)
    requires Desired(want) && w.getOk && w.writeOk && !(p <= LAST)
    ensures var (obj, outcome) := Apply(hash, want, enable, None, w);
      && outcome == Created && obj.Some? && !obj.value.deleting && obj.value.generation == 1 && obj.value.status.observedGeneration == 0
      && Readable(obj.value.tree) && RecordOf(obj.value.tree) == want
      && (IsLeaf(want, p) ==> At(obj.value.tree, p) == At(want, p))
      && (At(want, p).None? && At(obj.value.tree, p).Some? ==> At(obj.value.tree, p) == At(w.fill, p))
  {
    hide At, SetAt, Desired, LeafOn, Defaulted, Readable, RecordOf, Apart;
    var t0 := SetAt(want, LAST, Text(want));
    var t := Defaulted(t0, w.fill);
    DesiredFacts(want, LAST);
    SetAtSame(want, LAST, Text(want));
    LeafEnds(t0, LAST);
    DefaultedAt(t0, w.fill, LAST);
    RecordedAs(want, want);
    ReadableIff(t);
    SameRecord(t0, t);
    DefaultedAt(t0, w.fill, p);
    RecordAt(want, want, p);
    KeptByRecord(want, want, p);
    if IsLeaf(want, p) {
      LeafEnds(t0, p);
    }
    LeafHoldsNothing(t0, p);
  }

  lemma SameRecord(a: Json, b: Json)
    requires At(a, LAST) == At(b, LAST)
    ensures LastApplied(a) == LastApplied(b)
  {}

  lemma {:induction false} LeafHoldsNothing(t: Json, p: Path)
    ensures LeafOn(t, p) && At(t, p).None? ==> forall fill :: At(Defaulted(t, fill), p).None?
  {
    forall fill ensures LeafOn(t, p) && At(t, p).None? ==> At(Defaulted(t, fill), p).None? {
      DefaultedAt(t, fill, p);
    }
  }

  // ---- the cache key ----

  /** Two desired objects agree in everything that the operator writes for. */
  predicate Agree(a: Json, b: Json) {
    && At(a, ["metadata", "name"]) == At(b, ["metadata", "name"])
    && At(a, ["metadata", "namespace"]) == At(b, ["metadata", "namespace"])
    && At(a, ["metadata", "labels"]) == At(b, ["metadata", "labels"])
    && At(a, ["metadata", "finalizers"]) == At(b, ["metadata", "finalizers"])
    && At(a, ["spec", "selector"]) == At(b, ["spec", "selector"])
    && At(a, ["spec", "template"]) == At(b, ["spec", "template"])
    && At(a, ["spec", "volumeClaimTemplates"]) == At(b, ["spec", "volumeClaimTemplates"])
    && At(a, ["spec", "updateStrategy"]) == At(b, ["spec", "updateStrategy"])
    && At(a, ["spec", "persistentVolumeClaimRetentionPolicy"]) == At(b, ["spec", "persistentVolumeClaimRetentionPolicy"])
    && At(a, ["spec", "minReadySeconds"]) == At(b, ["spec", "minReadySeconds"])
    && At(a, ["spec", "replicas"]) == At(b, ["spec", "replicas"])
  }

  lemma AgreeIff(a: Doc, b: Doc, service: string)
    requires Desired(a) && Desired(b)
    ensures Agree(a, b) <==> HashedFieldsOf(a).(serviceName := service) == HashedFieldsOf(b).(serviceName := service)
  {
    hide At, Desired;
    ReplicasTyped(a);
    ReplicasTyped(b);
    var x, y := HashedFieldsOf(a), HashedFieldsOf(b);
    assert x.parts == y.parts <==> forall i :: 0 <= i < |HASHED| ==> x.parts[i] == y.parts[i];
    assert forall i :: 0 <= i < |HASHED| ==> x.parts[i] == At(a, HASHED[i]) && y.parts[i] == At(b, HASHED[i]);
    AllHashed(a, b);
  }

  lemma AllHashed(a: Json, b: Json)
    ensures (forall i :: 0 <= i < |HASHED| ==> At(a, HASHED[i]) == At(b, HASHED[i])) && At(a, REPLICAS) == At(b, REPLICAS) <==> Agree(a, b)
  {
    hide At;
    assert HASHED[0] == ["metadata", "name"] && HASHED[1] == ["metadata", "namespace"] && HASHED[2] == ["metadata", "labels"];
    assert HASHED[3] == ["metadata", "finalizers"] && HASHED[4] == ["spec", "selector"] && HASHED[5] == ["spec", "template"];
    assert HASHED[6] == ["spec", "volumeClaimTemplates"] && HASHED[7] == ["spec", "updateStrategy"];
    assert HASHED[8] == ["spec", "persistentVolumeClaimRetentionPolicy"] && HASHED[9] == ["spec", "minReadySeconds"];
  }

  /** What the cache lets through: after an apply of `want` that wrote and recorded, an unhindered apply of
      `want'` writes nothing exactly if the two agree in the fields of the key, and otherwise patches. */
  lemma NextApplyWritesIff(hash: Hasher, want: Doc, enable: bool, s: Stored, w: Weather, want': Doc, w': Weather)
    requires Injective(hash) && Desired(want) && Desired(want') && Live(want, Some(s))
    requires w.between.None? && Apply(hash, want, enable, Some(s), w).1 == Patched && Unhindered(w')
    ensures var (obj, outcome) := Apply(hash, want', true, Apply(hash, want, enable, Some(s), w).0, w');
      && (outcome == Unchanged <==> Agree(want, want'))
      && (outcome == Patched <==> !Agree(want, want'))
  {
    hide At, SetAt, PatchedTree, Sent, Desired, StatefulSetDeepEqual, Aligned, Apply, Readable, RecordOf, Agree, Settled, HashedFieldsOf;
    PatchSettles(hash, want, Some(s), Sync(want, enable, w));
    PatchOutcome(hash, Some(s), want, enable, w);
    var obj := Apply(hash, want, enable, Some(s), w).0;
    SettledIsLive(hash, want, obj);
    var t := obj.value.tree;
    RecordedAs(PatchedTree(hash, want, s, w.fill), Sent(hash, want, s.tree));
    ReadableIff(t);
    SettledSkipsIff(hash, want, obj, want');
    ApplyExistingIs(hash, want', true, obj.value, w');
    if !Agree(want, want') {
      RecordDecides(hash, want', true, obj.value, w');
    } else {
      EqualIsUnchanged(hash, want', obj.value, w');
    }
  }

  /** So a change of the replicas to any number but one goes through at once, without leave to scale to one. */
  lemma RescaleGoesThrough(hash: Hasher, want: Doc, enable: bool, s: Stored, w: Weather, want': Doc, w': Weather, n: int)
    requires Injective(hash) && Desired(want) && Desired(want') && Live(want, Some(s))
    requires w.between.None? && Apply(hash, want, enable, Some(s), w).1 == Patched && Unhindered(w')
    requires At(want, ["spec", "replicas"]) != At(want', ["spec", "replicas"]) == Some(Num(n)) && n != 1
    ensures var (obj, outcome) := Apply(hash, want', false, Apply(hash, want, enable, Some(s), w).0, w');
      outcome == Patched && obj.Some? && At(obj.value.tree, ["spec", "replicas"]) == Some(Num(n))
  {
    hide At, SetAt, PatchedTree, Sent, Desired, StatefulSetDeepEqual, Aligned, Apply, Readable, RecordOf, Settled, HashedFieldsOf;
    PatchSettles(hash, want, Some(s), Sync(want, enable, w));
    PatchOutcome(hash, Some(s), want, enable, w);
    var obj := Apply(hash, want, enable, Some(s), w).0;
    SettledIsLive(hash, want, obj);
    RecordedAs(PatchedTree(hash, want, s, w.fill), Sent(hash, want, s.tree));
    ReadableIff(obj.value.tree);
    SettledSkipsIff(hash, want, obj, want');
    ScalesTo(hash, want', false, obj.value, w', n);
  }

  lemma SettledIsLive(hash: Hasher, want: Doc, obj: Option<Stored>)
    requires Settled(hash, want, obj)
    ensures obj.Some? && !obj.value.deleting
  {}

  lemma EqualIsUnchanged(hash: Hasher, want: Doc, s: Stored, w: Weather)
    requires w.getOk && !s.deleting && StatefulSetDeepEqual(hash, Aligned(want, s.tree), s.tree).1
    ensures Apply(hash, want, true, Some(s), w) == (Some(s), Unchanged)
  {
    hide At, StatefulSetDeepEqual, Aligned, HasFinalizers;
  }

  lemma SettledSkipsIff(hash: Hasher, want: Doc, obj: Option<Stored>, want': Doc)
    requires Injective(hash) && Desired(want) && Desired(want') && Settled(hash, want, obj)
    ensures StatefulSetDeepEqual(hash, Aligned(want', obj.value.tree), obj.value.tree).1 <==> Agree(want, want')
  {
    hide At, Desired, Aligned, Agree, HashedFieldsOf;
    var t := obj.value.tree;
    AlignedEquality(hash, want', t);
    AlignedHash(want, t);
    AlignedHash(want', t);
    AgreeIff(want, want', AtomAt(t, SERVICE));
    if Agree(want, want') {
      AgreeOnNamespace(want, want');
    }
  }

  lemma AgreeOnNamespace(a: Json, b: Json)
    requires Agree(a, b)
    ensures AtomAt(a, NAMESPACE) == AtomAt(b, NAMESPACE)
  {
    hide At;
  }
}
