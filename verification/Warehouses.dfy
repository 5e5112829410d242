/** Deleting a warehouse: the finalizer on its StatefulSet keeps the connection data until the FE has been
    asked to drop the warehouse. */
module Warehouses {
  import opened Options
  import opened Json
  import opened ThreeWayMerge
  import opened StatefulSets
  import opened ApplyEffects
  import ApplyRuns
  import opened Objects

  const FINALIZER := "starrocks.com.starrockswarehouse/protection"

  // ---- names ----

  function DropStatement(name: string): string {
    "DROP WAREHOUSE " + GetWarehouseNameInFE(name)
  }

  /** Kubernetes names hold no underscore, so two warehouses never share a drop statement. */
  lemma DropHitsNoSibling(a: string, b: string)
    requires '_' !in a && '_' !in b
    ensures DropStatement(a) == DropStatement(b) <==> a == b
  {
    var x, y := GetWarehouseNameInFE(a), GetWarehouseNameInFE(b);
    if DropStatement(a) == DropStatement(b) {
      var prefix := "DROP WAREHOUSE ";
      assert x == DropStatement(a)[|prefix|..] && y == DropStatement(b)[|prefix|..];
      forall i | 0 <= i < |a| ensures a[i] == b[i] {
        assert x[i] == y[i];
        assert a[i] in a && b[i] in b;
      }
    }
  }

  /** One warehouse name does collide: the nodes that the cluster's own CN collection works on are those
      of the warehouse object called default-warehouse. */
  lemma OnlyOneNameIsTheDefault(name: string)
    requires '_' !in name
    ensures GetWarehouseNameInFE(name) == WarehouseInFE(OfCluster) <==> name == "default-warehouse"
  {
    assert GetWarehouseNameInFE("default-warehouse") == DEFAULT_WAREHOUSE;
    DropHitsNoSibling(name, "default-warehouse");
  }

  // ---- the protocol ----

  /** Any finalizer holds the StatefulSet back. */
  predicate Protected(t: Json) {
    HasFinalizers(t)
  }

  /** What MakeStatefulset builds for a warehouse. */
  predicate DesiredForWarehouse(want: Doc) {
    Desired(want) && At(want, FINALIZERS) == Some(Obj(map[FINALIZER := Atom("")]))
  }

  /** Where the one reconcile worker is: between its read of the CR and the apply, or between the calls of
      ClearWarehouse. */
  datatype Pc = Idle | Syncing | Clearing | Dropping | Unprotecting

  /** `existed` and `drops` remember whether the StatefulSet was ever stored and how many DROP attempts
      were made; `made` whether the CR was ever created. */
  datatype Proto = Proto(cr: bool, made: bool, sts: Option<Stored>, existed: bool, drops: nat, pc: Pc)

  const NOTHING := Proto(false, false, None, false, 0, Idle)

  datatype Event =
    | CreateCR
    | DeleteCR
    | CollectGarbage
    | DeleteStatefulSet
    | EditStatefulSet(tree: Doc)
    | Begin
    | GiveUp
    | ApplyStep(want: Doc, w: Weather)
    | BuildExecutor(ok: bool)
    | TryDrop(ok: bool)
    | ClearFinalizers(ok: bool)

  function Marked(sts: Option<Stored>): Option<Stored> {
    if sts.Some? && Protected(sts.value.tree) then Some(sts.value.(deleting := true)) else None
  }

  function Unprotected(sts: Option<Stored>, ok: bool): Option<Stored> {
    if sts.Some? && ok then Rewritten(sts.value, RemoveAt(sts.value.tree, FINALIZERS)) else sts
  }

  function Next(hash: Hasher, s: Proto, ev: Event): Proto {
    match ev
    case CreateCR => s.(cr := true, made := true)
    case DeleteCR => s.(cr := false)
    case CollectGarbage => if s.cr then s else s.(sts := Marked(s.sts))
    case DeleteStatefulSet => s.(sts := Marked(s.sts))
    case EditStatefulSet(t) => if s.sts.Some? then s.(sts := Rewritten(s.sts.value, t)) else s
    case Begin => if s.pc != Idle then s else s.(pc := if s.cr then Syncing else Clearing)
    case GiveUp => s.(pc := Idle)
    case ApplyStep(want, w) =>
      if s.pc != Syncing then s
      else
        var sts := Apply(hash, want, true, s.sts, w).0;
        s.(pc := Idle, sts := sts, existed := s.existed || sts.Some?)
    case BuildExecutor(ok) =>
      if s.pc != Clearing then s else s.(pc := if s.sts.Some? && ok then Dropping else Idle)
    case TryDrop(ok) =>
      if s.pc != Dropping then s else s.(pc := Unprotecting, drops := s.drops + 1)
    case ClearFinalizers(ok) =>
      if s.pc != Unprotecting then s else s.(pc := Idle, sts := Unprotected(s.sts, ok))
  }

  function Run(hash: Hasher, s: Proto, evs: seq<Event>): Proto
    decreases |evs|
  {
    if evs == [] then s else Run(hash, Next(hash, s, evs[0]), evs[1..])
  }

  // ---- what ends the protection ----

  predicate Kept(s: Proto) {
    s.sts.Some? && Protected(s.sts.value.tree)
  }

  /** An apply that takes a protected StatefulSet away or its protection: one to a StatefulSet that is
      being deleted, or one between whose two writes another actor removes the finalizers. */
  predicate AppliesAway(hash: Hasher, want: Doc, s: Stored, w: Weather) {
    if s.deleting then w.getOk && w.writeOk
    else Patches(hash, want, true, s, w) && w.between.Some? && !Protected(w.between.value)
  }

  predicate Loses(hash: Hasher, s: Proto, ev: Event) {
    match ev
    case ApplyStep(want, w) => s.pc == Syncing && s.sts.Some? && AppliesAway(hash, want, s.sts.value, w)
    case EditStatefulSet(t) => !Protected(t)
    case ClearFinalizers(ok) => ok && s.pc == Unprotecting
    case _ => false
  }

  const PROTECTION: Path := FINALIZERS + [FINALIZER]

  lemma ProtectionProtects(t: Json)
    requires At(t, PROTECTION).Some?
    ensures Protected(t)
  {
    assert PROTECTION[1..][1..] == [FINALIZER] && FINALIZERS[1..] == ["finalizers"] && PROTECTION[1..][0] == "finalizers";
    var m := t.fields["metadata"];
    assert At(t, FINALIZERS) == At(m, ["finalizers"]) == Some(m.fields["finalizers"]);
    assert At(m.fields["finalizers"], [FINALIZER]).Some?;
  }

  lemma WantsProtection(want: Doc)
    requires DesiredForWarehouse(want)
    ensures At(want, PROTECTION) == Some(Atom(""))
  {
    assert PROTECTION[1..][1..] == [FINALIZER] && FINALIZERS[1..] == ["finalizers"] && PROTECTION[1..][0] == "finalizers";
    var m := want.fields["metadata"];
    assert At(want, FINALIZERS) == At(m, ["finalizers"]) == Some(m.fields["finalizers"]);
    assert At(m.fields["finalizers"], [FINALIZER]) == Some(Atom(""));
  }

  lemma ProtectionApart()
    ensures Apart(HASH, PROTECTION) && Apart(SERVICE, PROTECTION) && Apart(POLICY, PROTECTION) && Apart(LAST, PROTECTION)
  {
    assert PROTECTION[1..][0] == "finalizers";
    assert Apart(HASH[1..], PROTECTION[1..]) && Apart(LAST[1..], PROTECTION[1..]);
  }

  lemma SentIsProtected(hash: Hasher, want: Doc, actual: Json)
    requires DesiredForWarehouse(want)
    ensures At(Sent(hash, want, actual), PROTECTION) == Some(Atom(""))
  {
    hide At, SetAt, Apart, LeafOn;
    ProtectionApart();
    WantsProtection(want);
    AlignedFacts(want, actual, PROTECTION);
    SetAtApart(Aligned(want, actual), HASH, Atom(StatefulSetDeepEqual(hash, Aligned(want, actual), actual).0), PROTECTION);
  }

  lemma CreateProtects(want: Doc, fill: Json)
    requires DesiredForWarehouse(want)
    ensures Protected(Defaulted(SetAt(want, LAST, Text(want)), fill))
  {
    hide At, SetAt, Apart, Defaulted, Protected;
    var t := SetAt(want, LAST, Text(want));
    ProtectionApart();
    WantsProtection(want);
    SetAtApart(want, LAST, Text(want), PROTECTION);
    DefaultedAt(t, fill, PROTECTION);
    ProtectionProtects(Defaulted(t, fill));
  }

  lemma PatchProtects(hash: Hasher, want: Doc, s: Stored, fill: Json)
    requires DesiredForWarehouse(want) && LastApplied(s.tree).Some?
    ensures Protected(PatchedTree(hash, want, s, fill))
  {
    hide At, Sent, Merged, Defaulted, Protected, DesiredForWarehouse;
    var e := Sent(hash, want, s.tree);
    SentIsProtected(hash, want, s.tree);
    MergedAt(LastApplied(s.tree).value, e, s.tree, PROTECTION);
    DefaultedAt(Merged(LastApplied(s.tree).value, e, s.tree), fill, PROTECTION);
    ProtectionProtects(PatchedTree(hash, want, s, fill));
  }

  lemma RecordProtects(t: Json, doc: Json)
    ensures Protected(SetAt(t, LAST, Text(doc))) == Protected(t)
  {
    assert HASHED[3] == FINALIZERS;
    HashedPathFacts(3);
    SetAtApart(t, LAST, Text(doc), FINALIZERS);
  }

  lemma ApplyLosesIff(hash: Hasher, want: Doc, s: Stored, w: Weather)
    requires DesiredForWarehouse(want) && Protected(s.tree)
    ensures var sts := Apply(hash, want, true, Some(s), w).0;
      sts.None? || !Protected(sts.value.tree) <==> AppliesAway(hash, want, s, w)
  {
    hide DesiredForWarehouse, Sent, PatchedTree, At, StatefulSetDeepEqual, SetAt;
    WarehouseIsDesired(want);
    ApplyExistingIs(hash, want, true, s, w);
    ClearsIff(hash, want, s, w);
    if Patches(hash, want, true, s, w) {
      PatchProtects(hash, want, s, w.fill);
      RecordProtects(ApplyRuns.HalfWay(hash, want, s, w), Sent(hash, want, s.tree));
    }
  }

  lemma WarehouseIsDesired(want: Doc)
    requires DesiredForWarehouse(want)
    ensures Desired(want)
  {}

  lemma ClearsIff(hash: Hasher, want: Doc, s: Stored, w: Weather)
    requires Protected(s.tree)
    ensures Apply(hash, want, true, Some(s), w).1 == Outcome.Cleared <==> s.deleting && w.getOk && w.writeOk
  {
    hide StatefulSetDeepEqual, Sent, PatchOf;
    PatchNeverClears(hash, want, s, w);
  }

  lemma PatchNeverClears(hash: Hasher, want: Doc, s: Stored, w: Weather)
    ensures PatchOf(Sent(hash, want, s.tree), s, w).1 != Outcome.Cleared
  {}

  /** Step by step: a protected StatefulSet goes, or loses its protection, exactly in one of those applies,
      in an edit that drops the finalizers, or in the last call of a clearing. */
  lemma StepLosesIff(hash: Hasher, s: Proto, ev: Event)
    requires Kept(s) && (ev.ApplyStep? ==> DesiredForWarehouse(ev.want))
    ensures !Kept(Next(hash, s, ev)) <==> Loses(hash, s, ev)
  {
    hide Apply, At, RemoveAt, SetAt, DesiredForWarehouse, AppliesAway;
    if ev.ApplyStep? {
      ApplyLosesIff(hash, ev.want, s.sts.value, ev.w);
    }
    RemoveAtGone(s.sts.value.tree, FINALIZERS);
  }

  /** The StatefulSet has existed, nobody has asked the FE yet, and it is gone or unprotected. */
  predicate LostTooEarly(s: Proto) {
    s.existed && s.drops == 0 && !Kept(s)
  }

  predicate EverLost(hash: Hasher, s: Proto, evs: seq<Event>)
    decreases |evs|
  {
    LostTooEarly(s) || (evs != [] && EverLost(hash, Next(hash, s, evs[0]), evs[1..]))
  }

  /** Some step of the run is, before any DROP attempt, a losing apply or a losing edit. */
  predicate HasLosingStep(hash: Hasher, s: Proto, evs: seq<Event>)
    decreases |evs|
  {
    evs != [] &&
      ((Kept(s) && s.drops == 0 && evs[0].ApplyStep? && Loses(hash, s, evs[0])) ||
       (Kept(s) && s.drops == 0 && evs[0].EditStatefulSet? && Loses(hash, s, evs[0])) ||
       HasLosingStep(hash, Next(hash, s, evs[0]), evs[1..]))
  }

  /** What the remembered fields mean; holds of NOTHING and of every state reached from it. */
  predicate Remembers(s: Proto) {
    (s.sts.Some? ==> s.existed) && (s.drops == 0 ==> s.pc != Unprotecting)
  }

  lemma NextRemembers(hash: Hasher, s: Proto, ev: Event)
    requires Remembers(s) && !LostTooEarly(s) && (ev.ApplyStep? ==> DesiredForWarehouse(ev.want))
    ensures Remembers(Next(hash, s, ev))
    ensures LostTooEarly(Next(hash, s, ev)) <==>
              Kept(s) && s.drops == 0 && (ev.ApplyStep? || ev.EditStatefulSet?) && Loses(hash, s, ev)
  {
    hide ApplyExisting, At, RemoveAt, SetAt, DesiredForWarehouse, AppliesAway, Defaulted;
    if Kept(s) {
      StepLosesIff(hash, s, ev);
    } else if ev.ApplyStep? && s.sts.None? {
      CreateProtects(ev.want, ev.w.fill);
    }
  }

  /** Over any run at all, from a state in which nothing is lost: the StatefulSet vanishes or loses its
      finalizer before the FE has been asked to drop the warehouse exactly if some step is such an apply
      or such an edit. */
  lemma {:induction false} LossIff(hash: Hasher, s: Proto, evs: seq<Event>)
    requires Remembers(s) && !LostTooEarly(s)
    requires forall ev :: ev in evs && ev.ApplyStep? ==> DesiredForWarehouse(ev.want)
    ensures EverLost(hash, s, evs) <==> HasLosingStep(hash, s, evs)
    decreases |evs|
  {
    hide Kept, Next, Loses, DesiredForWarehouse;
    if evs != [] {
      assert evs[0] in evs && forall ev :: ev in evs[1..] ==> ev in evs;
      NextRemembers(hash, s, evs[0]);
      if LostTooEarly(Next(hash, s, evs[0])) {
        assert EverLost(hash, Next(hash, s, evs[0]), evs[1..]);
      } else {
        LossIff(hash, Next(hash, s, evs[0]), evs[1..]);
      }
    }
  }

  // ---- the runs for which the protocol is made ----

  /** Nobody deletes the StatefulSet directly, other actors keep its finalizers, the CR is not created
      twice, and the garbage collector does not come between a reconcile's read of the CR and its apply. */
  predicate Orderly(s: Proto, ev: Event) {
    match ev
    case CreateCR => !s.made
    case CollectGarbage => s.pc != Syncing
    case DeleteStatefulSet => false
    case EditStatefulSet(t) => s.sts.Some? ==> (Protected(t) <==> Protected(s.sts.value.tree))
    case ApplyStep(want, w) => DesiredForWarehouse(want) && (w.between.Some? ==> Protected(w.between.value))
    case _ => true
  }

  predicate OrderlyRun(hash: Hasher, s: Proto, evs: seq<Event>)
    decreases |evs|
  {
    evs == [] || (Orderly(s, evs[0]) && OrderlyRun(hash, Next(hash, s, evs[0]), evs[1..]))
  }

  /** A StatefulSet is being deleted only when the CR is gone for good and no apply is on its way. */
  predicate Safe(s: Proto) {
    && Remembers(s) && !LostTooEarly(s)
    && (s.cr ==> s.made) && (s.existed ==> s.made) && (s.pc == Syncing ==> s.made)
    && (s.sts.Some? && s.sts.value.deleting ==> !s.cr && s.pc != Syncing)
  }

  /** Applying to a StatefulSet that is not being deleted leaves it there, not being deleted, and as
      protected as it was or more. */
  lemma ApplyProtects(hash: Hasher, want: Doc, sts: Option<Stored>, w: Weather)
    requires DesiredForWarehouse(want) && (w.between.Some? ==> Protected(w.between.value))
    requires sts.Some? ==> !sts.value.deleting
    ensures var sts' := Apply(hash, want, true, sts, w).0;
      && (sts.Some? ==> sts'.Some?)
      && (sts'.Some? ==> !sts'.value.deleting && (sts.None? || Protected(sts.value.tree) ==> Protected(sts'.value.tree)))
  {
    hide DesiredForWarehouse, Sent, PatchedTree, At, StatefulSetDeepEqual, SetAt, Defaulted;
    if sts.None? {
      CreateProtects(want, w.fill);
    } else {
      WarehouseIsDesired(want);
      ApplyExistingIs(hash, want, true, sts.value, w);
      if Protected(sts.value.tree) {
        ApplyLosesIff(hash, want, sts.value, w);
      }
    }
  }

  lemma NextIsSafe(hash: Hasher, s: Proto, ev: Event)
    requires Safe(s) && Orderly(s, ev)
    ensures Safe(Next(hash, s, ev))
    ensures !(Kept(s) && s.drops == 0 && (ev.ApplyStep? || ev.EditStatefulSet?) && Loses(hash, s, ev))
  {
    hide Apply, At, RemoveAt, DesiredForWarehouse, Protected;
    NextRemembers(hash, s, ev);
    if ev.ApplyStep? && s.pc == Syncing {
      ApplyProtects(hash, ev.want, s.sts, ev.w);
    }
  }

  lemma {:induction false} OrderlyHasNoLosingStep(hash: Hasher, s: Proto, evs: seq<Event>)
    requires Safe(s) && OrderlyRun(hash, s, evs)
    ensures !HasLosingStep(hash, s, evs)
    ensures forall ev :: ev in evs && ev.ApplyStep? ==> DesiredForWarehouse(ev.want)
    decreases |evs|
  {
    hide Kept, Next, Loses, Safe, DesiredForWarehouse;
    if evs != [] {
      NextIsSafe(hash, s, evs[0]);
      OrderlyHasNoLosingStep(hash, Next(hash, s, evs[0]), evs[1..]);
    }
  }

  /** Over every orderly run, with failures at any call: once stored, the StatefulSet of a warehouse never
      vanishes, or loses its finalizer, before the FE has been asked to drop the warehouse. */
  lemma NotGoneBeforeDrop(hash: Hasher, s: Proto, evs: seq<Event>)
    requires Safe(s) && OrderlyRun(hash, s, evs)
    ensures !EverLost(hash, s, evs)
  {
    OrderlyHasNoLosingStep(hash, s, evs);
    LossIff(hash, s, evs);
  }

  lemma RunThree(hash: Hasher, s: Proto, a: Event, b: Event, c: Event)
    ensures Run(hash, s, [a, b, c]) == Next(hash, Next(hash, Next(hash, s, a), b), c)
  {
    assert [a, b, c][1..] == [b, c] && [b, c][1..] == [c] && [c][1..] == [];
    assert Run(hash, s, [a, b, c]) == Run(hash, Next(hash, s, a), [b, c]);
    assert Run(hash, Next(hash, s, a), [b, c]) == Run(hash, Next(hash, Next(hash, s, a), b), [c]);
    var s2 := Next(hash, Next(hash, s, a), b);
    assert Run(hash, s2, [c]) == Run(hash, Next(hash, s2, c), []);
  }

  lemma RunFour(hash: Hasher, s: Proto, a: Event, b: Event, c: Event, d: Event)
    ensures Run(hash, s, [a, b, c, d]) == Next(hash, Next(hash, Next(hash, Next(hash, s, a), b), c), d)
  {
    assert [a, b, c, d][1..] == [b, c, d];
    RunThree(hash, Next(hash, s, a), b, c, d);
  }

  /** An unhindered clearing asks the FE exactly once, and whatever the answer the StatefulSet goes if it
      was marked and loses its protection if not. */
  lemma ClearingCompletes(hash: Hasher, s: Proto, dropOk: bool)
    requires !s.cr && s.pc == Idle && s.sts.Some?
    ensures var s' := Run(hash, s, [Begin, BuildExecutor(true), TryDrop(dropOk), ClearFinalizers(true)]);
      && s'.drops == s.drops + 1 && s'.pc == Idle
      && (s.sts.value.deleting ==> s'.sts.None?)
      && (!s.sts.value.deleting ==> s'.sts.Some? && !Protected(s'.sts.value.tree))
  {
    hide Run;
    RunFour(hash, s, Begin, BuildExecutor(true), TryDrop(dropOk), ClearFinalizers(true));
    RemoveAtGone(s.sts.value.tree, FINALIZERS);
  }

  // ---- each hypothesis is needed ----

  /** A warehouse whose StatefulSet is stored, protected and not being deleted while the worker rests. */
  predicate Established(s: Proto) {
    s.cr && s.made && s.existed && s.drops == 0 && s.pc == Idle && Kept(s) && !s.sts.value.deleting
  }

  lemma MarkedIsCleared(hash: Hasher, want: Doc, sts: Option<Stored>, w: Weather)
    requires sts.Some? && Protected(sts.value.tree) && w.getOk && w.writeOk
    ensures Marked(sts).Some? && Apply(hash, want, true, Marked(sts), w).0 == None
  {
    RemoveAtGone(sts.value.tree, FINALIZERS);
  }

  predicate LostTheDrop(s: Proto) {
    s.existed && s.sts.None? && s.drops == 0
  }

  /** If the CR is deleted and its StatefulSet marked after a reconcile has read the CR, the apply of that
      very reconcile clears the finalizers and the DROP is never attempted. */
  lemma DeletionDuringReconcileLosesTheDrop(hash: Hasher, s: Proto, want: Doc, w: Weather)
    requires Established(s) && w.getOk && w.writeOk
    ensures LostTheDrop(Run(hash, s, [Begin, DeleteCR, CollectGarbage, ApplyStep(want, w)]))
  {
    hide Apply, Protected, Run;
    MarkedIsCleared(hash, want, s.sts, w);
    RunFour(hash, s, Begin, DeleteCR, CollectGarbage, ApplyStep(want, w));
  }

  /** So does creating the CR again before the deleted one was reconciled. */
  lemma RecreationLosesTheDrop(hash: Hasher, s: Proto, want: Doc, w: Weather)
    requires Established(s) && w.getOk && w.writeOk
    ensures LostTheDrop(Run(hash, s, [DeleteCR, CollectGarbage, CreateCR, Begin, ApplyStep(want, w)]))
  {
    hide Apply, Protected;
    MarkedIsCleared(hash, want, s.sts, w);
    var evs := [DeleteCR, CollectGarbage, CreateCR, Begin, ApplyStep(want, w)];
    assert evs[1..] == [CollectGarbage, CreateCR, Begin, ApplyStep(want, w)];
    RunFour(hash, Next(hash, s, DeleteCR), CollectGarbage, CreateCR, Begin, ApplyStep(want, w));
  }

  /** So does deleting the StatefulSet directly while the CR lives. */
  lemma DirectDeletionLosesTheDrop(hash: Hasher, s: Proto, want: Doc, w: Weather)
    requires Established(s) && w.getOk && w.writeOk
    ensures LostTheDrop(Run(hash, s, [DeleteStatefulSet, Begin, ApplyStep(want, w)]))
  {
    hide Apply, Protected, Run;
    MarkedIsCleared(hash, want, s.sts, w);
    RunThree(hash, s, DeleteStatefulSet, Begin, ApplyStep(want, w));
  }

  /** So does an edit that drops the finalizers before the CR is deleted. */
  lemma UnprotectingEditLosesTheDrop(hash: Hasher, s: Proto, t: Doc)
    requires Established(s) && !Protected(t)
    ensures LostTheDrop(Run(hash, s, [EditStatefulSet(t), DeleteCR, CollectGarbage]))
  {
    hide Run;
    RunThree(hash, s, EditStatefulSet(t), DeleteCR, CollectGarbage);
  }

  /** So does such an edit between the two writes of a patch: the record is written onto what it left. */
  lemma EditBetweenWritesLosesTheDrop(hash: Hasher, s: Proto, want: Doc, w: Weather)
    requires Established(s) && DesiredForWarehouse(want) && Patches(hash, want, true, s.sts.value, w)
    requires w.between.Some? && !Protected(w.between.value)
    ensures LostTheDrop(Run(hash, s, [Begin, ApplyStep(want, w), DeleteCR, CollectGarbage]))
  {
    hide Apply, Protected, Run, DesiredForWarehouse, Patches;
    RunFour(hash, s, Begin, ApplyStep(want, w), DeleteCR, CollectGarbage);
    StepLosesIff(hash, Next(hash, s, Begin), ApplyStep(want, w));
  }

  /** A lost drop stays lost: while the CR is absent, every clearing attempt fails at its first call, which
      wants to read the connection data from the StatefulSet. */
  lemma {:induction false} LostDropsStayLost(hash: Hasher, s: Proto, evs: seq<Event>)
    requires LostTheDrop(s) && !s.cr && s.pc in {Idle, Clearing}
    requires forall ev :: ev in evs ==> ev != CreateCR
    ensures LostTheDrop(Run(hash, s, evs))
    decreases |evs|
  {
    if evs != [] {
      assert evs[0] in evs && forall ev :: ev in evs[1..] ==> ev in evs;
      LostDropsStayLost(hash, Next(hash, s, evs[0]), evs[1..]);
    }
  }

  // ---- ClearWarehouse ----

  /** The three calls of ClearWarehouse with nothing in between. */
  function Cleared(hash: Hasher, s: Proto, executorOk: bool, dropOk: bool, clearOk: bool): Proto {
    Next(hash, Next(hash, Next(hash, s, BuildExecutor(executorOk)), TryDrop(dropOk)), ClearFinalizers(clearOk))
  }

  lemma ClearedIs(hash: Hasher, s: Proto, executorOk: bool, dropOk: bool, clearOk: bool)
    requires s.pc == Clearing
    ensures var s' := Cleared(hash, s, executorOk, dropOk, clearOk);
      if s.sts.None? || !executorOk then s'.sts == s.sts && s'.drops == s.drops
      else s'.drops == s.drops + 1 && s'.sts == Unprotected(s.sts, clearOk)
  {
    hide At, RemoveAt;
  }

  class FrontEnd {
    var statements: seq<string>

    constructor ()
      ensures statements == []
    {
      statements := [];
    }

    method Execute(statement: string, ok: bool) returns (err: bool)
      modifies this
      ensures statements == old(statements) + [statement] && err == !ok
    {
      statements := statements + [statement];
      err := !ok;
    }
  }

  /** A failing DROP is only logged: the finalizers go all the same.  What is dropped is the name that the
      compute nodes of this warehouse are collected under. */
  method ClearWarehouse(fe: FrontEnd, store: StatefulSetStore, ghost hash: Hasher, ghost s: Proto, name: string,
                        executorOk: bool, dropOk: bool, clearOk: bool) returns (err: bool)
    requires s.pc == Clearing && s.sts == store.obj
    modifies fe, store
    ensures store.obj == Cleared(hash, s, executorOk, dropOk, clearOk).sts
    ensures err <==> old(store.obj).None? || !executorOk || !clearOk
    ensures Cleared(hash, s, executorOk, dropOk, clearOk).drops == s.drops + (if old(store.obj).Some? && executorOk then 1 else 0)
    ensures var inFE := WarehouseInFE(OfWarehouse(name));
      && NamedInFE(name, inFE)
      && fe.statements == old(fe.statements) + if old(store.obj).Some? && executorOk then ["DROP WAREHOUSE " + inFE] else []
    ensures if old(store.obj).Some? && executorOk && clearOk
      then
        if old(store.obj).value.deleting then store.obj.None?
        else store.obj.Some? && At(store.obj.value.tree, ["metadata", "finalizers"]).None?
      else store.obj == old(store.obj)
  {
    hide At, RemoveAt, NamedInFE, Next;
    OnlyNameInFE(name, GetWarehouseNameInFE(name));
    ClearedIs(hash, s, executorOk, dropOk, clearOk);
    if store.obj.None? || !executorOk {
      return true;
    }
    var failed := fe.Execute(DropStatement(name), dropOk);
    var sts := store.obj.value;
    RemoveAtGone(sts.tree, FINALIZERS);
    err := store.Update(RemoveAt(sts.tree, FINALIZERS), clearOk);
  }
}
