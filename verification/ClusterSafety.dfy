/** What reconciles of the whole cluster keep: the FE-first gate, the freeze during disaster recovery and
    the replica guard; and that they come to rest. */
module ClusterSafety {
  import opened Options
  import opened Json
  import opened StatefulSets
  import opened ApplyEffects
  import ApplyRuns
  import opened ApplyCache
  import opened ApplyRefinement
  import opened DisasterRecovery
  import opened ClusterReconcile

  // ---- the status ----

  /** What the disaster recovery machine sees of a reconcile. */
  function SightOf(x: Input): Sight {
    Sight(x.spec, if x.fe.valid && x.fe.prepared then x.fe.config else None, x.mounts, x.pods, x.now, x.statusStored && x.present)
  }

  /** The stored status moves by the disaster recovery machine alone, whatever else fails. */
  lemma StatusFollows(hash: Hasher, st: State, x: Input)
    ensures Reconcile(hash, st, x).0.status == AfterReconcile(st.status, SightOf(x))
  {
    hide Apply, SyncFe, SyncBe, SyncCn, AfterFe, FeFullyRolledOut;
    FeStatus(hash, st, x);
    BeWrites(hash, SyncFe(hash, st, x).0, x);
    CnWrites(hash, SyncBe(hash, SyncFe(hash, st, x).0, x).0, x);
  }

  lemma FeStatus(hash: Hasher, st: State, x: Input)
    ensures SyncFe(hash, st, x).0.status == AfterFe(st.status, SightOf(x))
  {
    hide Apply, SnapshotMounted, FeRestored, RewriteStatefulSet, Active;
  }

  // ---- FE first ----

  /** A failing FE step ends the reconcile before BE and CN. */
  lemma FailingFeStopsAll(hash: Hasher, st: State, x: Input)
    requires SyncFe(hash, st, x).2
    ensures var (st', writes) := Reconcile(hash, st, x);
      && st'.be == st.be && st'.cn == st.cn
      && forall w :: w in writes ==> w.component == FrontEnd
  {
    hide Apply;
  }

  lemma BeWrites(hash: Hasher, st: State, x: Input)
    ensures var (st', writes, _) := SyncBe(hash, st, x);
      && st'.fe == st.fe && st'.cn == st.cn && st'.status == st.status
      && forall w :: w in writes ==> w.component == BackEnd && w.feThen == st.fe && GateOpen(x, x.be, st.fe)
  {
    hide Apply, FeFullyRolledOut;
  }

  lemma CnWrites(hash: Hasher, st: State, x: Input)
    ensures var (st', writes, _) := SyncCn(hash, st, x);
      && st'.fe == st.fe && st'.be == st.be && st'.status == st.status
      && forall w :: w in writes ==> w.component == ComputeNode && w.feThen == st.fe && GateOpen(x, x.cn, st.fe)
  {
    hide Apply, FeFullyRolledOut;
  }

  /** Every create or patch of BE or CN comes after the FE step succeeded, with the FE StatefulSet of
      that step still stored; with WaitForFullRollout that object reports a finished rollout. */
  lemma WritesAreGated(hash: Hasher, st: State, x: Input, w: Write)
    requires w in Reconcile(hash, st, x).1 && w.component != FrontEnd
    ensures var (fe, _, err) := SyncFe(hash, st, x); !err && w.feThen == fe.fe == Reconcile(hash, st, x).0.fe
    ensures x.waitForFullRollout ==>
      && FeFullyRolledOut(w.feThen)
      && w.feThen.Some? && w.feThen.value.status.updateRevision == w.feThen.value.status.currentRevision
      && forall n :: At(w.feThen.value.tree, ["spec", "replicas"]) == Some(Num(n)) ==> w.feThen.value.status.readyReplicas >= n
    ensures !x.waitForFullRollout ==> x.endpointsReady
  {
    hide Apply, SyncBe, SyncCn, FeFullyRolledOut, At, Replicas;
    var (st1, _, err1) := SyncFe(hash, st, x);
    var (st2, _, _) := SyncBe(hash, st1, x);
    BeWrites(hash, st1, x);
    CnWrites(hash, st2, x);
    if x.waitForFullRollout {
      RolledOutIff(w.feThen);
    }
  }

  /** The rollout gate in the fields that it reads: a stored FE, as many ready pods as replicas, and one
      revision. */
  lemma RolledOutIff(fe: Option<Stored>)
    ensures FeFullyRolledOut(fe) <==>
      && fe.Some? && fe.value.status.updateRevision == fe.value.status.currentRevision
      && forall n :: At(fe.value.tree, ["spec", "replicas"]) == Some(Num(n)) ==> fe.value.status.readyReplicas >= n
  {
    hide At;
  }

  /** A patch that changes the spec, but not the replicas, of an FE that is rolled out and observed. */
  predicate StartsUnseenRollout(hash: Hasher, want: Doc, enable: bool, s: Stored, w: Weather) {
    && Desired(want) && !s.deleting && Patches(hash, want, enable, s, w) && w.between.None? && w.recordOk
    && FeFullyRolledOut(Some(s)) && s.status.observedGeneration == s.generation
    && Replicas(want).Some? && Replicas(want) == Replicas(s.tree)
    && At(PatchedTree(hash, want, s, w.fill), SPEC) != At(s.tree, SPEC)
  }

  /** The gate looks at a status that can predate the spec: right after such a patch it is open although
      nobody has observed the spec. */
  lemma GateMissesTheRolloutJustStarted(hash: Hasher, want: Doc, enable: bool, s: Stored, w: Weather)
    requires StartsUnseenRollout(hash, want, enable, s, w)
    ensures var fe := Apply(hash, want, enable, Some(s), w).0;
      FeFullyRolledOut(fe) && fe.value.status.observedGeneration < fe.value.generation
  {
    hide At, SetAt, PatchedTree, Sent, Desired, LeafOn, Apply;
    ApplyExistingIs(hash, want, enable, s, w);
    var e, t := Sent(hash, want, s.tree), PatchedTree(hash, want, s, w.fill);
    SentFacts(hash, want, s.tree);
    LeafEnds(e, REPLICAS);
    PatchedAt(hash, want, s, w.fill, REPLICAS);
    LastApart(REPLICAS);
    SetAtApart(t, LAST, Text(e), REPLICAS);
    LastApart(SPEC);
    SetAtApart(t, LAST, Text(e), SPEC);
  }

  lemma RolledOutExists(fe: Option<Stored>)
    requires FeFullyRolledOut(fe)
    ensures fe.Some?
  {}

  /** A reconcile that starts such a rollout and finds no BE StatefulSet creates one at once, past the
      gate, although the FE pods do not run the spec just stored. */
  lemma BackendPassesTheStaleGate(hash: Hasher, st: State, x: Input) returns (w: Write)
    requires x.present && x.waitForFullRollout && x.fe.valid && x.fe.prepared && x.fe.servicesOk
    requires x.fe.config.Some? && x.be.config == x.fe.config && !Active(x.spec, st.status, x.fe.config.value)
    requires x.be.base.Some? && x.be.valid && x.be.gateRead && x.be.prepared
    requires st.be.None? && x.be.w.getOk && x.be.w.writeOk
    requires st.fe.Some? && StartsUnseenRollout(hash, x.fe.base, false, st.fe.value, x.fe.w)
    ensures w in Reconcile(hash, st, x).1 && w.component == BackEnd && w.outcome == Created
    ensures w.feThen.Some? && w.feThen.value.status.observedGeneration < w.feThen.value.generation
  {
    hide StartsUnseenRollout, Active, FeFullyRolledOut, Apply, SyncCn;
    ActiveIs(x.spec, st.status, x.fe.config.value);
    GateMissesTheRolloutJustStarted(hash, x.fe.base, false, st.fe.value, x.fe.w);
    PatchSucceeds(hash, x.fe.base, false, st.fe.value, x.fe.w);
    var fe := Apply(hash, x.fe.base, false, st.fe, x.fe.w).0;
    RolledOutExists(fe);
    w := Write(BackEnd, Created, fe);
    var st1 := st.(fe := fe);
    var w1 := Log(FrontEnd, Patched, st.fe);
    assert SyncFe(hash, st, x) == (st1, w1, false);
    CreatesBackend(hash, st1, x);
    assert w in w1 + [w];
  }

  lemma CreatesBackend(hash: Hasher, st: State, x: Input)
    requires x.be.base.Some? && x.be.valid && x.be.prepared && GateOpen(x, x.be, st.fe)
    requires x.be.config.Some? && !Active(x.spec, st.status, x.be.config.value)
    requires st.be.None? && x.be.w.getOk && x.be.w.writeOk
    ensures SyncBe(hash, st, x).1 == [Write(BackEnd, Created, st.fe)]
  {
    hide FeFullyRolledOut, ApplyExisting, SetAt;
  }

  lemma PatchSucceeds(hash: Hasher, want: Doc, enable: bool, s: Stored, w: Weather)
    requires StartsUnseenRollout(hash, want, enable, s, w)
    ensures Apply(hash, want, enable, Some(s), w).1 == Patched
  {
    hide At, PatchedTree, Sent, Desired, Apply, FeFullyRolledOut;
    ApplyExistingIs(hash, want, enable, s, w);
  }

  lemma RewrittenKeepsStatus(hash: Hasher, want: Doc, enable: bool, s: Stored, w: Weather)
    requires Desired(want)
    ensures var obj := Apply(hash, want, enable, Some(s), w).0;
      obj.Some? ==> obj.value.status == s.status && obj.value.generation >= s.generation && obj.value.deleting == s.deleting
  {
    hide At, SetAt, PatchedTree, Sent, Desired;
    ApplyExistingIs(hash, want, enable, s, w);
  }

  /** The apply will not patch, or patch without changing the stored spec. */
  predicate KeepsSpec(hash: Hasher, want: Doc, enable: bool, s: Stored, w: Weather) {
    Patches(hash, want, enable, s, w) ==>
      && At(PatchedTree(hash, want, s, w.fill), SPEC) == At(s.tree, SPEC)
      && (w.between.Some? ==> At(w.between.value, SPEC) == At(s.tree, SPEC))
  }

  lemma GenerationStaysIff(hash: Hasher, want: Doc, enable: bool, s: Stored, w: Weather)
    requires Desired(want)
    ensures var obj := Apply(hash, want, enable, Some(s), w).0;
      obj.Some? ==> (obj.value.generation == s.generation <==> KeepsSpec(hash, want, enable, s, w))
  {
    hide At, SetAt, PatchedTree, Sent, Desired, Patches, Apply, HasFinalizers;
    ApplyExistingIs(hash, want, enable, s, w);
    if Patches(hash, want, enable, s, w) {
      PatchReadsRecord(hash, want, enable, s, w);
      var t := ApplyRuns.HalfWay(hash, want, s, w);
      LastApart(SPEC);
      SetAtApart(t, LAST, Text(Sent(hash, want, s.tree)), SPEC);
    }
  }

  lemma PatchReadsRecord(hash: Hasher, want: Doc, enable: bool, s: Stored, w: Weather)
    requires Patches(hash, want, enable, s, w)
    ensures LastApplied(s.tree).Some?
  {}

  /** When the gate does tell the truth: the FE status behind a gated write is that of the stored spec
      exactly if it was so before the reconcile and the apply of the FE step was one that keeps the spec. */
  lemma GateIsCurrentIff(hash: Hasher, st: State, x: Input, w: Write)
    requires w in Reconcile(hash, st, x).1 && w.component != FrontEnd && x.waitForFullRollout
    requires st.fe.Some? ==> st.fe.value.status.observedGeneration <= st.fe.value.generation
    requires x.fe.config.Some? ==> Desired(FeRequest(st.status, x, x.fe.config.value).1)
    ensures w.feThen.Some? && x.fe.config.Some?
    ensures w.feThen.value.status.observedGeneration == w.feThen.value.generation <==>
              && st.fe.Some? && st.fe.value.status.observedGeneration == st.fe.value.generation
              && KeepsSpec(hash, FeRequest(st.status, x, x.fe.config.value).1, Active(x.spec, st.status, x.fe.config.value),
                           st.fe.value, x.fe.w)
  {
    hide FeRequest, FeFullyRolledOut, Desired, SyncAll, ApplyExisting, SetAt, KeepsSpec, At;
    WritesAreGated(hash, st, x, w);
    RolledOutExists(w.feThen);
    var (status, sts, err) := FeRequest(st.status, x, x.fe.config.value);
    if st.fe.Some? {
      RewrittenKeepsStatus(hash, sts, Active(x.spec, st.status, x.fe.config.value), st.fe.value, x.fe.w);
      GenerationStaysIff(hash, sts, Active(x.spec, st.status, x.fe.config.value), st.fe.value, x.fe.w);
    }
  }

  // ---- coming to rest ----

  /** No apply of `want` changes the object any more, whatever fails. */
  ghost predicate AtRest(hash: Hasher, want: Doc, obj: Option<Stored>) {
    forall enable, w :: Apply(hash, want, enable, obj, w).0 == obj && !IsWrite(Apply(hash, want, enable, obj, w).1)
  }

  lemma EqualRests(hash: Hasher, want: Doc, s: Stored)
    requires Desired(want) && !s.deleting && StatefulSetDeepEqual(hash, Aligned(want, s.tree), s.tree).1
    ensures AtRest(hash, want, Some(s))
  {
    hide Desired, StatefulSetDeepEqual, Sent, PatchedTree, Apply;
    forall enable, w
      ensures Apply(hash, want, enable, Some(s), w).0 == Some(s) && !IsWrite(Apply(hash, want, enable, Some(s), w).1)
    {
      ApplyExistingIs(hash, want, enable, s, w);
    }
  }

  /** An apply that succeeds on a live object leaves it at rest. */
  lemma AppliedRests(hash: Hasher, want: Doc, enable: bool, obj: Option<Stored>, w: Weather)
    requires Desired(want) && Live(want, obj) && w.between.None?
    requires !IsError(Apply(hash, want, enable, obj, w).1)
    ensures AtRest(hash, want, Apply(hash, want, enable, obj, w).0)
  {
    hide Desired, StatefulSetDeepEqual, Sent, PatchedTree, At, AtRest, Settled;
    var (obj', outcome) := Apply(hash, want, enable, obj, w);
    ApplyExistingIs(hash, want, enable, obj.value, w);
    if outcome == Patched {
      PatchSettles(hash, want, obj, ApplyRuns.Sync(want, enable, w));
      SettledIsEqual(hash, want, obj');
      EqualRests(hash, want, obj'.value);
    } else {
      UnchangedIsEqual(hash, want, enable, obj.value, w);
      EqualRests(hash, want, obj.value);
    }
  }

  lemma SettledIsEqual(hash: Hasher, want: Doc, obj: Option<Stored>)
    requires Desired(want) && Settled(hash, want, obj)
    ensures !obj.value.deleting && StatefulSetDeepEqual(hash, Aligned(want, obj.value.tree), obj.value.tree).1
  {
    AlignedEquality(hash, want, obj.value.tree);
  }

  lemma UnchangedIsEqual(hash: Hasher, want: Doc, enable: bool, s: Stored, w: Weather)
    requires Desired(want) && Apply(hash, want, enable, Some(s), w).1 == Unchanged
    ensures StatefulSetDeepEqual(hash, Aligned(want, s.tree), s.tree).1
  {
    hide Desired, StatefulSetDeepEqual, Sent, At, Aligned;
    if !StatefulSetDeepEqual(hash, Aligned(want, s.tree), s.tree).1 && LastApplied(s.tree).Some? {
      EmptyPatchUnreachable(hash, want, s);
    }
  }

  /** The desired object of a BE or CN part, if there is one, is there alive and applied without error. */
  predicate Thrives(hash: Hasher, want: Option<Doc>, obj: Option<Stored>, w: Weather) {
    want.Some? ==>
      Desired(want.value) && Live(want.value, obj) && w.between.None? && !IsError(Apply(hash, want.value, true, obj, w).1)
  }

  /** What a reconcile that nothing stands in the way of makes of a BE or CN StatefulSet. */
  function AppliedOrCleared(hash: Hasher, want: Option<Doc>, obj: Option<Stored>, w: Weather): Option<Stored> {
    if want.Some? then Apply(hash, want.value, true, obj, w).0 else Deleted(obj)
  }

  /** A reconcile that nothing stands in the way of, outside of recovery, with the StatefulSets of all
      components that the cluster has. */
  predicate Healthy(hash: Hasher, st: State, x: Input) {
    && x.present && x.fe.valid && x.fe.prepared && x.fe.servicesOk
    && x.fe.config.Some? && !Active(x.spec, st.status, x.fe.config.value)
    && Desired(x.fe.base) && Live(x.fe.base, st.fe) && x.fe.w.between.None?
    && (if x.be.base.Some? then x.be.valid && x.be.prepared && x.be.servicesOk && x.be.config == x.fe.config else x.be.cleared)
    && (if x.cn.base.Some? then x.cn.valid && x.cn.prepared && x.cn.config == x.fe.config else x.cn.cleared)
    && Thrives(hash, x.be.base, st.be, x.be.w) && Thrives(hash, x.cn.base, st.cn, x.cn.w)
    && var (fe, outcome) := Apply(hash, x.fe.base, false, st.fe, x.fe.w);
      && !IsError(outcome) && (x.be.base.Some? ==> GateOpen(x, x.be, fe)) && (x.cn.base.Some? ==> GateOpen(x, x.cn, fe))
  }

  lemma HealthyReconcileAppliesAll(hash: Hasher, st: State, x: Input)
    requires Healthy(hash, st, x)
    ensures Reconcile(hash, st, x).0 ==
      State(Apply(hash, x.fe.base, false, st.fe, x.fe.w).0, AppliedOrCleared(hash, x.be.base, st.be, x.be.w),
            AppliedOrCleared(hash, x.cn.base, st.cn, x.cn.w), st.status)
  {
    hide Apply, Active, GateOpen, Desired, Live, Deleted;
    ActiveIs(x.spec, st.status, x.fe.config.value);
  }

  /** The same objects are asked for, and recovery is not due; anything may fail. */
  predicate AsksTheSame(x: Input, y: Input, status: Option<DrStatus>) {
    && y.fe.base == x.fe.base && y.be.base == x.be.base && y.cn.base == x.cn.base
    && (y.fe.config.Some? ==> !Active(y.spec, status, y.fe.config.value))
  }

  function Reconciles(hash: Hasher, st: State, ys: seq<Input>): (State, seq<Write>)
    decreases |ys|
  {
    if ys == [] then (st, [])
    else
      var (st1, w1) := Reconcile(hash, st, ys[0]);
      var (st2, w2) := Reconciles(hash, st1, ys[1..]);
      (st2, w1 + w2)
  }

  /** A component without a desired object is at rest when deleting it again changes nothing. */
  ghost predicate PartAtRest(hash: Hasher, want: Option<Doc>, obj: Option<Stored>) {
    if want.Some? then AtRest(hash, want.value, obj) else Deleted(obj) == obj
  }

  ghost predicate AllAtRest(hash: Hasher, st: State, x: Input) {
    AtRest(hash, x.fe.base, st.fe) && PartAtRest(hash, x.be.base, st.be) && PartAtRest(hash, x.cn.base, st.cn)
  }

  lemma PartRests(hash: Hasher, want: Option<Doc>, obj: Option<Stored>, w: Weather)
    requires Thrives(hash, want, obj, w)
    ensures PartAtRest(hash, want, AppliedOrCleared(hash, want, obj, w))
  {
    hide Desired, AtRest, Live, Apply, At;
    if want.Some? {
      AppliedRests(hash, want.value, true, obj, w);
    }
  }

  lemma RestingReconcile(hash: Hasher, st: State, x: Input, y: Input)
    requires AllAtRest(hash, st, x) && AsksTheSame(x, y, st.status)
    ensures Reconcile(hash, st, y) == (st, [])
  {
    hide Apply, Active, FeFullyRolledOut, Deleted;
    if y.fe.config.Some? {
      ActiveIs(y.spec, st.status, y.fe.config.value);
    }
    var (st1, w1, err1) := SyncFe(hash, st, y);
    assert (st1, w1) == (st, []);
    var (st2, w2, err2) := SyncBe(hash, st, y);
    assert (st2, w2) == (st, []);
    var (st3, w3, err3) := SyncCn(hash, st, y);
    assert (st3, w3) == (st, []);
    assert w1 + w2 == [] && w1 + w2 + w3 == [];
  }

  lemma {:induction false} RestingReconciles(hash: Hasher, st: State, x: Input, ys: seq<Input>)
    requires AllAtRest(hash, st, x) && forall y :: y in ys ==> AsksTheSame(x, y, st.status)
    ensures Reconciles(hash, st, ys) == (st, [])
    decreases |ys|
  {
    hide AllAtRest, AsksTheSame, Reconcile;
    if ys != [] {
      assert ys[0] in ys && forall y :: y in ys[1..] ==> y in ys;
      RestingReconcile(hash, st, x, ys[0]);
      RestingReconciles(hash, st, x, ys[1..]);
      assert Reconciles(hash, st, ys).1 == [] + [];
    }
  }

  /** One healthy reconcile brings a cluster to rest: any number of later ones that ask for the same
      objects, whatever fails in them, write nothing and change nothing. */
  lemma HealthyReconcileSettles(hash: Hasher, st: State, x: Input, ys: seq<Input>)
    requires Healthy(hash, st, x)
    requires forall y :: y in ys ==> AsksTheSame(x, y, st.status)
    ensures var st' := Reconcile(hash, st, x).0;
      Reconciles(hash, st', ys) == (st', [])
  {
    hide Reconcile, Apply, Active, GateOpen, Desired, Live, AtRest, AsksTheSame, Thrives, PartAtRest, AppliedOrCleared;
    HealthyReconcileAppliesAll(hash, st, x);
    AppliedRests(hash, x.fe.base, false, st.fe, x.fe.w);
    PartRests(hash, x.be.base, st.be, x.be.w);
    PartRests(hash, x.cn.base, st.cn, x.cn.w);
    RestingReconciles(hash, Reconcile(hash, st, x).0, x, ys);
  }

  // ---- the freeze ----

  /** BE, if there is one, reads this FE config; so does CN, or fails to read any. */
  predicate ReadsConfig(x: Input, config: FeConfig) {
    && (x.be.base.Some? ==> x.be.config == Some(config))
    && (x.cn.base.Some? && x.cn.config.Some? ==> x.cn.config == Some(config))
  }

  /** While disaster recovery is active after the FE step, the reconcile creates and patches no BE or CN
      StatefulSet and leaves those of the components that the user asks for alone. */
  lemma DisasterRecoveryFreezes(hash: Hasher, st: State, x: Input, config: FeConfig)
    requires Active(x.spec, SyncFe(hash, st, x).0.status, config) && ReadsConfig(x, config)
    ensures var (st', writes) := Reconcile(hash, st, x);
      && (x.be.base.Some? ==> st'.be == st.be) && (x.cn.base.Some? ==> st'.cn == st.cn)
      && forall w :: w in writes ==> w.component == FrontEnd
  {
    hide Apply, Active, FeFullyRolledOut;
    FeStepKeepsOthers(hash, st, x);
    ActiveIs(x.spec, SyncFe(hash, st, x).0.status, config);
  }

  lemma FeStepKeepsOthers(hash: Hasher, st: State, x: Input)
    ensures var (st', writes, _) := SyncFe(hash, st, x);
      st'.be == st.be && st'.cn == st.cn && forall w :: w in writes ==> w.component == FrontEnd
  {
    hide Apply;
  }

  lemma ActiveIs(spec: Option<DrSpec>, status: Option<DrStatus>, config: FeConfig)
    ensures Active(spec, status, config) == ShouldEnterDisasterRecoveryMode(spec, status, config).0
  {}

  /** The BE step swallows a failed read of the FE config.  During disaster recovery, with the gate open
      and nothing else in the way, a missing BE StatefulSet is created exactly when that read failed. */
  lemma BeFreezeNeedsTheConfig(hash: Hasher, st: State, x: Input)
    requires x.be.config.Some? ==> Active(x.spec, st.status, x.be.config.value)
    requires x.be.base.Some? && x.be.valid && x.be.prepared && GateOpen(x, x.be, st.fe)
    requires st.be.None? && x.be.w.getOk && x.be.w.writeOk
    ensures SyncBe(hash, st, x).0.be.Some? <==> x.be.config.None?
  {
    assert !IsRunInSharedDataMode(NO_CONFIG);
  }

  // ---- replicas ----

  lemma GuardedReplicas(hash: Hasher, want: Doc, s: Stored, w: Weather)
    requires Desired(want) && w.between.None?
    requires Replicas(s.tree).Some? && Replicas(s.tree).value > 1
    ensures var obj := Apply(hash, want, false, Some(s), w).0;
      obj.Some? ==> Replicas(obj.value.tree).Some? && Replicas(obj.value.tree).value != 1
  {
    hide At, SetAt, PatchedTree, Sent, Desired, LeafOn;
    ApplyExistingIs(hash, want, false, s, w);
    if Patches(hash, want, false, s, w) {
      var e := Sent(hash, want, s.tree);
      ReplicasTyped(want);
      SentFacts(hash, want, s.tree);
      LeafEnds(e, REPLICAS);
      PatchedAt(hash, want, s, w.fill, REPLICAS);
      LastApart(REPLICAS);
      SetAtApart(PatchedTree(hash, want, s, w.fill), LAST, Text(e), REPLICAS);
    }
  }

  /** One reconcile takes the stored FE replicas from more than one to one only in disaster recovery. */
  lemma ScaleTo1OnlyInDisasterRecovery(hash: Hasher, st: State, x: Input)
    requires Desired(x.fe.base) && x.fe.w.between.None?
    requires st.fe.Some? && Replicas(st.fe.value.tree).Some? && Replicas(st.fe.value.tree).value > 1
    requires var fe := Reconcile(hash, st, x).0.fe; fe.Some? && Replicas(fe.value.tree) == Some(1)
    ensures x.fe.config.Some? && Active(x.spec, st.status, x.fe.config.value)
  {
    hide Apply, Replicas, Desired, FeFullyRolledOut, Enter, SyncBe, SyncCn, Active;
    BeWrites(hash, SyncFe(hash, st, x).0, x);
    CnWrites(hash, SyncBe(hash, SyncFe(hash, st, x).0, x).0, x);
    GuardedReplicas(hash, x.fe.base, st.fe.value, x.fe.w);
  }

  // ---- runs ----

  /** The state in which reconcile `n` starts: the StatefulSets are whatever the operator and everybody
      else made of them, the status is what the previous reconcile left stored. */
  function StateAt(hash: Hasher, xs: seq<Input>, found: seq<State>, n: nat): State
    requires n < |xs| && |found| == |xs|
  {
    found[n].(status := if n == 0 then None else Reconcile(hash, StateAt(hash, xs, found, n - 1), xs[n - 1]).0.status)
  }

  function Sights(xs: seq<Input>): (r: seq<Sight>)
    ensures |r| == |xs|
  {
    seq(|xs|, i requires 0 <= i < |xs| => SightOf(xs[i]))
  }

  lemma {:induction false} StatusOfRun(hash: Hasher, xs: seq<Input>, found: seq<State>, n: nat)
    requires n < |xs| && |found| == |xs|
    ensures StateAt(hash, xs, found, n).status == StatusAfter(Sights(xs), n)
  {
    if n > 0 {
      StatusOfRun(hash, xs, found, n - 1);
      StatusFollows(hash, StateAt(hash, xs, found, n - 1), xs[n - 1]);
    }
  }

  /** In any run, while the user asks for recovery of a generation, BE and CN are created or patched only
      after an earlier reconcile that saw the snapshot mounted stored doing for that generation, and a
      later one, at the latest this one, saw the FE pods restored. */
  lemma NoBackendWriteBeforeRecovery(hash: Hasher, xs: seq<Input>, found: seq<State>, n: nat, generation: int,
                                     config: FeConfig, w: Write) returns (i: nat, j: nat)
    requires n < |xs| && |found| == |xs|
    requires var x := xs[n];
      && x.spec == Some(DrSpec(true, generation)) && RunsSharedData(config)
      && (x.fe.config.Some? ==> x.fe.config == Some(config)) && ReadsConfig(x, config)
    requires var status := StateAt(hash, xs, found, n).status;
      status.Some? ==> status.value.observedGeneration <= generation
    requires w in Reconcile(hash, StateAt(hash, xs, found, n), xs[n]).1 && w.component != FrontEnd
    ensures i < j <= n && Started(Sights(xs), i, generation) && FeRestored(Sights(xs)[j].pods, generation)
  {
    SharedDataIsContained(config);
    hide StateAt, Started, FeRestored, IsRunInSharedDataMode, RunsSharedData;
    var st, x := StateAt(hash, xs, found, n), xs[n];
    WritesAreGated(hash, st, x, w);
    FeStepReadsConfig(hash, st, x);
    NotActiveAtWrite(hash, st, x, config, w);
    StatusOfRun(hash, xs, found, n);
    StatusNeverGoesBack(Sights(xs), n, n);
    FeStepFinishes(hash, st, x, config);
    if Is(st.status, Done, generation) {
      i, j := DoneWasEarned(Sights(xs), n, generation);
      FinishedSawPods(Sights(xs), j, generation);
    } else {
      i := DoingWasStarted(Sights(xs), n, generation);
      j := n;
    }
  }

  lemma NotActiveAtWrite(hash: Hasher, st: State, x: Input, config: FeConfig, w: Write)
    requires w in Reconcile(hash, st, x).1 && w.component != FrontEnd
    requires ReadsConfig(x, config)
    ensures !Active(x.spec, SyncFe(hash, st, x).0.status, config)
  {
    hide Apply, Active, SyncFe, Reconcile;
    if Active(x.spec, SyncFe(hash, st, x).0.status, config) {
      DisasterRecoveryFreezes(hash, st, x, config);
    }
  }

  lemma FeStepReadsConfig(hash: Hasher, st: State, x: Input)
    requires !SyncFe(hash, st, x).2
    ensures x.fe.config.Some?
  {}

  lemma FinishedSawPods(xs: seq<Sight>, j: nat, generation: int)
    requires j < |xs| && Finished(xs, j, generation)
    ensures FeRestored(xs[j].pods, generation)
  {}

  /** An FE step that ends with recovery no longer active found it done, or took it from doing to done
      with the pods restored. */
  lemma FeStepFinishes(hash: Hasher, st: State, x: Input, config: FeConfig)
    requires x.spec.Some? && x.spec.value.enabled && x.fe.config == Some(config) && IsRunInSharedDataMode(config)
    requires st.status.Some? ==> st.status.value.observedGeneration <= x.spec.value.generation
    requires Known(st.status) && !SyncFe(hash, st, x).2
    requires !Active(x.spec, SyncFe(hash, st, x).0.status, config)
    ensures Is(st.status, Done, x.spec.value.generation) ||
            (Is(st.status, Doing, x.spec.value.generation) && FeRestored(x.pods, x.spec.value.generation))
  {
    hide Apply, FeRestored, SnapshotMounted, RewriteStatefulSet, IsRunInSharedDataMode;
  }
}
