/** When a reconcile of the whole cluster writes: each step from the fields that it reads. */
module ClusterProgress {
  import opened Options
  import opened Json
  import opened StatefulSets
  import opened DisasterRecovery
  import opened ClusterReconcile
  import opened ClusterSafety

  predicate Wrote(outcome: Outcome) {
    outcome == Created || outcome == Patched || outcome == Unrecorded
  }

  /** The FE lets BE and CN go on. */
  ghost predicate LetsOn(x: Input, gateRead: bool, fe: Option<Stored>) {
    if x.waitForFullRollout then
      && gateRead && fe.Some? && fe.value.status.updateRevision == fe.value.status.currentRevision
      && forall n :: At(fe.value.tree, ["spec", "replicas"]) == Some(Num(n)) ==> fe.value.status.readyReplicas >= n
    else x.endpointsReady
  }

  lemma LetsOnIsOpen(x: Input, part: Part, fe: Option<Stored>)
    ensures GateOpen(x, part, fe) <==> LetsOn(x, part.gateRead, fe)
  {
    hide FeFullyRolledOut, At;
    RolledOutIff(fe);
  }

  lemma NeverActiveWithoutConfig(spec: Option<DrSpec>, status: Option<DrStatus>)
    ensures !Active(spec, status, NO_CONFIG)
  {}

  /** The FE step ends well exactly if everything it needs is there, the recovery has no objection, and the
      apply neither failed nor was refused nor lost its record. */
  lemma FrontEndSucceedsIff(hash: Hasher, st: State, x: Input)
    ensures !SyncFe(hash, st, x).2 <==>
      && x.fe.valid && x.fe.config.Some? && x.fe.prepared && x.fe.servicesOk && !FeRequest(st.status, x, x.fe.config.value).2
      && Apply(hash, FeRequest(st.status, x, x.fe.config.value).1, Active(x.spec, st.status, x.fe.config.value), st.fe, x.fe.w).1
           in {Created, Cleared, Unchanged, Patched}
  {
    hide Apply, Active, FeRequest;
    if x.fe.config.Some? {
      var config := x.fe.config.value;
      ActiveIs(x.spec, st.status, config);
      ErrorOrNot(Apply(hash, FeRequest(st.status, x, config).1, Active(x.spec, st.status, config), st.fe, x.fe.w).1);
    }
  }

  lemma ErrorOrNot(outcome: Outcome)
    ensures IsError(outcome) <==> outcome !in {Created, Cleared, Unchanged, Patched}
  {}

  /** BE gets as far as its apply. */
  ghost predicate BackendGoesOn(hash: Hasher, st: State, x: Input) {
    var (after, _, failed) := SyncFe(hash, st, x);
    && !failed && x.be.base.Some? && x.be.valid && x.be.prepared && LetsOn(x, x.be.gateRead, after.fe)
    && (x.be.config.Some? ==> !Active(x.spec, after.status, x.be.config.value))
  }

  lemma BackendStep(hash: Hasher, st: State, x: Input)
    requires x.be.base.Some?
    ensures var (after, writes, failed) := SyncBe(hash, st, x);
      var on := x.be.valid && x.be.prepared && LetsOn(x, x.be.gateRead, st.fe) && (x.be.config.Some? ==> !Active(x.spec, st.status, x.be.config.value));
      var (be, outcome) := Apply(hash, x.be.base.value, true, st.be, x.be.w);
      && after == (if on then st.(be := be) else st)
      && (writes != [] <==> on && Wrote(outcome))
  {
    hide Apply, Active, LetsOn, GateOpen;
    LetsOnIsOpen(x, x.be, st.fe);
    NeverActiveWithoutConfig(x.spec, st.status);
    ActiveIs(x.spec, st.status, if x.be.config.Some? then x.be.config.value else NO_CONFIG);
  }

  lemma ComputeNodeStep(hash: Hasher, st: State, x: Input)
    requires x.cn.base.Some?
    ensures var (after, writes, failed) := SyncCn(hash, st, x);
      var on := x.cn.valid && x.cn.prepared && LetsOn(x, x.cn.gateRead, st.fe) && x.cn.config.Some? && !Active(x.spec, st.status, x.cn.config.value);
      var (cn, outcome) := Apply(hash, x.cn.base.value, true, st.cn, x.cn.w);
      && after == (if on then st.(cn := cn) else st)
      && (writes != [] <==> on && Wrote(outcome))
  {
    hide Apply, Active, LetsOn, GateOpen;
    LetsOnIsOpen(x, x.cn, st.fe);
    if x.cn.config.Some? {
      ActiveIs(x.spec, st.status, x.cn.config.value);
    }
  }

  /** A BE StatefulSet is created or patched by a reconcile exactly if the FE step ended well, the BE spec is
      there, valid and prepared, the FE as then stored lets it on, recovery is not seen, and the apply
      writes; and then the stored BE is what that apply makes of it. */
  lemma BackendWrittenIff(hash: Hasher, st: State, x: Input)
    requires x.present && x.be.base.Some?
    ensures var (st', writes) := Reconcile(hash, st, x);
      var (be, outcome) := Apply(hash, x.be.base.value, true, st.be, x.be.w);
      && ((exists w :: w in writes && w.component == BackEnd) <==> BackendGoesOn(hash, st, x) && Wrote(outcome))
      && st'.be == (if BackendGoesOn(hash, st, x) then be else st.be)
  {
    hide Apply, Active, LetsOn, SyncFe, SyncBe, SyncCn;
    var (st1, w1, err1) := SyncFe(hash, st, x);
    var (st2, w2, err2) := SyncBe(hash, st1, x);
    var (st3, w3, err3) := SyncCn(hash, st2, x);
    FeStepKeepsOthers(hash, st, x);
    BackendStep(hash, st1, x);
    BeWrites(hash, st1, x);
    CnWrites(hash, st2, x);
    if !err1 && w2 != [] {
      assert w2[0] in w2 && w2[0].component == BackEnd;
      assert w2[0] in Reconcile(hash, st, x).1;
    }
  }

  /** The same for CN, after the BE step ended well too; a missing FE config stops it. */
  lemma ComputeNodesWrittenIff(hash: Hasher, st: State, x: Input)
    requires x.present && x.cn.base.Some?
    ensures var (st', writes) := Reconcile(hash, st, x);
      var (st1, _, err1) := SyncFe(hash, st, x);
      var on := !err1 && !SyncBe(hash, st1, x).2 && x.cn.valid && x.cn.prepared && LetsOn(x, x.cn.gateRead, st1.fe)
                && x.cn.config.Some? && !Active(x.spec, st1.status, x.cn.config.value);
      var (cn, outcome) := Apply(hash, x.cn.base.value, true, st.cn, x.cn.w);
      && ((exists w :: w in writes && w.component == ComputeNode) <==> on && Wrote(outcome))
      && st'.cn == (if on then cn else st.cn)
  {
    hide Apply, Active, LetsOn, SyncFe, SyncBe, SyncCn;
    var (st1, w1, err1) := SyncFe(hash, st, x);
    var (st2, w2, err2) := SyncBe(hash, st1, x);
    var (st3, w3, err3) := SyncCn(hash, st2, x);
    FeStepKeepsOthers(hash, st, x);
    BeWrites(hash, st1, x);
    ComputeNodeStep(hash, st2, x);
    CnWrites(hash, st2, x);
    if !err1 && !err2 && w3 != [] {
      assert w3[0] in w3 && w3[0].component == ComputeNode;
      assert w3[0] in Reconcile(hash, st, x).1;
    }
  }

  /** What the BE step fails on: a spec that is invalid or cannot be prepared, an apply that failed, was
      refused or lost its record, a service; and never on a closed gate or on recovery. */
  lemma BackendFailsIff(hash: Hasher, st: State, x: Input)
    ensures SyncBe(hash, st, x).2 <==>
      if x.be.base.None? then !x.be.cleared
      else
        || !x.be.valid
        || (&& LetsOn(x, x.be.gateRead, st.fe) && (x.be.config.Some? ==> !Active(x.spec, st.status, x.be.config.value))
            && (!x.be.prepared || !x.be.servicesOk
                || Apply(hash, x.be.base.value, true, st.be, x.be.w).1 in {Failed, Refused, Unrecorded}))
  {
    hide Apply, Active, LetsOn, GateOpen;
    LetsOnIsOpen(x, x.be, st.fe);
    NeverActiveWithoutConfig(x.spec, st.status);
    ActiveIs(x.spec, st.status, if x.be.config.Some? then x.be.config.value else NO_CONFIG);
  }

  /** The same for the CN step, which a missing FE config fails before recovery is looked at; clearing a
      removed CN never fails it. */
  lemma ComputeNodesFailIff(hash: Hasher, st: State, x: Input)
    ensures SyncCn(hash, st, x).2 <==>
      && x.cn.base.Some? && LetsOn(x, x.cn.gateRead, st.fe)
      && (x.cn.config.None?
          || (!Active(x.spec, st.status, x.cn.config.value)
              && (!x.cn.valid || !x.cn.prepared || !x.cn.servicesOk
                  || Apply(hash, x.cn.base.value, true, st.cn, x.cn.w).1 in {Failed, Refused, Unrecorded})))
  {
    hide Apply, Active, LetsOn, GateOpen;
    LetsOnIsOpen(x, x.cn, st.fe);
    if x.cn.config.Some? {
      ActiveIs(x.spec, st.status, x.cn.config.value);
    }
  }

  /** When the user takes the BE or CN spec away, the StatefulSet goes, at once or as soon as its finalizers
      do. */
  lemma RemovedComponentsGo(hash: Hasher, st: State, x: Input)
    requires x.present && !SyncFe(hash, st, x).2
    requires x.be.base.None? && x.be.cleared && x.cn.base.None? && x.cn.cleared
    ensures var st' := Reconcile(hash, st, x).0; Gone(st.be, st'.be) && Gone(st.cn, st'.cn)
  {
    hide Apply, SyncFe;
    FeStepKeepsOthers(hash, st, x);
  }

  predicate Gone(before: Option<Stored>, after: Option<Stored>) {
    if before.Some? && At(before.value.tree, ["metadata", "finalizers"]).Some? &&
       At(before.value.tree, ["metadata", "finalizers"]).value.Obj? && At(before.value.tree, ["metadata", "finalizers"]).value.fields != map[]
    then after == Some(before.value.(deleting := true))
    else after == None
  }
}
