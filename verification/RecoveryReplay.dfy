/** Disaster recovery meets the apply engine: lost status writes are harmless, and leaving recovery
    restores what the user asked for. */
module RecoveryReplay {
  import opened Options
  import opened Json
  import opened ThreeWayMerge
  import opened StatefulSets
  import opened ApplyEffects
  import opened ApplyRuns
  import opened ApplyCache
  import opened ApplyRefinement
  import opened DisasterRecovery
  import opened ClusterReconcile
  import opened ClusterSafety
  import opened Orphans
  import Strings

  lemma {:induction false} RemoveAtClean(j: Json, p: Path)
    requires p != [] && CleanObj(j)
    ensures CleanObj(RemoveAt(j, p))
    decreases |p|
  {
    if p[0] in j.fields && |p| > 1 {
      if j.fields[p[0]].Obj? {
        RemoveAtClean(j.fields[p[0]], p[1..]);
      }
    }
  }

  predicate InTemplate(p: Path) {
    |p| > 2 && p[0] == "spec" && p[1] == "template"
  }

  lemma SetInTemplate(j: Doc, p: Path, v: Json)
    requires Desired(j) && InTemplate(p) && Clean(v)
    ensures var r := SetAt(j, p, v); Desired(r) && At(r, REPLICAS) == At(j, REPLICAS)
  {
    var r := SetAt(j, p, v);
    SetAtClean(j, p, v);
    assert r.fields == j.fields["spec" := SetAt(j.fields["spec"], p[1..], v)];
    assert r.fields["spec"].fields == j.fields["spec"].fields["template" := r.fields["spec"].fields["template"]];
    assert Apart(p[1..], REPLICAS[1..]);
    SetAtApart(j, p, v, REPLICAS);
  }

  lemma RemoveInTemplate(j: Doc, p: Path)
    requires Desired(j) && InTemplate(p)
    ensures var r := RemoveAt(j, p); Desired(r) && At(r, REPLICAS) == At(j, REPLICAS)
  {
    RemoveAtClean(j, p);
    assert Apart(p[1..], REPLICAS[1..]);
    RemoveAtApart(j, p, REPLICAS);
  }

  lemma ReplicasOne(j: Doc)
    requires Desired(j)
    ensures var r := SetAt(j, REPLICAS, Num(1)); Desired(r) && At(r, REPLICAS) == Some(Num(1))
  {
    SetAtClean(j, REPLICAS, Num(1));
    SetAtSame(j, REPLICAS, Num(1));
    var r := SetAt(j, REPLICAS, Num(1));
    assert REPLICAS[1..] == ["replicas"];
    assert r.fields == j.fields["spec" := SetAt(j.fields["spec"], ["replicas"], Num(1))];
  }

  lemma FePaths()
    ensures InTemplate(STARTUP) && InTemplate(LIVENESS) && InTemplate(READINESS)
    ensures InTemplate(RESTORE_GENERATION) && InTemplate(RESTORE_SNAPSHOT)
  {}

  /** The rewritten object is again one that an apply accepts, with one replica. */
  lemma RewriteDesired(base: Doc, generation: int, port: int)
    requires Desired(base)
    ensures var r := RewriteStatefulSet(base, generation, port); Desired(r) && At(r, REPLICAS) == Some(Num(1))
  {
    hide At, SetAt, RemoveAt, InTemplate, Desired;
    FePaths();
    ReplicasOne(base);
    var a := RemoveAt(SetAt(base, REPLICAS, Num(1)), STARTUP);
    RemoveInTemplate(SetAt(base, REPLICAS, Num(1)), STARTUP);
    var b := RemoveAt(a, LIVENESS);
    RemoveInTemplate(a, LIVENESS);
    var c := SetAt(b, READINESS, PortReadyProbe(port));
    SetInTemplate(b, READINESS, PortReadyProbe(port));
    var d := SetAt(c, RESTORE_GENERATION, Atom(Strings.FormatInt(generation)));
    SetInTemplate(c, RESTORE_GENERATION, Atom(Strings.FormatInt(generation)));
    SetInTemplate(d, RESTORE_SNAPSHOT, Atom("true"));
  }

  lemma {:induction false} ApartAfter(prefix: Path, p: Path, q: Path)
    requires Apart(p, q)
    ensures Apart(prefix + p, prefix + q)
    decreases |prefix|
  {
    if prefix != [] {
      assert (prefix + p)[1..] == prefix[1..] + p && (prefix + q)[1..] == prefix[1..] + q;
      ApartAfter(prefix[1..], p, q);
    } else {
      assert prefix + p == p && prefix + q == q;
    }
  }

  lemma FePathsApart()
    ensures Apart(RESTORE_SNAPSHOT, RESTORE_GENERATION) && Apart(READINESS, LIVENESS) && Apart(READINESS, STARTUP) && Apart(LIVENESS, STARTUP)
    ensures forall p, q :: p in {RESTORE_SNAPSHOT, RESTORE_GENERATION} && q in {READINESS, LIVENESS, STARTUP} ==> Apart(p, q)
  {
    var snapshot, generation := ["env", "RESTORE_CLUSTER_SNAPSHOT", "value"], ["env", "RESTORE_CLUSTER_GENERATION", "value"];
    assert Apart(snapshot[1..], generation[1..]);
    ApartAfter(FE_CONTAINER, snapshot, generation);
    ApartAfter(FE_CONTAINER, ["readinessProbe"], ["livenessProbe"]);
    ApartAfter(FE_CONTAINER, ["readinessProbe"], ["startupProbe"]);
    ApartAfter(FE_CONTAINER, ["livenessProbe"], ["startupProbe"]);
    forall p, q | p in {snapshot, generation} && q in {["readinessProbe"], ["livenessProbe"], ["startupProbe"]}
      ensures Apart(FE_CONTAINER + p, FE_CONTAINER + q)
    {
      ApartAfter(FE_CONTAINER, p, q);
    }
    assert FE_CONTAINER + snapshot == RESTORE_SNAPSHOT && FE_CONTAINER + generation == RESTORE_GENERATION;
  }

  /** The rewritten FE has one replica, no startup and liveness probe, a plain port check for readiness
      and the two restore variables. */
  lemma RewriteIs(base: Doc, generation: int, port: int)
    ensures var r := RewriteStatefulSet(base, generation, port);
      && At(r, REPLICAS) == Some(Num(1))
      && At(r, STARTUP) == None && At(r, LIVENESS) == None && At(r, READINESS) == Some(PortReadyProbe(port))
      && At(r, RESTORE_GENERATION) == Some(Atom(Strings.FormatInt(generation)))
      && At(r, RESTORE_SNAPSHOT) == Some(Atom("true"))
  {
    hide At, SetAt, RemoveAt, InTemplate, PortReadyProbe;
    FePaths();
    FePathsApart();
    TemplateApartReplicas();
    var v := Atom(Strings.FormatInt(generation));
    var s := SetAt(base, REPLICAS, Num(1));
    var a := RemoveAt(s, STARTUP);
    var b := RemoveAt(a, LIVENESS);
    var c := SetAt(b, READINESS, PortReadyProbe(port));
    var d := SetAt(c, RESTORE_GENERATION, v);
    SetAtSame(base, REPLICAS, Num(1));
    RemoveAtGone(s, STARTUP);
    RemoveAtGone(a, LIVENESS);
    SetAtSame(b, READINESS, PortReadyProbe(port));
    SetAtSame(c, RESTORE_GENERATION, v);
    SetAtSame(d, RESTORE_SNAPSHOT, Atom("true"));
    RemoveAtApart(s, STARTUP, REPLICAS);
    RemoveAtApart(a, LIVENESS, REPLICAS);
    RemoveAtApart(a, LIVENESS, STARTUP);
    SetAtApart(b, READINESS, PortReadyProbe(port), REPLICAS);
    SetAtApart(b, READINESS, PortReadyProbe(port), STARTUP);
    SetAtApart(b, READINESS, PortReadyProbe(port), LIVENESS);
    SetTwiceApart(c, v, REPLICAS);
    SetTwiceApart(c, v, STARTUP);
    SetTwiceApart(c, v, LIVENESS);
    SetTwiceApart(c, v, READINESS);
    SetAtApart(d, RESTORE_SNAPSHOT, Atom("true"), RESTORE_GENERATION);
  }

  /** The same at the paths of the FE container themselves, with the probe spelled out. */
  lemma RewriteInWords(base: Doc, generation: int, port: int)
    ensures var r := RewriteStatefulSet(base, generation, port);
      && At(r, ["spec", "replicas"]) == Some(Num(1))
      && At(r, ["spec", "template", "spec", "containers", "fe", "startupProbe"]) == None
      && At(r, ["spec", "template", "spec", "containers", "fe", "livenessProbe"]) == None
      && At(r, ["spec", "template", "spec", "containers", "fe", "readinessProbe"]) ==
           Some(Obj(map["tcpSocket" := Obj(map["port" := Num(port)]), "initialDelaySeconds" := Num(5), "timeoutSeconds" := Num(1),
                        "periodSeconds" := Num(10), "successThreshold" := Num(1), "failureThreshold" := Num(3)]))
      && At(r, ["spec", "template", "spec", "containers", "fe", "env", "RESTORE_CLUSTER_GENERATION", "value"]) ==
           Some(Atom(Strings.FormatInt(generation)))
      && At(r, ["spec", "template", "spec", "containers", "fe", "env", "RESTORE_CLUSTER_SNAPSHOT", "value"]) == Some(Atom("true"))
  {
    hide At, RewriteStatefulSet, Strings.FormatInt;
    RewriteIs(base, generation, port);
    FePathNames();
  }

  lemma FePathNames()
    ensures STARTUP == ["spec", "template", "spec", "containers", "fe", "startupProbe"]
    ensures LIVENESS == ["spec", "template", "spec", "containers", "fe", "livenessProbe"]
    ensures READINESS == ["spec", "template", "spec", "containers", "fe", "readinessProbe"]
    ensures RESTORE_GENERATION == ["spec", "template", "spec", "containers", "fe", "env", "RESTORE_CLUSTER_GENERATION", "value"]
    ensures RESTORE_SNAPSHOT == ["spec", "template", "spec", "containers", "fe", "env", "RESTORE_CLUSTER_SNAPSHOT", "value"]
  {}

  lemma SetTwiceApart(c: Doc, v: Json, p: Path)
    requires Apart(RESTORE_GENERATION, p) && Apart(RESTORE_SNAPSHOT, p)
    ensures At(SetAt(SetAt(c, RESTORE_GENERATION, v), RESTORE_SNAPSHOT, Atom("true")), p) == At(c, p)
  {
    SetAtApart(c, RESTORE_GENERATION, v, p);
    SetAtApart(SetAt(c, RESTORE_GENERATION, v), RESTORE_SNAPSHOT, Atom("true"), p);
  }

  lemma TemplateApartReplicas()
    ensures forall p :: p in {STARTUP, LIVENESS, READINESS, RESTORE_GENERATION, RESTORE_SNAPSHOT} ==> Apart(p, REPLICAS)
  {
    forall p | p in {STARTUP, LIVENESS, READINESS, RESTORE_GENERATION, RESTORE_SNAPSHOT} ensures Apart(p, REPLICAS) {
      FePaths();
      assert Apart(p[1..], REPLICAS[1..]);
    }
  }

  /** Nothing else of the object changes. */
  lemma RewriteKeeps(base: Doc, generation: int, port: int, p: Path)
    requires Apart(REPLICAS, p) && Apart(STARTUP, p) && Apart(LIVENESS, p) && Apart(READINESS, p)
    requires Apart(RESTORE_GENERATION, p) && Apart(RESTORE_SNAPSHOT, p)
    ensures At(RewriteStatefulSet(base, generation, port), p) == At(base, p)
  {
    hide At, SetAt, RemoveAt, Apart;
    var s := SetAt(base, REPLICAS, Num(1));
    var b := RemoveAt(RemoveAt(s, STARTUP), LIVENESS);
    SetAtApart(base, REPLICAS, Num(1), p);
    RemoveAtApart(s, STARTUP, p);
    RemoveAtApart(RemoveAt(s, STARTUP), LIVENESS, p);
    SetAtApart(b, READINESS, PortReadyProbe(port), p);
    SetTwiceApart(SetAt(b, READINESS, PortReadyProbe(port)), Atom(Strings.FormatInt(generation)), p);
  }

  // ---- lost status writes ----

  /** From the first to the last reconcile of a recovery, whatever status is stored, the FE step asks for
      one and the same object. */
  lemma RecoveryObjectIsOne(status: Option<DrStatus>, x: Input, config: FeConfig)
    requires Active(x.spec, status, config) && Known(status) && !FeRequest(status, x, config).2
    ensures FeRequest(status, x, config).1 == RewriteStatefulSet(x.fe.base, x.spec.value.generation, config.queryPort)
  {}

  /** Once the FE step has patched the rewritten object, a later FE step of the same recovery leaves the
      StatefulSet exactly as it is, be its status the new one or, after a lost write, any older one. */
  lemma ReplayWritesNothing(hash: Hasher, st: State, x: Input, status: Option<DrStatus>, y: Input)
    requires x.fe.config.Some? && Desired(x.fe.base) && x.fe.w.between.None?
    requires st.fe.Some? && Live(x.fe.base, st.fe)
    requires var config := x.fe.config.value;
      && Known(st.status) && Active(x.spec, st.status, config) && !FeRequest(st.status, x, config).2
      && x.fe.valid && x.fe.prepared
      && Apply(hash, FeRequest(st.status, x, config).1, true, st.fe, x.fe.w).1 in {Patched, Unrecorded}
      && Known(status) && Active(y.spec, status, config)
      && y.spec == x.spec && y.fe.config == x.fe.config && y.fe.base == x.fe.base
    ensures var st1 := SyncFe(hash, st, x).0;
      SyncFe(hash, st1.(status := status), y).0.fe == st1.fe
  {
    hide Apply, Desired, RewriteStatefulSet, At, Active, FeRequest, Live, Settled, Known;
    var config := x.fe.config.value;
    ActiveSpec(x.spec, st.status, config);
    var want := RewriteStatefulSet(x.fe.base, x.spec.value.generation, config.queryPort);
    RecoveryObjectIsOne(st.status, x, config);
    RewriteLives(x.fe.base, x.spec.value.generation, config.queryPort, st.fe);
    PatchSettles(hash, want, st.fe, Sync(want, true, x.fe.w));
    var st1 := SyncFe(hash, st, x).0;
    if y.fe.valid && y.fe.prepared && !FeRequest(status, y, config).2 {
      RecoveryObjectIsOne(status, y, config);
      SettledStays(hash, want, st1.fe, true, y.fe.w);
    }
  }

  lemma ActiveSpec(spec: Option<DrSpec>, status: Option<DrStatus>, config: FeConfig)
    requires Active(spec, status, config)
    ensures spec.Some?
  {}

  lemma RewriteMetadata(base: Doc, generation: int, port: int)
    requires Desired(base)
    ensures At(RewriteStatefulSet(base, generation, port), NAMESPACE) == At(base, NAMESPACE)
  {
    assert STARTUP[0] == LIVENESS[0] == READINESS[0] == RESTORE_GENERATION[0] == RESTORE_SNAPSHOT[0] == REPLICAS[0] == "spec";
    RewriteKeeps(base, generation, port, NAMESPACE);
  }

  lemma RewriteLives(base: Doc, generation: int, port: int, obj: Option<Stored>)
    requires Desired(base)
    ensures Desired(RewriteStatefulSet(base, generation, port))
    ensures Live(RewriteStatefulSet(base, generation, port), obj) <==> Live(base, obj)
  {
    hide Desired;
    RewriteDesired(base, generation, port);
    RewriteMetadata(base, generation, port);
  }

  /** An FE step of one recovery: any stored status that still has it active, the same spec, object and
      config; reading the config, or anything else, may fail. */
  datatype FeStep = FeStep(status: Option<DrStatus>, x: Input)

  predicate OfRecovery(base: Doc, spec: DrSpec, config: FeConfig, step: FeStep) {
    && Known(step.status) && step.x.spec == Some(spec) && step.x.fe.base == base && step.x.fe.w.between.None?
    && (step.x.fe.config.Some? ==> step.x.fe.config.value == config && Active(step.x.spec, step.status, config))
  }

  /** The FE StatefulSet after some FE steps, and how many writes they made. */
  function FeAfter(hash: Hasher, fe: Option<Stored>, steps: seq<FeStep>): (Option<Stored>, nat)
    decreases |steps|
  {
    if steps == [] then (fe, 0)
    else
      var (st, writes, _) := SyncFe(hash, State(fe, None, None, steps[0].status), steps[0].x);
      var (fe', n) := FeAfter(hash, st.fe, steps[1..]);
      (fe', |writes| + n)
  }

  function RecoveryObject(base: Doc, spec: DrSpec, config: FeConfig): Doc {
    RewriteStatefulSet(base, spec.generation, config.queryPort)
  }

  /** Such a step applies the one rewritten object, or does nothing to the StatefulSet. */
  lemma RecoveryStepIs(hash: Hasher, base: Doc, spec: DrSpec, config: FeConfig, fe: Option<Stored>, step: FeStep)
    requires OfRecovery(base, spec, config, step)
    ensures var (st, writes, _) := SyncFe(hash, State(fe, None, None, step.status), step.x);
      var (fe', outcome) := Apply(hash, RecoveryObject(base, spec, config), true, fe, step.x.fe.w);
      || (st.fe == fe && writes == [])
      || (st.fe == fe' && writes == Log(FrontEnd, outcome, fe))
  {
    hide Apply, RewriteStatefulSet, Active, FeRequest, Known;
    if step.x.fe.config.Some? {
      ActiveIs(step.x.spec, step.status, config);
      if !FeRequest(step.status, step.x, config).2 {
        RecoveryObjectIsOne(step.status, step.x, config);
      }
    }
  }

  /** A whole recovery, through any number of reconciles, failures and lost status writes, writes the FE
      StatefulSet at most once if it was there, and otherwise creates it and patches it at most once. */
  lemma {:induction false} RecoveryWritesAtMostTwice(hash: Hasher, base: Doc, spec: DrSpec, config: FeConfig, fe: Option<Stored>, steps: seq<FeStep>)
    requires Desired(base) && (fe.Some? ==> Live(base, fe))
    requires forall step :: step in steps ==> OfRecovery(base, spec, config, step)
    ensures FeAfter(hash, fe, steps).1 <=
      if fe.None? then 2 else if Settled(hash, RecoveryObject(base, spec, config), fe) then 0 else 1
    decreases |steps|
  {
    hide SyncFe, Apply, OfRecovery, Desired, Live, Settled, RecoveryObject;
    if steps != [] {
      assert steps[0] in steps && forall step :: step in steps[1..] ==> step in steps;
      RecoveryStepLives(hash, base, spec, config, fe, steps[0]);
      var (st, writes, _) := SyncFe(hash, State(fe, None, None, steps[0].status), steps[0].x);
      RecoveryWritesAtMostTwice(hash, base, spec, config, st.fe, steps[1..]);
    }
  }

  lemma RecoveryStepLives(hash: Hasher, base: Doc, spec: DrSpec, config: FeConfig, fe: Option<Stored>, step: FeStep)
    requires Desired(base) && (fe.Some? ==> Live(base, fe)) && OfRecovery(base, spec, config, step)
    ensures var (st, writes, _) := SyncFe(hash, State(fe, None, None, step.status), step.x);
      var want := RecoveryObject(base, spec, config);
      && (st.fe.Some? ==> Live(base, st.fe))
      && |writes| <= 1
      && (fe.Some? ==> st.fe.Some? && (Settled(hash, want, fe) ==> writes == []))
      && (fe.Some? && writes != [] ==> Settled(hash, want, st.fe))
      && (writes == [] ==> st.fe == fe)
      && (fe.None? && writes != [] ==> st.fe.Some?)
  {
    hide SyncFe, Apply, Desired, Live, Settled, RewriteStatefulSet, Active;
    var want, w := RecoveryObject(base, spec, config), step.x.fe.w;
    var (fe', outcome) := Apply(hash, want, true, fe, w);
    RewriteLives(base, spec.generation, config.queryPort, fe);
    RewriteLives(base, spec.generation, config.queryPort, fe');
    RecoveryStepIs(hash, base, spec, config, fe, step);
    StepLives(hash, want, fe, Sync(want, true, w));
    NoWriteNoChange(hash, want, fe, w);
  }

  lemma NoWriteNoChange(hash: Hasher, want: Doc, obj: Option<Stored>, w: Weather)
    requires Desired(want) && (obj.Some? ==> Live(want, obj))
    ensures var (obj', outcome) := Apply(hash, want, true, obj, w);
      && (!IsWrite(outcome) ==> obj' == obj)
      && (obj.None? && IsWrite(outcome) ==> outcome == Created && obj'.Some?)
  {
    hide Desired, StatefulSetDeepEqual, Sent, PatchedTree, At;
    if obj.Some? {
      ApplyExistingIs(hash, want, true, obj.value, w);
    }
  }

  // ---- leaving recovery ----

  lemma SentTemplate(hash: Hasher, want: Doc, actual: Json, p: Path)
    requires Desired(want) && InTemplate(p)
    ensures var e := Sent(hash, want, actual);
      At(e, p) == At(want, p) && (!LeafOn(want, p) ==> !LeafOn(e, p))
  {
    assert Apart(SERVICE[1..], p[1..]) && Apart(POLICY[1..], p[1..]);
    AlignedFacts(want, actual, p);
    var a := Aligned(want, actual);
    SetAtApart(a, HASH, Atom(StatefulSetDeepEqual(hash, a, actual).0), p);
    if !LeafOn(want, p) {
      SetAtNotLeaf(a, HASH, Atom(StatefulSetDeepEqual(hash, a, actual).0), p);
    }
  }

  lemma {:induction false} AtConcat(j: Json, p: Path, q: Path)
    ensures At(j, p + q) == match At(j, p) case None => None case Some(v) => At(v, q)
    decreases |p|
  {
    if p != [] {
      assert (p + q)[1..] == p[1..] + q;
      if p[0] in Fields(j) {
        AtConcat(j.fields[p[0]], p[1..], q);
      }
    } else {
      assert p + q == q;
    }
  }

  const TEMPLATE: Path := ["spec", "template"]

  /** The StatefulSet as a recorded write of the rewritten object `r` leaves it: the record has the pod
      template of `r`, and the hash on it, if any, is one of `r`. */
  ghost predicate Recorded(hash: Hasher, r: Doc, s: Stored) {
    && !s.deleting && Replicas(s.tree) == Some(1) && LastApplied(s.tree).Some?
    && (forall p :: InTemplate(p) ==> At(LastApplied(s.tree).value, p) == At(r, p))
    && At(LastApplied(s.tree).value, REPLICAS) == Some(Num(1))
    && if At(s.tree, HASH).Some? then exists service :: AtomAt(s.tree, HASH) == hash(HashedFieldsOf(r).(serviceName := service))
       else At(s.tree, RESTORE_GENERATION) == At(r, RESTORE_GENERATION)
  }

  lemma PatchRecords(hash: Hasher, r: Doc, enable: bool, s: Stored, w: Weather)
    requires Desired(r) && At(r, REPLICAS) == Some(Num(1)) && !s.deleting && w.between.None?
    requires Apply(hash, r, enable, Some(s), w).1 == Patched
    ensures var obj := Apply(hash, r, enable, Some(s), w).0; obj.Some? && Recorded(hash, r, obj.value)
  {
    hide Apply, SetAt, At, Sent, PatchedTree, Desired, LeafOn, Aligned, StatefulSetDeepEqual, InTemplate;
    ApplyExistingIs(hash, r, enable, s, w);
    var e, t := Sent(hash, r, s.tree), PatchedTree(hash, r, s, w.fill);
    var t' := SetAt(t, LAST, Text(e));
    RecordedAs(t, e);
    forall p | InTemplate(p) ensures At(e, p) == At(r, p) {
      SentTemplate(hash, r, s.tree, p);
    }
    SentFacts(hash, r, s.tree);
    PatchedKeys(hash, r, s, w.fill);
    RecordKeepsKeys(t, e);
    AlignedHash(r, s.tree);
    assert AtomAt(t', HASH) == hash(HashedFieldsOf(r).(serviceName := AtomAt(s.tree, SERVICE)));
    LeafEnds(e, REPLICAS);
    PatchedAt(hash, r, s, w.fill, REPLICAS);
    LastApart(REPLICAS);
    SetAtApart(t, LAST, Text(e), REPLICAS);
  }

  lemma CreateRecords(hash: Hasher, r: Doc, fill: Json)
    requires Desired(r) && At(r, REPLICAS) == Some(Num(1)) && At(fill, HASH).None?
    requires At(r, RESTORE_GENERATION).Some? && At(r, RESTORE_GENERATION).value.Atom?
    ensures Recorded(hash, r, Stored0(Defaulted(SetAt(r, LAST, Text(r)), fill)))
  {
    hide At, SetAt, Covers, Defaulted, LeafOn, InTemplate, Desired;
    var t0 := SetAt(r, LAST, Text(r));
    var t := Defaulted(t0, fill);
    DesiredFacts(r, LAST);
    DesiredFacts(r, HASH);
    DesiredIsObj(r);
    SelfCovers(r);
    SetAtCovers(r, LAST, Text(r), r);
    DefaultedCovers(t0, fill, r);
    CoversAtom(t, r, REPLICAS);
    CoversAtom(t, r, RESTORE_GENERATION);
    SetAtSame(r, LAST, Text(r));
    LeafEnds(t0, LAST);
    DefaultedAt(t0, fill, LAST);
    RecordKeepsKeys(r, r);
    DefaultedAt(t0, fill, HASH);
    LastApart(HASH);
    SetAtNotLeaf(r, LAST, Text(r), HASH);
  }

  lemma DesiredIsObj(r: Doc)
    requires Desired(r)
    ensures CleanObj(r)
  {}

  /** The user's object never has the hash that a recorded recovery left. */
  lemma RecoveryChangesTheHash(hash: Hasher, base: Doc, r: Doc, s: Stored)
    requires Injective(hash) && Desired(base) && Recorded(hash, r, s)
    requires At(base, RESTORE_GENERATION) != At(r, RESTORE_GENERATION)
    ensures !StatefulSetDeepEqual(hash, Aligned(base, s.tree), s.tree).1
  {
    hide At, SetAt, Aligned, InTemplate, Desired, StatefulSetDeepEqual;
    AlignedEquality(hash, base, s.tree);
    AlignedHash(base, s.tree);
    assert HASHED[5] == TEMPLATE;
    var a := HashedFieldsOf(base).(serviceName := AtomAt(s.tree, SERVICE));
    assert a.parts[5] == At(base, TEMPLATE);
    var rest := RESTORE_GENERATION[2..];
    assert RESTORE_GENERATION == TEMPLATE + rest;
    AtConcat(base, TEMPLATE, rest);
    if At(s.tree, HASH).Some? {
      var service :| AtomAt(s.tree, HASH) == hash(HashedFieldsOf(r).(serviceName := service));
      AtConcat(r, TEMPLATE, rest);
      assert HashedFieldsOf(r).(serviceName := service).parts[5] == At(r, TEMPLATE);
    } else {
      AtConcat(s.tree, TEMPLATE, rest);
      assert HashedFieldsOf(s.tree).parts[5] == At(s.tree, TEMPLATE);
    }
  }

  /** What the user asks for is stored, and what only the recovery had set is gone or the server's. */
  predicate RestoredAt(base: Json, r: Json, t: Json, fill: Json, p: Path) {
    && (IsLeaf(base, p) ==> At(t, p) == At(base, p))
    && (At(r, p).Some? && At(base, p).None? ==> At(t, p).None? || At(t, p) == At(fill, p))
  }

  /** The first ordinary apply after a recovery that was recorded: it is neither refused by the guard
      against scaling to one nor skipped, it stores every value the user asks for in the pod template, it
      removes from there everything that only the recovery had set, and it restores the replicas. */
  lemma LeavingRecoveryRestores(hash: Hasher, base: Doc, r: Doc, s: Stored, w: Weather, p: Path)
    requires Injective(hash) && Desired(base) && Desired(r) && Recorded(hash, r, s)
    requires At(base, RESTORE_GENERATION) != At(r, RESTORE_GENERATION)
    requires w.getOk && w.writeOk && w.between.None? && w.recordOk && InTemplate(p)
    ensures var (obj, outcome) := Apply(hash, base, false, Some(s), w);
      && outcome == Patched && obj.Some?
      && RestoredAt(base, r, obj.value.tree, w.fill, p)
      && if At(base, REPLICAS).Some? then At(obj.value.tree, REPLICAS) == At(base, REPLICAS)
         else At(obj.value.tree, REPLICAS).None? || At(obj.value.tree, REPLICAS) == At(w.fill, REPLICAS)
  {
    hide Apply, SetAt, At, Sent, PatchedTree, Desired, LeafOn;
    hide Aligned, StatefulSetDeepEqual, InTemplate;
    RecoveryChangesTheHash(hash, base, r, s);
    ApplyExistingIs(hash, base, false, s, w);
    var t := PatchedTree(hash, base, s, w.fill);
    KeptInTemplate(t, Sent(hash, base, s.tree), p);
    LastApart(REPLICAS);
    SetAtApart(t, LAST, Text(Sent(hash, base, s.tree)), REPLICAS);
    RestoredTemplate(hash, base, r, s, w.fill, p);
    RestoredReplicas(hash, base, s, w.fill);
  }

  lemma KeptInTemplate(t: Json, doc: Json, p: Path)
    requires InTemplate(p)
    ensures At(SetAt(t, LAST, Text(doc)), p) == At(t, p)
  {
    SetAtApart(t, LAST, Text(doc), p);
  }

  lemma RestoredTemplate(hash: Hasher, base: Doc, r: Doc, s: Stored, fill: Json, p: Path)
    requires Desired(base) && LastApplied(s.tree).Some? && InTemplate(p)
    requires At(LastApplied(s.tree).value, p) == At(r, p)
    ensures RestoredAt(base, r, PatchedTree(hash, base, s, fill), fill, p)
  {
    hide SetAt, At, Sent, PatchedTree, Desired, LeafOn, InTemplate;
    var e := Sent(hash, base, s.tree);
    SentTemplate(hash, base, s.tree, p);
    SentFacts(hash, base, s.tree);
    PatchedAt(hash, base, s, fill, p);
    if IsLeaf(base, p) {
      LeafEnds(e, p);
    } else if At(r, p).Some? && At(base, p).None? && !LeafOn(e, p) {
      DroppedIff(LastApplied(s.tree).value, e, p);
    }
  }

  lemma RestoredReplicas(hash: Hasher, base: Doc, s: Stored, fill: Json)
    requires Desired(base) && LastApplied(s.tree).Some? && At(LastApplied(s.tree).value, REPLICAS) == Some(Num(1))
    ensures var t := PatchedTree(hash, base, s, fill);
      if At(base, REPLICAS).Some? then At(t, REPLICAS) == At(base, REPLICAS)
      else At(t, REPLICAS).None? || At(t, REPLICAS) == At(fill, REPLICAS)
  {
    hide SetAt, At, Sent, PatchedTree, Desired, LeafOn;
    var e := Sent(hash, base, s.tree);
    ReplicasTyped(base);
    SentFacts(hash, base, s.tree);
    PatchedAt(hash, base, s, fill, REPLICAS);
    SectionKept(hash, base, s.tree, SPEC);
    assert REPLICAS[..1] == SPEC;
    if At(e, REPLICAS).Some? {
      LeafEnds(e, REPLICAS);
    } else {
      NotLeafNext(e, REPLICAS);
      DroppedIff(LastApplied(s.tree).value, e, REPLICAS);
    }
  }

  /** The step does not die between its two writes, and the server does not invent a hash. */
  predicate Completes(step: FeStep) {
    step.x.fe.w.recordOk && At(step.x.fe.w.fill, HASH).None?
  }

  lemma {:induction false} RecoveryIsRecorded(hash: Hasher, base: Doc, spec: DrSpec, config: FeConfig, fe: Option<Stored>, steps: seq<FeStep>)
    requires Desired(base) && (fe.Some? ==> Live(base, fe))
    requires forall step :: step in steps ==> OfRecovery(base, spec, config, step) && Completes(step)
    ensures var (fe', writes) := FeAfter(hash, fe, steps);
      && (writes == 0 ==> fe' == fe)
      && (writes > 0 || (fe.Some? && Recorded(hash, RecoveryObject(base, spec, config), fe.value)) ==>
            fe'.Some? && Recorded(hash, RecoveryObject(base, spec, config), fe'.value))
    decreases |steps|
  {
    hide SyncFe, Apply, OfRecovery, Desired, Live, Settled, RecoveryObject, Recorded, Completes;
    if steps != [] {
      assert steps[0] in steps && forall step :: step in steps[1..] ==> step in steps;
      RecoveryStepLives(hash, base, spec, config, fe, steps[0]);
      RecoveryStepRecords(hash, base, spec, config, fe, steps[0]);
      var (st, writes, _) := SyncFe(hash, State(fe, None, None, steps[0].status), steps[0].x);
      RecoveryIsRecorded(hash, base, spec, config, st.fe, steps[1..]);
    }
  }

  lemma RecoveryStepRecords(hash: Hasher, base: Doc, spec: DrSpec, config: FeConfig, fe: Option<Stored>, step: FeStep)
    requires Desired(base) && (fe.Some? ==> Live(base, fe)) && OfRecovery(base, spec, config, step) && Completes(step)
    ensures var (st, writes, _) := SyncFe(hash, State(fe, None, None, step.status), step.x);
      writes != [] ==> st.fe.Some? && Recorded(hash, RecoveryObject(base, spec, config), st.fe.value)
  {
    hide SyncFe, ApplyExisting, Desired, RewriteStatefulSet, Active, At, SetAt, Recorded, Defaulted;
    var r, w := RecoveryObject(base, spec, config), step.x.fe.w;
    RecoveryStepIs(hash, base, spec, config, fe, step);
    RewriteDesired(base, spec.generation, config.queryPort);
    RewriteIs(base, spec.generation, config.queryPort);
    if fe.None? {
      CreateRecords(hash, r, w.fill);
    } else {
      CompletesOrNot(hash, r, fe.value, w);
      if Apply(hash, r, true, fe, w).1 == Patched {
        PatchRecords(hash, r, true, fe.value, w);
      }
    }
  }

  lemma CompletesOrNot(hash: Hasher, want: Doc, s: Stored, w: Weather)
    requires Desired(want) && !s.deleting && w.between.None? && w.recordOk
    ensures Apply(hash, want, true, Some(s), w).1 !in {Created, Unrecorded}
  {
    hide Desired, StatefulSetDeepEqual, Sent, PatchedTree, At;
    ApplyExistingIs(hash, want, true, s, w);
  }

  /** From the first step of a recovery to the first FE step after it: if the recovery wrote anything, and
      its writes were recorded, the next FE step outside of recovery, be it done or switched off, patches
      the StatefulSet once, and what the user asks for then is restored. */
  lemma RecoveryIsUndone(hash: Hasher, base: Doc, spec: DrSpec, config: FeConfig, fe: Option<Stored>, steps: seq<FeStep>,
                         st: State, y: Input, p: Path)
    requires Injective(hash) && Desired(base) && (fe.Some? ==> Live(base, fe))
    requires forall step :: step in steps ==> OfRecovery(base, spec, config, step) && Completes(step)
    requires FeAfter(hash, fe, steps).1 > 0 && st.fe == FeAfter(hash, fe, steps).0
    requires y.fe.valid && y.fe.prepared && y.fe.config.Some? && !Active(y.spec, st.status, y.fe.config.value)
    requires Desired(y.fe.base) && At(y.fe.base, RESTORE_GENERATION) != Some(Atom(Strings.FormatInt(spec.generation)))
    requires y.fe.w.getOk && y.fe.w.writeOk && y.fe.w.between.None? && y.fe.w.recordOk && InTemplate(p)
    ensures var (st', writes, _) := SyncFe(hash, st, y);
      && writes == [Write(FrontEnd, Patched, st.fe)] && st'.fe.Some?
      && RestoredAt(y.fe.base, RecoveryObject(base, spec, config), st'.fe.value.tree, y.fe.w.fill, p)
      && var t := st'.fe.value.tree;
         if At(y.fe.base, REPLICAS).Some? then At(t, REPLICAS) == At(y.fe.base, REPLICAS)
         else At(t, REPLICAS).None? || At(t, REPLICAS) == At(y.fe.w.fill, REPLICAS)
  {
    hide Apply, Desired, RewriteStatefulSet, Active, At, SetAt, Recorded, FeAfter, InTemplate, RestoredAt, Live, OfRecovery;
    var r := RecoveryObject(base, spec, config);
    RecoveryIsRecorded(hash, base, spec, config, fe, steps);
    RewriteDesired(base, spec.generation, config.queryPort);
    RewriteIs(base, spec.generation, config.queryPort);
    ActiveIs(y.spec, st.status, y.fe.config.value);
    LeavingRecoveryRestores(hash, y.fe.base, r, st.fe.value, y.fe.w, p);
  }

  // ---- a recovery that was not recorded ----

  const FE_ENV: Path := FE_CONTAINER + ["env"]
  const RESTORE_ENTRY: Path := FE_ENV + ["RESTORE_CLUSTER_GENERATION"]

  /** An FE step outside of recovery for a user who sets variables, but not the restore variable. */
  predicate Ordinary(step: FeStep) {
    && (step.x.fe.config.Some? ==> !Active(step.x.spec, step.status, step.x.fe.config.value))
    && Desired(step.x.fe.base) && At(step.x.fe.w.fill, LAST).None? && step.x.fe.w.between.None?
    && At(step.x.fe.base, RESTORE_ENTRY).None? && !LeafOn(step.x.fe.base, RESTORE_ENTRY) && At(step.x.fe.base, FE_ENV).Some?
  }

  lemma OrdinaryStepIs(hash: Hasher, fe: Option<Stored>, step: FeStep)
    requires Ordinary(step)
    ensures SyncFe(hash, State(fe, None, None, step.status), step.x).0.fe in
      {fe, Apply(hash, step.x.fe.base, false, fe, step.x.fe.w).0}
  {
    hide Apply, Active, Desired, At;
    if step.x.fe.config.Some? {
      ActiveIs(step.x.spec, step.status, step.x.fe.config.value);
    }
  }

  lemma EntryPaths()
    ensures InTemplate(RESTORE_ENTRY) && InTemplate(FE_ENV) && RESTORE_ENTRY[..|RESTORE_ENTRY| - 1] == FE_ENV
    ensures RESTORE_ENTRY <= RESTORE_GENERATION && !(RESTORE_GENERATION <= LAST) && InTemplate(RESTORE_GENERATION)
  {}

  lemma AppliedStaysAlive(hash: Hasher, want: Doc, enable: bool, s: Stored, w: Weather)
    requires Desired(want) && !s.deleting
    ensures var obj := Apply(hash, want, enable, Some(s), w).0; obj.Some? && !obj.value.deleting
  {
    hide At, SetAt, Sent, PatchedTree, Desired, StatefulSetDeepEqual;
    ApplyExistingIs(hash, want, enable, s, w);
  }

  lemma OrdinaryStepKeeps(hash: Hasher, s: Stored, step: FeStep)
    requires Ordinary(step) && !s.deleting && Unknown(s.tree, RESTORE_GENERATION, RESTORE_ENTRY)
    ensures var fe := SyncFe(hash, State(Some(s), None, None, step.status), step.x).0.fe;
      && fe.Some? && !fe.value.deleting && Unknown(fe.value.tree, RESTORE_GENERATION, RESTORE_ENTRY)
      && At(fe.value.tree, RESTORE_GENERATION) == At(s.tree, RESTORE_GENERATION)
  {
    hide SyncFe, Apply, At, Active, Desired, LeafOn, Unknown, Sent, InTemplate;
    var base, w := step.x.fe.base, step.x.fe.w;
    EntryPaths();
    OrdinaryStepIs(hash, Some(s), step);
    AppliedStaysAlive(hash, base, false, s, w);
    SentTemplate(hash, base, s.tree, RESTORE_ENTRY);
    SentTemplate(hash, base, s.tree, FE_ENV);
    StepLeavesUnknown(hash, s, Sync(base, false, w), RESTORE_GENERATION, RESTORE_ENTRY);
  }

  lemma {:induction false} OrdinaryStepsKeep(hash: Hasher, s: Stored, steps: seq<FeStep>)
    requires !s.deleting && Unknown(s.tree, RESTORE_GENERATION, RESTORE_ENTRY)
    requires forall step :: step in steps ==> Ordinary(step)
    ensures var fe := FeAfter(hash, Some(s), steps).0;
      fe.Some? && At(fe.value.tree, RESTORE_GENERATION) == At(s.tree, RESTORE_GENERATION)
    decreases |steps|
  {
    hide SyncFe, Ordinary, Unknown, At;
    if steps != [] {
      assert steps[0] in steps && forall step :: step in steps[1..] ==> step in steps;
      OrdinaryStepKeeps(hash, s, steps[0]);
      OrdinaryStepsKeep(hash, SyncFe(hash, State(Some(s), None, None, steps[0].status), steps[0].x).0.fe.value, steps[1..]);
    }
  }

  /** The record is what undoes a recovery.  If the patch of the rewritten object dies before it is
      recorded, the restore variable outlives the recovery: it is still there after any number of ordinary
      FE steps and completed patches, as long as the user sets variables of the FE at all. */
  lemma CrashedRecoveryIsNotUndone(hash: Hasher, base: Doc, spec: DrSpec, config: FeConfig, s: Stored, step: FeStep, steps: seq<FeStep>)
    requires Desired(base) && OfRecovery(base, spec, config, step)
    requires step.x.fe.valid && step.x.fe.prepared && step.x.fe.config.Some? && !FeRequest(step.status, step.x, config).2
    requires Crashes(hash, RecoveryObject(base, spec, config), true, s, step.x.fe.w)
    requires At(LastApplied(s.tree).value, RESTORE_ENTRY).None?
    requires forall step' :: step' in steps ==> Ordinary(step')
    ensures var fe := FeAfter(hash, SyncFe(hash, State(Some(s), None, None, step.status), step.x).0.fe, steps).0;
      fe.Some? && At(fe.value.tree, RESTORE_GENERATION) == Some(Atom(Strings.FormatInt(spec.generation)))
  {
    hide Apply, At, Active, Desired, LeafOn, Sent, InTemplate, RewriteStatefulSet, PatchedTree, Ordinary, FeAfter, FeRequest, Known;
    var r, w := RecoveryObject(base, spec, config), step.x.fe.w;
    EntryPaths();
    RewriteIs(base, spec.generation, config.queryPort);
    SentTemplate(hash, r, s.tree, RESTORE_GENERATION);
    CrashIsNotRetried(hash, r, true, s, w, true, w);
    AppliedStaysAlive(hash, r, true, s, w);
    LeafEnds(Sent(hash, r, s.tree), RESTORE_GENERATION);
    PatchedAt(hash, r, s, w.fill, RESTORE_GENERATION);
    ActiveIs(step.x.spec, step.status, config);
    RecoveryObjectIsOne(step.status, step.x, config);
    OrdinaryStepsKeep(hash, Apply(hash, r, true, Some(s), w).0.value, steps);
  }
}
