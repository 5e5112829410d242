/** One reconcile of a StarRocksCluster: FE first, then BE and CN behind the rollout and the disaster
    recovery gates, then the status write. */
module ClusterReconcile {
  import opened Options
  import opened Json
  import opened StatefulSets
  import opened DisasterRecovery

  datatype Component = FrontEnd | BackEnd | ComputeNode

  /** What a reconcile sees and meets on its way through one component.  `prepared` is everything that
      is read and built between the gates and the apply; `config` is what reading the FE config gives. */
  datatype FePart = FePart(base: Doc, valid: bool, config: Option<FeConfig>, prepared: bool, w: Weather, servicesOk: bool)
  datatype Part = Part(base: Option<Doc>, valid: bool, gateRead: bool, config: Option<FeConfig>, prepared: bool,
                       w: Weather, servicesOk: bool, cleared: bool)

  /** `present` tells whether the cluster object was found and is not being deleted. */
  datatype Input = Input(present: bool, spec: Option<DrSpec>, waitForFullRollout: bool, endpointsReady: bool,
                         mounts: seq<Mount>, pods: Option<seq<Pod>>, now: int,
                         fe: FePart, be: Part, cn: Part, statusStored: bool)

  datatype State = State(fe: Option<Stored>, be: Option<Stored>, cn: Option<Stored>, status: Option<DrStatus>)

  /** A create or patch of a StatefulSet, with the FE StatefulSet as it was stored at that moment. */
  datatype Write = Write(component: Component, outcome: Outcome, feThen: Option<Stored>)

  const NO_CONFIG := FeConfig(None, 9030)

  predicate IsError(outcome: Outcome) {
    outcome in {Failed, Refused, Unrecorded}
  }

  predicate IsWrite(outcome: Outcome) {
    outcome in {Created, Patched, Unrecorded}
  }

  function Log(component: Component, outcome: Outcome, feThen: Option<Stored>): seq<Write> {
    if IsWrite(outcome) then [Write(component, outcome, feThen)] else []
  }

  predicate FeFullyRolledOut(fe: Option<Stored>) {
    && fe.Some?
    && (Replicas(fe.value.tree).Some? ==> fe.value.status.readyReplicas >= Replicas(fe.value.tree).value)
    && fe.value.status.updateRevision == fe.value.status.currentRevision
  }

  predicate GateOpen(x: Input, part: Part, fe: Option<Stored>) {
    if x.waitForFullRollout then part.gateRead && FeFullyRolledOut(fe) else x.endpointsReady
  }

  function Deleted(obj: Option<Stored>): Option<Stored> {
    if obj.Some? && HasFinalizers(obj.value.tree) then Some(obj.value.(deleting := true)) else None
  }

  // ---- the three steps ----

  /** What the FE step sends to the apply, and the status it leaves in memory. */
  function FeRequest(status: Option<DrStatus>, x: Input, config: FeConfig): (Option<DrStatus>, Doc, bool) {
    if !Active(x.spec, status, config) then (status, x.fe.base, false)
    else
      var (s, sts, err) := Enter(x.spec.value, status, SnapshotMounted(x.mounts), FeRestored(x.pods, x.spec.value.generation),
                                 x.fe.base, config.queryPort, x.now);
      (Some(s), sts, err)
  }

  function SyncFe(hash: Hasher, st: State, x: Input): (State, seq<Write>, bool) {
    if !x.fe.valid || x.fe.config.None? || !x.fe.prepared then (st, [], true)
    else
      var config := x.fe.config.value;
      var (status, sts, err) := FeRequest(st.status, x, config);
      if err then (st.(status := status), [], true)
      else
        var (fe, outcome) := Apply(hash, sts, Active(x.spec, st.status, config), st.fe, x.fe.w);
        (st.(status := status, fe := fe), Log(FrontEnd, outcome, st.fe), IsError(outcome) || !x.fe.servicesOk)
  }

  function SyncBe(hash: Hasher, st: State, x: Input): (State, seq<Write>, bool) {
    if x.be.base.None? then
      if x.be.cleared then (st.(be := Deleted(st.be)), [], false) else (st, [], true)
    else if !x.be.valid then (st, [], true)
    else if !GateOpen(x, x.be, st.fe) then (st, [], false)
    else if Active(x.spec, st.status, if x.be.config.Some? then x.be.config.value else NO_CONFIG) then (st, [], false)
    else if !x.be.prepared then (st, [], true)
    else
      var (be, outcome) := Apply(hash, x.be.base.value, true, st.be, x.be.w);
      (st.(be := be), Log(BackEnd, outcome, st.fe), IsError(outcome) || !x.be.servicesOk)
  }

  function SyncCn(hash: Hasher, st: State, x: Input): (State, seq<Write>, bool) {
    if x.cn.base.None? then
      if x.cn.cleared then (st.(cn := Deleted(st.cn)), [], false) else (st, [], false)
    else if !GateOpen(x, x.cn, st.fe) then (st, [], false)
    else if x.cn.config.None? then (st, [], true)
    else if Active(x.spec, st.status, x.cn.config.value) then (st, [], false)
    else if !x.cn.valid || !x.cn.prepared then (st, [], true)
    else
      var (cn, outcome) := Apply(hash, x.cn.base.value, true, st.cn, x.cn.w);
      (st.(cn := cn), Log(ComputeNode, outcome, st.fe), IsError(outcome) || !x.cn.servicesOk)
  }

  /** The sub-controllers in order, up to the first that fails; the status in memory at that point. */
  function SyncAll(hash: Hasher, st: State, x: Input): (State, seq<Write>, bool) {
    var (st1, w1, err1) := SyncFe(hash, st, x);
    if err1 then (st1, w1, true)
    else
      var (st2, w2, err2) := SyncBe(hash, st1, x);
      if err2 then (st2, w1 + w2, true)
      else
        var (st3, w3, err3) := SyncCn(hash, st2, x);
        (st3, w1 + w2 + w3, err3)
  }

  /** The status is written whether or not a sub-controller failed, and the write may be lost. */
  function Reconcile(hash: Hasher, st: State, x: Input): (State, seq<Write>) {
    if !x.present then (st, [])
    else
      var (st', writes, _) := SyncAll(hash, st, x);
      (st'.(status := if x.statusStored then st'.status else st.status), writes)
  }

  // ---- the controllers ----

  class StarRocksClusterReconciler {
    const fe: StatefulSetStore
    const be: StatefulSetStore
    const cn: StatefulSetStore
    var status: Option<DrStatus>
    ghost var writes: seq<Write>

    constructor (fe: StatefulSetStore, be: StatefulSetStore, cn: StatefulSetStore)
      requires fe != be && be != cn && fe != cn
      ensures Valid() && this.fe == fe && this.be == be && this.cn == cn
      ensures status == None && writes == []
    {
      this.fe, this.be, this.cn := fe, be, cn;
      status, writes := None, [];
    }

    ghost predicate Valid()
      reads this
    {
      fe != be && be != cn && fe != cn
    }

    /** What is stored in the cluster, with the status that a reconcile works on. */
    ghost function StateWith(status: Option<DrStatus>): State
      reads this, fe, be, cn
    {
      State(fe.obj, be.obj, cn.obj, status)
    }

    method SyncFeCluster(src: StarRocksCluster, hash: Hasher, x: Input) returns (err: bool)
      requires Valid() && src.drSpec == x.spec && src.configMaps == x.mounts
      modifies fe, src`drStatus, this`writes
      ensures StateWith(src.drStatus) == SyncFe(hash, old(StateWith(src.drStatus)), x).0
      ensures writes == old(writes) + SyncFe(hash, old(StateWith(src.drStatus)), x).1
      ensures err == SyncFe(hash, old(StateWith(src.drStatus)), x).2
    {
      hide Apply, FeRequest;
      if !x.fe.valid || x.fe.config.None? || !x.fe.prepared {
        return true;
      }
      var shouldEnter, sts;
      shouldEnter, sts, err := PrepareFe(src, x, x.fe.config.value);
      if err {
        return true;
      }
      ghost var feThen := fe.obj;
      var outcome, _ := ApplyStatefulSet(fe, hash, sts, shouldEnter, x.fe.w);
      writes := writes + Log(FrontEnd, outcome, feThen);
      return IsError(outcome) || !x.fe.servicesOk;
    }

    method PrepareFe(src: StarRocksCluster, x: Input, config: FeConfig) returns (shouldEnter: bool, sts: Doc, err: bool)
      requires src.drSpec == x.spec && src.configMaps == x.mounts
      modifies src`drStatus
      ensures shouldEnter == Active(x.spec, old(src.drStatus), config)
      ensures (src.drStatus, sts, err) == FeRequest(old(src.drStatus), x, config)
    {
      sts, err := x.fe.base, false;
      var (enter, queryPort) := ShouldEnterDisasterRecoveryMode(src.drSpec, src.drStatus, config);
      shouldEnter := enter;
      if shouldEnter {
        if src.drStatus.None? {
          src.drStatus := Some(NewDisasterRecoveryStatus(src.drSpec.value.generation, x.now));
        }
        sts, err := src.EnterDisasterRecoveryMode(x.pods, sts, queryPort, x.now);
      }
    }

    method CheckFEFullyRolledOut(gateRead: bool) returns (ready: bool)
      ensures ready == (gateRead && FeFullyRolledOut(fe.obj))
      ensures ready <==>
        && gateRead && fe.obj.Some?
        && (Replicas(fe.obj.value.tree).Some? ==> fe.obj.value.status.readyReplicas >= Replicas(fe.obj.value.tree).value)
        && fe.obj.value.status.updateRevision == fe.obj.value.status.currentRevision
    {
      if !gateRead || fe.obj.None? {
        return false;
      }
      var sts := fe.obj.value;
      if Replicas(sts.tree).Some? && sts.status.readyReplicas < Replicas(sts.tree).value {
        return false;
      }
      return sts.status.updateRevision == sts.status.currentRevision;
    }

    method SyncBeCluster(src: StarRocksCluster, hash: Hasher, x: Input) returns (err: bool)
      requires Valid() && src.drSpec == x.spec
      modifies be, this`writes
      ensures StateWith(src.drStatus) == SyncBe(hash, old(StateWith(src.drStatus)), x).0
      ensures writes == old(writes) + SyncBe(hash, old(StateWith(src.drStatus)), x).1
      ensures err == SyncBe(hash, old(StateWith(src.drStatus)), x).2
    {
      hide Apply, FeFullyRolledOut;
      if x.be.base.None? {
        if x.be.cleared {
          be.obj := Deleted(be.obj);
        }
        return !x.be.cleared;
      }
      if !x.be.valid {
        return true;
      }
      var open := x.endpointsReady;
      if x.waitForFullRollout {
        open := CheckFEFullyRolledOut(x.be.gateRead);
      }
      if !open {
        return false;
      }
      var feConfig := if x.be.config.Some? then x.be.config.value else NO_CONFIG;
      if ShouldEnterDisasterRecoveryMode(src.drSpec, src.drStatus, feConfig).0 {
        return false;
      }
      if !x.be.prepared {
        return true;
      }
      var outcome, _ := ApplyStatefulSet(be, hash, x.be.base.value, true, x.be.w);
      writes := writes + Log(BackEnd, outcome, fe.obj);
      return IsError(outcome) || !x.be.servicesOk;
    }

    method SyncCnCluster(src: StarRocksCluster, hash: Hasher, x: Input) returns (err: bool)
      requires Valid() && src.drSpec == x.spec
      modifies cn, this`writes
      ensures StateWith(src.drStatus) == SyncCn(hash, old(StateWith(src.drStatus)), x).0
      ensures writes == old(writes) + SyncCn(hash, old(StateWith(src.drStatus)), x).1
      ensures err == SyncCn(hash, old(StateWith(src.drStatus)), x).2
    {
      hide Apply, FeFullyRolledOut;
      if x.cn.base.None? {
        if x.cn.cleared {
          cn.obj := Deleted(cn.obj);
        }
        return false;
      }
      var open := x.endpointsReady;
      if x.waitForFullRollout {
        open := CheckFEFullyRolledOut(x.cn.gateRead);
      }
      if !open {
        return false;
      }
      if x.cn.config.None? {
        return true;
      }
      if ShouldEnterDisasterRecoveryMode(src.drSpec, src.drStatus, x.cn.config.value).0 {
        return false;
      }
      if !x.cn.valid || !x.cn.prepared {
        return true;
      }
      var outcome, _ := ApplyStatefulSet(cn, hash, x.cn.base.value, true, x.cn.w);
      writes := writes + Log(ComputeNode, outcome, fe.obj);
      return IsError(outcome) || !x.cn.servicesOk;
    }

    /** The reconcile works on its own copy of the cluster object. */
    method ReconcileCluster(hash: Hasher, x: Input)
      requires Valid()
      modifies this, fe, be, cn
      ensures Valid()
      ensures StateWith(status) == Reconcile(hash, old(StateWith(status)), x).0
      ensures writes == old(writes) + Reconcile(hash, old(StateWith(status)), x).1
    {
      hide SyncFe, SyncBe, SyncCn;
      if !x.present {
        return;
      }
      var src := new StarRocksCluster(x.spec, status, x.mounts);
      var err := SyncFeCluster(src, hash, x);
      if !err {
        err := SyncBeCluster(src, hash, x);
        if !err {
          err := SyncCnCluster(src, hash, x);
        }
      }
      if x.statusStored {
        status := src.drStatus;
      }
    }
  }
}
