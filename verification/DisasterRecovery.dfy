/** Disaster recovery of the FE: when a reconcile enters it, how the status moves, and what happens to
    the FE StatefulSet meanwhile. */
module DisasterRecovery {
  import opened Options
  import opened Json
  import opened StatefulSets
  import Strings

  datatype DrSpec = DrSpec(enabled: bool, generation: int)

  datatype Phase = Todo | Doing | Done | OtherPhase(text: string)

  datatype DrStatus = DrStatus(phase: Phase, reason: string, startTimestamp: int, endTimestamp: int, observedGeneration: int)

  datatype FeConfig = FeConfig(runMode: Option<string>, queryPort: int)

  datatype Mount = Mount(mountPath: string, subPath: string)
  datatype EnvVar = EnvVar(name: string, value: string)
  datatype Container = Container(name: string, env: seq<EnvVar>)
  datatype ContainerStatus = ContainerStatus(name: string, ready: bool)
  datatype Pod = Pod(containers: seq<Container>, statuses: seq<ContainerStatus>)

  const FE := "fe"

  predicate IsRunInSharedDataMode(config: FeConfig) {
    config.runMode.Some? && Strings.Contains(config.runMode.value, "shared_data")
  }

  function ShouldEnterDisasterRecoveryMode(spec: Option<DrSpec>, status: Option<DrStatus>, config: FeConfig): (bool, int) {
    if !IsRunInSharedDataMode(config) then (false, 0)
    else if spec.None? then (false, 0)
    else if !spec.value.enabled then (false, 0)
    else if status.None? then (true, config.queryPort)
    else
      var og := status.value.observedGeneration;
      if spec.value.generation > og || (spec.value.generation == og && status.value.phase != Done)
      then (true, config.queryPort)
      else (false, 0)
  }

  predicate Active(spec: Option<DrSpec>, status: Option<DrStatus>, config: FeConfig) {
    ShouldEnterDisasterRecoveryMode(spec, status, config).0
  }

  /** A run mode that says shared_data somewhere. */
  ghost predicate RunsSharedData(config: FeConfig) {
    config.runMode.Some? && exists a, b :: config.runMode.value == a + "shared_data" + b
  }

  lemma SharedDataIsContained(config: FeConfig)
    ensures RunsSharedData(config) <==> IsRunInSharedDataMode(config)
  {
    hide Strings.Contains;
    if config.runMode.Some? {
      Strings.ContainsIff(config.runMode.value, "shared_data");
    }
  }

  /** When a reconcile is in recovery, and with which port: in shared-data mode, when recovery is asked for
      and enabled, and its generation is not done yet. */
  lemma RecoveryIsEnteredIff(spec: Option<DrSpec>, status: Option<DrStatus>, config: FeConfig, a: string, b: string)
    requires config.runMode == Some(a + "shared_data" + b)
    ensures var (enter, port) := ShouldEnterDisasterRecoveryMode(spec, status, config);
      && (enter <==>
            && spec.Some? && spec.value.enabled
            && (status.None? || spec.value.generation > status.value.observedGeneration
                || (spec.value.generation == status.value.observedGeneration && status.value.phase != Done)))
      && (enter ==> port == config.queryPort)
  {
    assert RunsSharedData(config);
    SharedDataIsContained(config);
  }

  /** Never in any other run mode. */
  lemma NoRecoveryElsewhere(spec: Option<DrSpec>, status: Option<DrStatus>, config: FeConfig)
    requires config.runMode.Some? ==>
      forall i, j :: 0 <= i <= j <= |config.runMode.value| ==> config.runMode.value[i..j] != "shared_data"
    ensures !ShouldEnterDisasterRecoveryMode(spec, status, config).0
  {
    hide Strings.Contains;
    if IsRunInSharedDataMode(config) {
      Strings.ContainsSlice(config.runMode.value, "shared_data");
    }
  }

  function NewDisasterRecoveryStatus(generation: int, now: int): DrStatus {
    DrStatus(Todo, "", now, 0, generation)
  }

  // ---- what is read from the cluster ----

  predicate CarriesSnapshot(m: Mount) {
    || Strings.Contains(m.subPath, "cluster_snapshot.yaml")
    || Strings.HasSuffix(m.mountPath, "fe/conf")
    || Strings.HasSuffix(m.mountPath, "fe/conf/")
  }

  predicate SnapshotMounted(mounts: seq<Mount>) {
    exists m :: m in mounts && CarriesSnapshot(m)
  }

  /** The sub-path names the snapshot file, or the mount is the whole configuration directory. */
  ghost predicate NamesSnapshot(m: Mount) {
    || (exists a, b :: m.subPath == a + "cluster_snapshot.yaml" + b)
    || (exists a :: m.mountPath == a + "fe/conf")
    || (exists a :: m.mountPath == a + "fe/conf/")
  }

  lemma CarriesSnapshotIff(m: Mount)
    ensures CarriesSnapshot(m) <==> NamesSnapshot(m)
  {
    hide Strings.Contains, Strings.HasSuffix;
    Strings.ContainsIff(m.subPath, "cluster_snapshot.yaml");
    Strings.HasSuffixIff(m.mountPath, "fe/conf");
    Strings.HasSuffixIff(m.mountPath, "fe/conf/");
  }

  lemma SnapshotMountedIff(mounts: seq<Mount>)
    ensures SnapshotMounted(mounts) <==> exists m :: m in mounts && NamesSnapshot(m)
  {
    hide NamesSnapshot, CarriesSnapshot;
    forall m ensures CarriesSnapshot(m) <==> NamesSnapshot(m) {
      CarriesSnapshotIff(m);
    }
  }

  method HasClusterSnapshotConf(mounts: seq<Mount>) returns (hasConf: bool)
    ensures hasConf == SnapshotMounted(mounts)
    ensures hasConf <==> exists m :: m in mounts && NamesSnapshot(m)
  {
    hide NamesSnapshot, CarriesSnapshot;
    SnapshotMountedIff(mounts);
    hasConf := false;
    for i := 0 to |mounts|
      invariant !hasConf && forall k :: 0 <= k < i ==> !CarriesSnapshot(mounts[k])
    {
      if CarriesSnapshot(mounts[i]) {
        hasConf := true;
        break;
      }
    }
  }

  /** The container has some variable with the generation as its value, whatever the name. */
  predicate CarriesGeneration(c: Container, generation: int) {
    exists i :: 0 <= i < |c.env| && c.env[i].value == Strings.FormatInt(generation)
  }

  predicate PodRestored(p: Pod, generation: int) {
    && (forall c :: c in p.containers && c.name == FE ==> CarriesGeneration(c, generation))
    && p.statuses != []
    && (forall s :: s in p.statuses && s.name == FE ==> s.ready)
  }

  /** The pods were listed, there are some, and each one runs the generation and is ready. */
  predicate FeRestored(pods: Option<seq<Pod>>, generation: int) {
    pods.Some? && pods.value != [] && forall p :: p in pods.value ==> PodRestored(p, generation)
  }

  method CheckFEReadyInDisasterRecovery(pods: Option<seq<Pod>>, generation: int) returns (ready: bool)
    ensures ready == FeRestored(pods, generation)
  {
    if pods.None? {
      return false;
    } else if |pods.value| == 0 {
      return false;
    }
    for i := 0 to |pods.value|
      invariant forall k :: 0 <= k < i ==> PodRestored(pods.value[k], generation)
    {
      var pod := pods.value[i];
      for j := 0 to |pod.containers|
        invariant forall k :: 0 <= k < j && pod.containers[k].name == FE ==> CarriesGeneration(pod.containers[k], generation)
      {
        var container := pod.containers[j];
        if container.name != FE {
          continue;
        }
        var hasExpectedGeneration := false;
        for k := 0 to |container.env|
          invariant hasExpectedGeneration == exists l :: 0 <= l < k && container.env[l].value == Strings.FormatInt(generation)
        {
          if container.env[k].value == Strings.FormatInt(generation) {
            hasExpectedGeneration := true;
          }
        }
        if !hasExpectedGeneration {
          assert container in pod.containers && !CarriesGeneration(container, generation);
          assert pod in pods.value && !PodRestored(pod, generation);
          return false;
        }
      }
      if |pod.statuses| == 0 {
        assert pod in pods.value && !PodRestored(pod, generation);
        return false;
      }
      for j := 0 to |pod.statuses|
        invariant forall k :: 0 <= k < j && pod.statuses[k].name == FE ==> pod.statuses[k].ready
      {
        if pod.statuses[j].name != FE {
          continue;
        }
        if !pod.statuses[j].ready {
          assert pod.statuses[j] in pod.statuses;
          assert pod in pods.value && !PodRestored(pod, generation);
          return false;
        }
      }
    }
    return true;
  }

  // ---- the rewritten StatefulSet ----

  const FE_CONTAINER: Path := ["spec", "template", "spec", "containers", "fe"]
  const STARTUP: Path := FE_CONTAINER + ["startupProbe"]
  const LIVENESS: Path := FE_CONTAINER + ["livenessProbe"]
  const READINESS: Path := FE_CONTAINER + ["readinessProbe"]
  const RESTORE_GENERATION: Path := FE_CONTAINER + ["env", "RESTORE_CLUSTER_GENERATION", "value"]
  const RESTORE_SNAPSHOT: Path := FE_CONTAINER + ["env", "RESTORE_CLUSTER_SNAPSHOT", "value"]

  function PortReadyProbe(port: int): Json {
    Obj(map["tcpSocket" := Obj(map["port" := Num(port)]),
            "initialDelaySeconds" := Num(5), "timeoutSeconds" := Num(1), "periodSeconds" := Num(10),
            "successThreshold" := Num(1), "failureThreshold" := Num(3)])
  }

  function RewriteStatefulSet(sts: Doc, generation: int, queryPort: int): Doc {
    var s1 := SetAt(sts, REPLICAS, Num(1));
    var s2 := SetAt(RemoveAt(RemoveAt(s1, STARTUP), LIVENESS), READINESS, PortReadyProbe(queryPort));
    SetAt(SetAt(s2, RESTORE_GENERATION, Atom(Strings.FormatInt(generation))), RESTORE_SNAPSHOT, Atom("true"))
  }

  // ---- one step ----

  const NOT_MOUNTED := "cluster_snapshot.yaml is not mounted"

  /** The status that the phase switch sees: a new one for a new generation. */
  function Current(status: Option<DrStatus>, generation: int, now: int): DrStatus {
    if status.None? || generation > status.value.observedGeneration then NewDisasterRecoveryStatus(generation, now)
    else status.value
  }

  /** The new status, the object to apply, and whether the step failed. */
  function Enter(spec: DrSpec, status: Option<DrStatus>, mounted: bool, restored: bool, sts: Doc, queryPort: int, now: int)
    : (DrStatus, Doc, bool)
  {
    var s := Current(status, spec.generation, now);
    match s.phase
    case Todo =>
      if !mounted then (s.(reason := NOT_MOUNTED), sts, true)
      else (s.(phase := Doing, reason := "has changed to pod template for disaster recovery"),
            RewriteStatefulSet(sts, spec.generation, queryPort), false)
    case Doing =>
      (if !restored then s.(reason := "disaster recovery is in progress")
       else s.(phase := Done, reason := "disaster recovery is done", endTimestamp := now),
       RewriteStatefulSet(sts, spec.generation, queryPort), false)
    case _ => (s, sts, false)
  }

  /** The part of a StarRocksCluster that disaster recovery reads and writes. */
  class StarRocksCluster {
    var drSpec: Option<DrSpec>
    var drStatus: Option<DrStatus>
    var configMaps: seq<Mount>

    constructor (drSpec: Option<DrSpec>, drStatus: Option<DrStatus>, configMaps: seq<Mount>)
      ensures this.drSpec == drSpec && this.drStatus == drStatus && this.configMaps == configMaps
    {
      this.drSpec, this.drStatus, this.configMaps := drSpec, drStatus, configMaps;
    }

    method EnterDisasterRecoveryMode(pods: Option<seq<Pod>>, expected: Doc, queryPort: int, now: int) returns (sts: Doc, err: bool)
      requires drSpec.Some?
      modifies this`drStatus
      ensures drStatus.Some?
      ensures (drStatus.value, sts, err) ==
        Enter(drSpec.value, old(drStatus), SnapshotMounted(configMaps), FeRestored(pods, drSpec.value.generation), expected, queryPort, now)
    {
      sts, err := expected, false;
      if drStatus.None? || drSpec.value.generation > drStatus.value.observedGeneration {
        drStatus := Some(NewDisasterRecoveryStatus(drSpec.value.generation, now));
      }
      if drStatus.value.phase == Todo {
        var mounted := HasClusterSnapshotConf(configMaps);
        if !mounted {
          drStatus := Some(drStatus.value.(phase := Todo, reason := NOT_MOUNTED));
          return sts, true;
        }
        sts := RewriteStatefulSet(sts, drSpec.value.generation, queryPort);
        drStatus := Some(drStatus.value.(phase := Doing, reason := "has changed to pod template for disaster recovery"));
      } else if drStatus.value.phase == Doing {
        sts := RewriteStatefulSet(sts, drSpec.value.generation, queryPort);
        var ready := CheckFEReadyInDisasterRecovery(pods, drSpec.value.generation);
        if !ready {
          drStatus := Some(drStatus.value.(reason := "disaster recovery is in progress"));
        } else {
          drStatus := Some(drStatus.value.(phase := Done, reason := "disaster recovery is done", endTimestamp := now));
        }
      }
    }
  }

  /** What a step says about itself. */
  lemma ReasonsAre(spec: DrSpec, status: Option<DrStatus>, mounted: bool, restored: bool, sts: Doc, queryPort: int, now: int)
    requires status.Some? ==> status.value.phase in {Todo, Doing}
    ensures var s := Enter(spec, status, mounted, restored, sts, queryPort, now).0;
      var waiting := status.None? || status.value.phase == Todo || spec.generation > status.value.observedGeneration;
      s.reason ==
        if waiting && !mounted then "cluster_snapshot.yaml is not mounted"
        else if waiting then "has changed to pod template for disaster recovery"
        else if !restored then "disaster recovery is in progress"
        else "disaster recovery is done"
  {
    hide RewriteStatefulSet;
  }

  // ---- runs ----

  /** Everything one reconcile sees.  `config` is missing when the FE step fails before it gets to
      disaster recovery; `stored` tells whether the status write at the end of the reconcile succeeds. */
  datatype Sight = Sight(spec: Option<DrSpec>, config: Option<FeConfig>, mounts: seq<Mount>, pods: Option<seq<Pod>>,
                         now: int, stored: bool)

  predicate Entered(status: Option<DrStatus>, x: Sight) {
    x.config.Some? && Active(x.spec, status, x.config.value)
  }

  /** The status in memory after the FE step. */
  function AfterFe(status: Option<DrStatus>, x: Sight): Option<DrStatus> {
    if !Entered(status, x) then status
    else Some(Enter(x.spec.value, status, SnapshotMounted(x.mounts), FeRestored(x.pods, x.spec.value.generation),
                    EMPTY, x.config.value.queryPort, x.now).0)
  }

  /** The stored status after the reconcile; the write at its end may be lost. */
  function AfterReconcile(status: Option<DrStatus>, x: Sight): Option<DrStatus> {
    if x.stored then AfterFe(status, x) else status
  }

  /** The stored status after the first `n` reconciles of a cluster that starts without one. */
  function StatusAfter(xs: seq<Sight>, n: nat): Option<DrStatus>
    requires n <= |xs|
  {
    if n == 0 then None else AfterReconcile(StatusAfter(xs, n - 1), xs[n - 1])
  }

  function Rank(p: Phase): int {
    match p case Todo => 0 case Doing => 1 case Done => 2 case _ => -1
  }

  predicate Known(status: Option<DrStatus>) {
    status.Some? ==> !status.value.phase.OtherPhase?
  }

  /** Generation first, then phase. */
  predicate NoEarlier(a: Option<DrStatus>, b: Option<DrStatus>) {
    a.Some? ==>
      b.Some? && (a.value.observedGeneration < b.value.observedGeneration ||
                  (a.value.observedGeneration == b.value.observedGeneration && Rank(a.value.phase) <= Rank(b.value.phase)))
  }

  /** Whatever users edit, pods do and status writes get lost, the stored generation and phase never go
      back, and the phase is always one of the three. */
  lemma {:induction false} StatusNeverGoesBack(xs: seq<Sight>, m: nat, n: nat)
    requires m <= n <= |xs|
    ensures Known(StatusAfter(xs, n)) && NoEarlier(StatusAfter(xs, m), StatusAfter(xs, n))
  {
    if n > 0 {
      if m < n {
        StatusNeverGoesBack(xs, m, n - 1);
      } else {
        StatusNeverGoesBack(xs, 0, n - 1);
      }
    }
  }

  /** A reconcile that enters disaster recovery never finds the done phase in the phase switch. */
  lemma DoneIsNotEntered(status: Option<DrStatus>, x: Sight)
    requires Entered(status, x)
    ensures Current(status, x.spec.value.generation, x.now).phase != Done
  {}

  predicate Is(status: Option<DrStatus>, phase: Phase, generation: int) {
    status.Some? && status.value.phase == phase && status.value.observedGeneration == generation
  }

  /** Reconcile `i` stored the doing phase of a generation that was not being recovered before, and it
      saw the snapshot mounted. */
  predicate Started(xs: seq<Sight>, i: nat, generation: int)
    requires i < |xs|
  {
    && SnapshotMounted(xs[i].mounts) && xs[i].stored && Entered(StatusAfter(xs, i), xs[i])
    && xs[i].spec.value.generation == generation
    && !Is(StatusAfter(xs, i), Doing, generation) && Is(StatusAfter(xs, i + 1), Doing, generation)
  }

  /** Reconcile `i` stored the done phase after it saw the FE pods restored. */
  predicate Finished(xs: seq<Sight>, i: nat, generation: int)
    requires i < |xs|
  {
    && FeRestored(xs[i].pods, generation) && xs[i].stored && Entered(StatusAfter(xs, i), xs[i])
    && xs[i].spec.value.generation == generation
    && Is(StatusAfter(xs, i), Doing, generation) && Is(StatusAfter(xs, i + 1), Done, generation)
  }

  lemma {:induction false} DoingWasStarted(xs: seq<Sight>, n: nat, generation: int) returns (i: nat)
    requires n <= |xs| && Is(StatusAfter(xs, n), Doing, generation)
    ensures i < n && Started(xs, i, generation)
  {
    if Is(StatusAfter(xs, n - 1), Doing, generation) {
      i := DoingWasStarted(xs, n - 1, generation);
    } else {
      i := n - 1;
    }
  }

  /** A stored done for a generation was preceded by a stored doing for it, by a reconcile that saw the
      snapshot mounted, and came from a reconcile that saw the pods restored. */
  lemma {:induction false} DoneWasEarned(xs: seq<Sight>, n: nat, generation: int) returns (i: nat, j: nat)
    requires n <= |xs| && Is(StatusAfter(xs, n), Done, generation)
    ensures i < j < n && Started(xs, i, generation) && Finished(xs, j, generation)
  {
    if Is(StatusAfter(xs, n - 1), Done, generation) {
      i, j := DoneWasEarned(xs, n - 1, generation);
    } else {
      j := n - 1;
      i := DoingWasStarted(xs, j, generation);
    }
  }

  /** A reconcile that nothing stands in the way of. */
  ghost predicate Smooth(x: Sight, generation: int) {
    && x.spec == Some(DrSpec(true, generation)) && x.config.Some? && RunsSharedData(x.config.value)
    && SnapshotMounted(x.mounts) && FeRestored(x.pods, generation) && x.stored
  }

  /** Two smooth reconciles finish the recovery of a generation that is due, from any known status, and a
      recovery that starts with them bears their times. */
  lemma TwoReconcilesFinish(status: Option<DrStatus>, x: Sight, y: Sight, generation: int)
    requires Known(status) && Smooth(x, generation) && Smooth(y, generation)
    requires status.Some? ==> status.value.observedGeneration <= generation
    ensures var s := AfterReconcile(AfterReconcile(status, x), y);
      && Is(s, Done, generation)
      && (status.None? || status.value.observedGeneration < generation ==>
            s.value.startTimestamp == x.now && s.value.endTimestamp == y.now)
  {
    hide SnapshotMounted, FeRestored, RewriteStatefulSet, IsRunInSharedDataMode, RunsSharedData, Enter, Smooth;
    SmoothStep(status, x, generation);
    SmoothStep(AfterReconcile(status, x), y, generation);
  }

  /** One smooth reconcile starts a recovery that is due, or finishes one that is under way. */
  lemma SmoothStep(status: Option<DrStatus>, x: Sight, generation: int)
    requires Known(status) && Smooth(x, generation)
    requires status.Some? ==> status.value.observedGeneration <= generation
    ensures var s := AfterReconcile(status, x);
      && Known(s) && s.Some?
      && (if Is(status, Done, generation) then s == status
          else if Is(status, Doing, generation) then
            Is(s, Done, generation) && s.value.startTimestamp == status.value.startTimestamp && s.value.endTimestamp == x.now
          else
            Is(s, Doing, generation) &&
            (status.None? || status.value.observedGeneration < generation ==> s.value.startTimestamp == x.now))
  {
    SharedDataIsContained(x.config.value);
    hide SnapshotMounted, FeRestored, RewriteStatefulSet, IsRunInSharedDataMode, RunsSharedData;
  }

  /** Done absorbs: until the user raises the generation, nothing changes the stored status. */
  lemma {:induction false} DoneAbsorbs(xs: seq<Sight>, m: nat, n: nat, generation: int)
    requires m <= n <= |xs| && Is(StatusAfter(xs, m), Done, generation)
    requires forall i :: m <= i < n && xs[i].spec.Some? ==> xs[i].spec.value.generation <= generation
    ensures StatusAfter(xs, n) == StatusAfter(xs, m)
  {
    if m < n {
      DoneAbsorbs(xs, m, n - 1, generation);
    }
  }

  // ---- the readiness check against its description ----

  const RESTORE_VARIABLE := "RESTORE_CLUSTER_GENERATION"

  predicate CarriesRestore(c: Container, generation: int) {
    EnvVar("RESTORE_CLUSTER_GENERATION", Strings.FormatInt(generation)) in c.env
  }

  predicate HasFe(p: Pod) {
    (exists c :: c in p.containers && c.name == "fe") && (exists s :: s in p.statuses && s.name == "fe")
  }

  /** What the check is described to establish: every pod runs an FE with the restore variable of the
      generation, and that FE is ready. */
  predicate RunsTheRestore(pods: seq<Pod>, generation: int) {
    && pods != []
    && forall p :: p in pods ==>
      && HasFe(p)
      && (forall c :: c in p.containers && c.name == "fe" ==> CarriesRestore(c, generation))
      && (forall s :: s in p.statuses && s.name == "fe" ==> s.ready)
  }

  /** The pod has an FE container and an FE status, and in its FE container the generation is the value of
      no variable unless it is that of the restore variable too. */
  predicate Plain(p: Pod, generation: int) {
    HasFe(p) && forall c :: c in p.containers && c.name == "fe" && CarriesGeneration(c, generation) ==> CarriesRestore(c, generation)
  }

  lemma RestoreIsCarried(c: Container, generation: int)
    requires CarriesRestore(c, generation)
    ensures CarriesGeneration(c, generation)
  {
    var i :| 0 <= i < |c.env| && c.env[i] == EnvVar(RESTORE_VARIABLE, Strings.FormatInt(generation));
  }

  /** The check establishes its description exactly when all pods are plain; it never misses a restored
      FE. */
  lemma RestoredMeans(pods: seq<Pod>, generation: int)
    ensures RunsTheRestore(pods, generation) ==> FeRestored(Some(pods), generation)
    ensures FeRestored(Some(pods), generation) ==>
              (RunsTheRestore(pods, generation) <==> forall p :: p in pods ==> Plain(p, generation))
  {
    hide CarriesRestore, CarriesGeneration;
    forall p, c | p in pods && c in p.containers && CarriesRestore(c, generation) ensures CarriesGeneration(c, generation) {
      RestoreIsCarried(c, generation);
    }
    if FeRestored(Some(pods), generation) {
      assert forall p :: p in pods ==> PodRestored(p, generation);
    }
  }

  predicate HoldsGeneration(env: seq<EnvVar>, generation: int) {
    exists i :: 0 <= i < |env| && env[i].value == Strings.FormatInt(generation)
  }

  const RESTORE_SNAPSHOT_VARIABLE := "RESTORE_CLUSTER_SNAPSHOT"

  /** The FE container of the user's template, or of that template rewritten for a recovery. */
  function FeContainer(env: seq<EnvVar>, rewrittenFor: Option<int>): Container {
    Container(FE, env + match rewrittenFor
                        case None => []
                        case Some(g) => [EnvVar(RESTORE_VARIABLE, Strings.FormatInt(g)), EnvVar(RESTORE_SNAPSHOT_VARIABLE, "true")])
  }

  /** A pod of such a template, with the user's sidecars behind the FE container.  It has no statuses yet,
      or statuses with the FE among them. */
  ghost predicate FromTemplate(env: seq<EnvVar>, p: Pod) {
    && (exists g :: p.containers != [] && p.containers[0] == FeContainer(env, g))
    && (forall i :: 1 <= i < |p.containers| ==> p.containers[i].name != FE)
    && (p.statuses != [] ==> exists s :: s in p.statuses && s.name == FE)
  }

  ghost predicate FromTemplates(env: seq<EnvVar>, pods: seq<Pod>) {
    forall p :: p in pods ==> FromTemplate(env, p)
  }

  lemma NumbersAreNotTrue(generation: int)
    ensures Strings.FormatInt(generation) != "true"
  {
    assert Strings.FormatInt(generation)[0] == '-' || Strings.IsDigit(Strings.FormatInt(generation)[0]);
    assert "true"[0] == 't';
  }

  /** The rewriting adds the value of the generation with the restore variable only. */
  lemma TemplateContainer(env: seq<EnvVar>, rewrittenFor: Option<int>, generation: int)
    requires HoldsGeneration(env, generation) ==> EnvVar(RESTORE_VARIABLE, Strings.FormatInt(generation)) in env
    requires CarriesGeneration(FeContainer(env, rewrittenFor), generation)
    ensures CarriesRestore(FeContainer(env, rewrittenFor), generation)
  {
    NumbersAreNotTrue(generation);
    var c, value := FeContainer(env, rewrittenFor), Strings.FormatInt(generation);
    hide Strings.FormatInt;
    assert c.env[..|env|] == env;
    if !HoldsGeneration(env, generation) {
      var i :| 0 <= i < |c.env| && c.env[i].value == value;
      assert i >= |env|;
      assert c.env[i] == EnvVar(RESTORE_VARIABLE, value);
    }
  }

  lemma TemplatePodIsPlain(env: seq<EnvVar>, p: Pod, generation: int)
    requires HoldsGeneration(env, generation) ==> EnvVar(RESTORE_VARIABLE, Strings.FormatInt(generation)) in env
    requires FromTemplate(env, p) && p.statuses != []
    ensures Plain(p, generation)
  {
    hide CarriesGeneration, CarriesRestore, HoldsGeneration, FeContainer;
    var g :| p.containers[0] == FeContainer(env, g);
    FeContainerIsFe(env, g);
    assert p.containers[0] in p.containers;
    if CarriesGeneration(p.containers[0], generation) {
      TemplateContainer(env, g, generation);
    }
  }

  lemma FeContainerIsFe(env: seq<EnvVar>, rewrittenFor: Option<int>)
    ensures FeContainer(env, rewrittenFor).name == FE
  {}

  /** For the pods that a cluster really has, with any sidecars, started or not: the check is what it is
      described to be, for all of them, exactly when no variable of the user has the generation as its
      value, unless the user sets the restore variable to it. */
  lemma TemplateReadinessIff(env: seq<EnvVar>, generation: int)
    ensures (forall pods :: FromTemplates(env, pods) ==> (FeRestored(Some(pods), generation) <==> RunsTheRestore(pods, generation))) <==>
            (HoldsGeneration(env, generation) ==> EnvVar(RESTORE_VARIABLE, Strings.FormatInt(generation)) in env)
  {
    hide HoldsGeneration, RunsTheRestore, FromTemplate, Plain;
    if HoldsGeneration(env, generation) ==> EnvVar(RESTORE_VARIABLE, Strings.FormatInt(generation)) in env {
      forall pods | FromTemplates(env, pods) ensures FeRestored(Some(pods), generation) <==> RunsTheRestore(pods, generation) {
        if FeRestored(Some(pods), generation) {
          forall p | p in pods ensures Plain(p, generation) {
            assert PodRestored(p, generation);
            TemplatePodIsPlain(env, p, generation);
          }
        }
        RestoredMeans(pods, generation);
      }
    } else {
      TemplateFails(env, generation);
    }
  }

  /** A ready pod of the user's own template. */
  function UserPod(env: seq<EnvVar>): Pod {
    Pod([FeContainer(env, None)], [ContainerStatus(FE, true)])
  }

  lemma TemplateFails(env: seq<EnvVar>, generation: int)
    requires HoldsGeneration(env, generation) && EnvVar(RESTORE_VARIABLE, Strings.FormatInt(generation)) !in env
    ensures FromTemplates(env, [UserPod(env)])
    ensures FeRestored(Some([UserPod(env)]), generation) && !RunsTheRestore([UserPod(env)], generation)
  {
    var p := UserPod(env);
    var c := p.containers[0];
    assert c.env == env && c in p.containers && p in [p];
    assert ContainerStatus(FE, true) in p.statuses;
    assert CarriesGeneration(c, generation) && !CarriesRestore(c, generation);
  }

  /** The pods of an earlier recovery do not count for a later one, unless the user has a variable with the
      later generation as its value. */
  lemma EarlierRecoveryDoesNotCount(env: seq<EnvVar>, pods: seq<Pod>, earlier: int, generation: int)
    requires earlier != generation && !HoldsGeneration(env, generation)
    requires exists p :: p in pods && p.containers != [] && p.containers[0] == FeContainer(env, Some(earlier))
    ensures !FeRestored(Some(pods), generation)
  {
    var p :| p in pods && p.containers != [] && p.containers[0] == FeContainer(env, Some(earlier));
    var c := p.containers[0];
    NumbersAreNotTrue(generation);
    Strings.FormatIntIsInjective(earlier, generation);
    hide Strings.FormatInt;
    assert c.env[..|env|] == env && c in p.containers;
    assert !CarriesGeneration(c, generation);
    assert !PodRestored(p, generation);
  }

  /** Two inputs on which the check is weaker than its description: a container that never saw the restore
      variable passes when any variable happens to hold the generation, and so does a ready pod without
      an FE container. */
  lemma UnrelatedVariableCounts(generation: int, name: string)
    requires name != RESTORE_VARIABLE
    ensures var pods := [UserPod([EnvVar(name, Strings.FormatInt(generation))])];
      FeRestored(Some(pods), generation) && !RunsTheRestore(pods, generation)
    ensures var pods := [Pod([], [ContainerStatus("sidecar", true)])];
      FeRestored(Some(pods), generation) && !RunsTheRestore(pods, generation)
  {
    var env := [EnvVar(name, Strings.FormatInt(generation))];
    assert env[0].value == Strings.FormatInt(generation);
    TemplateFails(env, generation);
    var p := Pod([], [ContainerStatus("sidecar", true)]);
    assert p in [p] && !HasFe(p);
  }
}
