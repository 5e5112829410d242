/** The phases that the operator reports for a component and for the cluster. */
module Phases {
  import opened Options
  import StatefulSets

  datatype PodPhase = PodRunning | PodPending | OtherPodPhase(text: string)

  /** `containers` is the readiness of each container, missing while no container has a status. */
  datatype Pod = Pod(name: string, phase: PodPhase, reason: string, containers: Option<seq<bool>>)

  datatype ComponentPhase = NoPhase | Reconciling | Failed | Running

  // ---- pods ----

  predicate PodIsReady(p: Pod) {
    p.containers.Some? && forall i :: 0 <= i < |p.containers.value| ==> p.containers.value[i]
  }

  datatype Bin = Creating | Ready | Broken

  function BinOf(p: Pod): Bin {
    if PodIsReady(p) then Ready
    else if p.phase in {PodRunning, PodPending} then Creating
    else Broken
  }

  /** The names of the pods of one kind, in order. */
  function NamesOf(pods: seq<Pod>, bin: Bin): seq<string> {
    if pods == [] then []
    else
      var front, p := NamesOf(pods[..|pods| - 1], bin), pods[|pods| - 1];
      if BinOf(p) == bin then front + [p.name] else front
  }

  /** The container readiness of a ready pod is known, and none is false. */
  lemma ReadyIff(p: Pod)
    ensures PodIsReady(p) <==> p.containers.Some? && false !in p.containers.value
  {}

  lemma {:induction false} InBin(pods: seq<Pod>, bin: Bin, name: string)
    ensures name in NamesOf(pods, bin) <==> exists p :: p in pods && p.name == name && BinOf(p) == bin
  {
    if pods != [] {
      var front, p := pods[..|pods| - 1], pods[|pods| - 1];
      InBin(front, bin, name);
      assert pods == front + [p];
    }
  }

  /** A pod with a container that is not ready, or with none known. */
  predicate Waits(p: Pod) {
    p.containers.None? || false in p.containers.value
  }

  /** Which names are counted where: ready pods as ready, others that run or are pending as creating, the
      rest as failed. */
  lemma CountIs(pods: seq<Pod>, name: string)
    ensures name in NamesOf(pods, Ready) <==> exists p :: p in pods && p.name == name && !Waits(p)
    ensures name in NamesOf(pods, Creating) <==>
      exists p :: p in pods && p.name == name && Waits(p) && (p.phase == PodRunning || p.phase == PodPending)
    ensures name in NamesOf(pods, Broken) <==>
      exists p :: p in pods && p.name == name && Waits(p) && p.phase != PodRunning && p.phase != PodPending
  {
    hide NamesOf, PodIsReady;
    InBin(pods, Ready, name);
    InBin(pods, Creating, name);
    InBin(pods, Broken, name);
    forall p: Pod ensures PodIsReady(p) <==> !Waits(p) {
      ReadyIff(p);
    }
  }

  method Count(pods: seq<Pod>) returns (creating: seq<string>, ready: seq<string>, failed: seq<string>)
    ensures creating == NamesOf(pods, Creating) && ready == NamesOf(pods, Ready) && failed == NamesOf(pods, Broken)
  {
    creating, ready, failed := [], [], [];
    for i := 0 to |pods|
      invariant creating == NamesOf(pods[..i], Creating) && ready == NamesOf(pods[..i], Ready) && failed == NamesOf(pods[..i], Broken)
    {
      assert pods[..i + 1][..i] == pods[..i];
      var isReady := CheckPodIsReady(pods[i]);
      if isReady {
        ready := ready + [pods[i].name];
      } else if pods[i].phase == PodRunning || pods[i].phase == PodPending {
        creating := creating + [pods[i].name];
      } else {
        failed := failed + [pods[i].name];
      }
    }
    assert pods[..|pods|] == pods;
  }

  method CheckPodIsReady(p: Pod) returns (ready: bool)
    ensures ready == PodIsReady(p)
  {
    if p.containers.None? {
      return false;
    }
    for i := 0 to |p.containers.value|
      invariant forall k :: 0 <= k < i ==> p.containers.value[k]
    {
      if !p.containers.value[i] {
        return false;
      }
    }
    return true;
  }

  function Names(pods: seq<Pod>): (r: seq<string>)
    ensures |r| == |pods| && forall i :: 0 <= i < |r| ==> r[i] == pods[i].name
  {
    seq(|pods|, i requires 0 <= i < |pods| => pods[i].name)
  }

  /** The three lists share out the pods: every pod goes to one of them, none to two. */
  lemma {:induction false} CountSharesOut(pods: seq<Pod>)
    ensures multiset(NamesOf(pods, Creating)) + multiset(NamesOf(pods, Ready)) + multiset(NamesOf(pods, Broken)) == multiset(Names(pods))
  {
    if pods != [] {
      CountSharesOut(pods[..|pods| - 1]);
      assert Names(pods) == Names(pods[..|pods| - 1]) + [pods[|pods| - 1].name];
    }
  }

  lemma {:induction false} EmptyBin(pods: seq<Pod>, bin: Bin)
    ensures NamesOf(pods, bin) == [] <==> forall p :: p in pods ==> BinOf(p) != bin
  {
    if pods != [] {
      var front, p := pods[..|pods| - 1], pods[|pods| - 1];
      EmptyBin(front, bin);
      assert pods == front + [p];
    }
  }

  /** The reason of the last pod with a name, as the map that Status fills in order holds it. */
  function ReasonOf(pods: seq<Pod>, name: string): string {
    if pods == [] then ""
    else if pods[|pods| - 1].name == name then pods[|pods| - 1].reason
    else ReasonOf(pods[..|pods| - 1], name)
  }

  /** The reason of a pod with a name of its own, or of the last of that name. */
  lemma {:induction false} ReasonIs(pods: seq<Pod>, i: nat)
    requires i < |pods| && forall j :: i < j < |pods| ==> pods[j].name != pods[i].name
    ensures ReasonOf(pods, pods[i].name) == pods[i].reason
  {
    if i < |pods| - 1 {
      ReasonIs(pods[..|pods| - 1], i);
    }
  }

  // ---- the rollout ----

  datatype Rollout = Rollout(rollingUpdate: bool, partition: Option<Option<int>>)

  /** Whether the rollout is done, and whether the question makes sense for the update strategy.
      `partition` is missing without a rolling-update section, and may be missing in it. */
  function RolloutStatus(s: StatefulSets.Stored, strategy: Rollout): (bool, bool) {
    if !strategy.rollingUpdate then (true, true)
    else if s.status.observedGeneration == 0 || s.generation > s.status.observedGeneration then (false, false)
    else if StatefulSets.Replicas(s.tree).Some? && s.status.readyReplicas < StatefulSets.Replicas(s.tree).value then (false, false)
    else if strategy.partition.Some? then
      if StatefulSets.Replicas(s.tree).Some? && strategy.partition.value.Some? &&
         s.status.updatedReplicas < StatefulSets.Replicas(s.tree).value - strategy.partition.value.value then (false, false)
      else (true, false)
    else (s.status.updateRevision == s.status.currentRevision, false)
  }

  // ---- the component ----

  class ComponentStatus {
    var phase: ComponentPhase
    var reason: string
    var creating: seq<string>
    var ready: seq<string>
    var failed: seq<string>

    constructor (phase: ComponentPhase)
      ensures this.phase == phase
    {
      this.phase, reason := phase, "";
      creating, ready, failed := [], [], [];
    }

    /** `pods` and `sts` are missing when reading them fails. */
    method UpdateStatus(pods: Option<seq<Pod>>, sts: Option<StatefulSets.Stored>, strategy: Rollout) returns (err: bool)
      modifies this
      ensures err <==> pods.None? || ((forall p :: p in pods.value ==> !Waits(p)) && (sts.None? || !strategy.rollingUpdate))
      ensures pods.None? ==> phase == old(phase) && reason == old(reason)
      ensures pods.Some? ==>
        && creating == NamesOf(pods.value, Creating) && ready == NamesOf(pods.value, Ready) && failed == NamesOf(pods.value, Broken)
        && phase == PhaseOf(pods.value, sts, strategy)
      ensures pods.Some? && failed != [] ==> reason == ReasonOf(pods.value, failed[0])
      ensures pods.Some? && failed == [] && creating != [] ==> reason == ReasonOf(pods.value, creating[0])
      ensures pods.Some? && phase == Running ==> reason == ""
    {
      if pods.None? {
        return true;
      }
      creating, ready, failed := Count(pods.value);
      forall p: Pod ensures PodIsReady(p) <==> !Waits(p) {
        ReadyIff(p);
      }
      EmptyBin(pods.value, Creating);
      EmptyBin(pods.value, Broken);
      if |failed| != 0 {
        phase := Failed;
        reason := ReasonOf(pods.value, failed[0]);
      } else if |creating| != 0 {
        phase := Reconciling;
        reason := ReasonOf(pods.value, creating[0]);
      } else {
        phase := Reconciling;
        if sts.None? {
          return true;
        }
        var (done, bad) := RolloutStatus(sts.value, strategy);
        if bad {
          return true;
        }
        if done {
          phase := Running;
          reason := "";
        } else {
          phase := Reconciling;
          reason := "rollout is not done";
        }
      }
      return false;
    }
  }

  predicate AllReady(pods: seq<Pod>) {
    forall p :: p in pods ==> PodIsReady(p)
  }

  predicate SomeBroken(pods: seq<Pod>) {
    exists p :: p in pods && BinOf(p) == Broken
  }

  function PhaseOf(pods: seq<Pod>, sts: Option<StatefulSets.Stored>, strategy: Rollout): ComponentPhase {
    if SomeBroken(pods) then Failed
    else if !AllReady(pods) then Reconciling
    else if sts.None? || RolloutStatus(sts.value, strategy).1 || !RolloutStatus(sts.value, strategy).0 then Reconciling
    else Running
  }

  /** Without the StatefulSet a component is never running, and there are no other phases than three. */
  lemma PhaseIsOneOfThree(pods: seq<Pod>, sts: Option<StatefulSets.Stored>, strategy: Rollout)
    ensures PhaseOf(pods, sts, strategy) in {Running, Reconciling, Failed}
    ensures PhaseOf(pods, None, strategy) != Running
    ensures PhaseOf(pods, sts, strategy) == Failed <==> PhaseOf(pods, None, strategy) == Failed
  {}

  /** What a reported running means, and that nothing less is ever reported running: every listed pod is
      ready, the stored spec has been observed, enough pods are ready, and as many are updated as the
      partition, or without a rolling-update section the revision, asks for. */
  lemma RunningIff(pods: seq<Pod>, s: StatefulSets.Stored, strategy: Rollout)
    ensures PhaseOf(pods, Some(s), strategy) == Running <==>
      && (forall p :: p in pods ==> !Waits(p)) && strategy.rollingUpdate
      && s.status.observedGeneration > 0 && s.generation <= s.status.observedGeneration
      && (StatefulSets.Replicas(s.tree).Some? ==> s.status.readyReplicas >= StatefulSets.Replicas(s.tree).value)
      && (match strategy.partition
          case None => s.status.updateRevision == s.status.currentRevision
          case Some(None) => true
          case Some(Some(part)) => StatefulSets.Replicas(s.tree).Some? ==> s.status.updatedReplicas >= StatefulSets.Replicas(s.tree).value - part)
    ensures PhaseOf(pods, Some(s), strategy) == Failed <==>
      exists p :: p in pods && Waits(p) && p.phase != PodRunning && p.phase != PodPending
  {
    hide PodIsReady;
    forall p: Pod ensures PodIsReady(p) <==> !Waits(p) {
      ReadyIff(p);
    }
    if exists p :: p in pods && Waits(p) && p.phase != PodRunning && p.phase != PodPending {
      var p :| p in pods && Waits(p) && p.phase != PodRunning && p.phase != PodPending;
      assert BinOf(p) == Broken;
    }
  }

  // ---- the cluster ----

  function GetPhaseFromComponent(component: Option<ComponentPhase>): Option<ComponentPhase> {
    if component.None? then None
    else if component.value == Reconciling then Some(Reconciling)
    else if component.value == Failed then Some(Failed)
    else None
  }

  /** The components in the order FE, BE, CN; the first that is not sure to be well decides. */
  method ReconcileStatus(fe: Option<ComponentPhase>, be: Option<ComponentPhase>, cn: Option<ComponentPhase>)
    returns (phase: ComponentPhase)
    ensures phase == Running <==>
      fe !in {Some(Reconciling), Some(Failed)} && be !in {Some(Reconciling), Some(Failed)} && cn !in {Some(Reconciling), Some(Failed)}
    ensures phase == Failed <==>
      || fe == Some(Failed)
      || (be == Some(Failed) && fe != Some(Reconciling))
      || (cn == Some(Failed) && Some(Reconciling) !in {fe, be})
    ensures phase in {Running, Failed, Reconciling}
  {
    phase := Running;
    if GetPhaseFromComponent(fe).Some? {
      return GetPhaseFromComponent(fe).value;
    }
    if GetPhaseFromComponent(be).Some? {
      return GetPhaseFromComponent(be).value;
    }
    if GetPhaseFromComponent(cn).Some? {
      return GetPhaseFromComponent(cn).value;
    }
  }
}
