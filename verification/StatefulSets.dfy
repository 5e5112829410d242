/** Creating or patching a StatefulSet: the hash decides whether to write, the three-way merge decides
    what to write, and a second write records what was applied. */
module StatefulSets {
  import opened Options
  import opened Json
  import opened ThreeWayMerge

  const ANNOTATIONS: Path := ["metadata", "annotations"]
  const HASH: Path := ["metadata", "annotations", "app.starrocks.components/hash"]
  const LAST: Path := ["metadata", "annotations", "starrocks.kubernetes.operator/last-applied-configuration"]
  const NAMESPACE: Path := ["metadata", "namespace"]
  const FINALIZERS: Path := ["metadata", "finalizers"]
  const SPEC: Path := ["spec"]
  const REPLICAS: Path := ["spec", "replicas"]
  const POLICY: Path := ["spec", "podManagementPolicy"]
  const SERVICE: Path := ["spec", "serviceName"]
  const ORDERED := "OrderedReady"

  type Doc = j: Json | j.Obj? witness EMPTY

  datatype StsStatus = StsStatus(observedGeneration: nat, readyReplicas: int, updatedReplicas: int,
                                 currentRevision: string, updateRevision: string)

  /** A StatefulSet as the API server holds it.  What the server alone writes is kept beside the tree. */
  datatype Stored = Stored(tree: Doc, deleting: bool, generation: nat, status: StsStatus)

  function AtomAt(t: Json, p: Path): string {
    match At(t, p)
    case Some(Atom(s)) => s
    case _ => ""
  }

  function Replicas(t: Json): Option<int> {
    match At(t, REPLICAS)
    case Some(Num(n)) => Some(n)
    case _ => None
  }

  /** The server keeps no empty list of finalizers. */
  predicate HasFinalizers(t: Json) {
    match At(t, FINALIZERS)
    case Some(Obj(m)) => m != map[]
    case _ => false
  }

  /** What MakeStatefulset builds: no annotations, a namespace, and replicas that the CRD accepts. */
  predicate Desired(want: Json) {
    && CleanObj(want)
    && "metadata" in want.fields && want.fields["metadata"].Obj?
    && "annotations" !in want.fields["metadata"].fields
    && "namespace" in want.fields["metadata"].fields && want.fields["metadata"].fields["namespace"].Atom?
    && "spec" in want.fields && want.fields["spec"].Obj?
    && ("replicas" in want.fields["spec"].fields ==>
          want.fields["spec"].fields["replicas"].Num? && want.fields["spec"].fields["replicas"].n >= 0)
  }

  // ---- the cache key ----

  const HASHED: seq<Path> := [
    ["metadata", "name"], ["metadata", "namespace"], ["metadata", "labels"], ["metadata", "finalizers"],
    ["spec", "selector"], ["spec", "template"], ["spec", "volumeClaimTemplates"], ["spec", "updateStrategy"],
    ["spec", "persistentVolumeClaimRetentionPolicy"], ["spec", "minReadySeconds"]]

  datatype HashedFields = HashedFields(parts: seq<Option<Json>>, serviceName: string, replicas: int)

  type Hasher = HashedFields -> string

  function HashedFieldsOf(t: Json): HashedFields {
    HashedFields(seq(|HASHED|, i requires 0 <= i < |HASHED| => At(t, HASHED[i])),
                 AtomAt(t, SERVICE),
                 match Replicas(t) case Some(n) => n case None => -1)
  }

  /** The hash of the expected object, and whether it is the hash of the actual one.  A hash that is
      already noted on an object is believed. */
  function StatefulSetDeepEqual(hash: Hasher, expected: Json, actual: Json): (string, bool) {
    var h := if At(expected, HASH).Some? then AtomAt(expected, HASH) else hash(HashedFieldsOf(expected));
    var prior := if At(actual, HASH).Some? then AtomAt(actual, HASH) else hash(HashedFieldsOf(actual));
    (h, h == prior && AtomAt(expected, NAMESPACE) == AtomAt(actual, NAMESPACE))
  }

  // ---- the API server ----

  /** The calls of one apply that fail, what the server fills in, and what another actor writes
      between the two writes. */
  datatype Weather = Weather(getOk: bool, writeOk: bool, fill: Json, between: Option<Doc>, recordOk: bool)

  function Stored0(tree: Doc): Stored {
    Stored(tree, false, 1, StsStatus(0, 0, 0, "", ""))
  }

  /** A write of a new tree.  A deleted object without finalizers goes away. */
  function Rewritten(s: Stored, tree: Doc): Option<Stored> {
    if s.deleting && !HasFinalizers(tree) then None
    else Some(s.(tree := tree, generation := s.generation + if At(tree, SPEC) == At(s.tree, SPEC) then 0 else 1))
  }

  class StatefulSetStore {
    var obj: Option<Stored>

    constructor ()
      ensures obj == None
    {
      obj := None;
    }

    method Create(tree: Doc, fill: Json, ok: bool) returns (err: bool)
      requires obj.None?
      modifies this
      ensures err == !ok
      ensures obj == if ok then Some(Stored0(Defaulted(tree, fill))) else None
    {
      if ok {
        obj := Some(Stored0(Defaulted(tree, fill)));
      }
      err := !ok;
    }

    method Patch(patch: Doc, fill: Json, ok: bool) returns (err: bool)
      requires obj.Some?
      modifies this
      ensures err == !ok
      ensures obj == if ok then Rewritten(old(obj).value, Defaulted(ApplyPatch(old(obj).value.tree, patch), fill)) else old(obj)
    {
      if ok {
        obj := Rewritten(obj.value, Defaulted(ApplyPatch(obj.value.tree, patch), fill));
      }
      err := !ok;
    }

    method Update(tree: Doc, ok: bool) returns (err: bool)
      requires obj.Some?
      modifies this
      ensures err == !ok
      ensures obj == if ok then Rewritten(old(obj).value, tree) else old(obj)
    {
      if ok {
        obj := Rewritten(obj.value, tree);
      }
      err := !ok;
    }
  }

  // ---- one apply, as a function ----

  datatype Outcome = Failed | Created | Cleared | Refused | Unchanged | Patched | Unrecorded

  /** The tree that a patch last applied; the empty object when the annotation is missing or blank,
      nothing when it holds no JSON object. */
  function LastApplied(t: Json): Option<Doc> {
    match At(t, LAST)
    case None => Some(EMPTY)
    case Some(Text(doc)) => if doc.Obj? then Some(doc) else None
    case Some(Atom(s)) => if s == "" then Some(EMPTY) else None
    case _ => None
  }

  /** The expected object after what creation fixed has been copied from the actual one. */
  function Aligned(want: Doc, actual: Json): Doc {
    SetAt(if AtomAt(actual, POLICY) == ORDERED then SetAt(want, POLICY, Atom(ORDERED)) else want,
          SERVICE, Atom(AtomAt(actual, SERVICE)))
  }

  /** The object that a patch is computed from, with its hash noted on it. */
  function Sent(hash: Hasher, want: Doc, actual: Json): Doc {
    var e := Aligned(want, actual);
    SetAt(e, HASH, Atom(StatefulSetDeepEqual(hash, e, actual).0))
  }

  predicate ScaleTo1Refused(want: Json, actual: Json) {
    && Replicas(actual).Some? && Replicas(actual).value > 1
    && (Replicas(want).None? || Replicas(want).value == 1)
  }

  function Record(s: Stored, e: Doc, w: Weather): (Option<Stored>, Outcome) {
    var s1 := if w.between.Some? then Rewritten(s, w.between.value) else Some(s);
    if s1.None? || !w.recordOk then (s1, Unrecorded)
    else (Rewritten(s1.value, SetAt(s1.value.tree, LAST, Text(e))), Patched)
  }

  function PatchOf(e: Doc, s: Stored, w: Weather): (Option<Stored>, Outcome) {
    if LastApplied(s.tree).None? then (Some(s), Failed) else
    var patch := ThreeWayPatch(LastApplied(s.tree).value, e, s.tree);
    if patch == EMPTY then (Some(s), Unchanged)
    else if !w.writeOk then (Some(s), Failed)
    else
      var s1 := Rewritten(s, Defaulted(ApplyPatch(s.tree, patch), w.fill));
      if s1.None? then (None, Unrecorded) else Record(s1.value, e, w)
  }

  function Apply(hash: Hasher, want: Doc, enableScaleTo1: bool, obj: Option<Stored>, w: Weather): (Option<Stored>, Outcome) {
    if !w.getOk then (obj, Failed)
    else if obj.None? then
      if w.writeOk then (Some(Stored0(Defaulted(SetAt(want, LAST, Text(want)), w.fill))), Created) else (None, Failed)
    else ApplyExisting(hash, want, enableScaleTo1, obj.value, w)
  }

  function ApplyExisting(hash: Hasher, want: Doc, enableScaleTo1: bool, s: Stored, w: Weather): (Option<Stored>, Outcome) {
    if s.deleting && HasFinalizers(s.tree) then
      if w.writeOk then (Rewritten(s, RemoveAt(s.tree, FINALIZERS)), Cleared) else (Some(s), Failed)
    else if !enableScaleTo1 && ScaleTo1Refused(want, s.tree) then (Some(s), Refused)
    else if StatefulSetDeepEqual(hash, Aligned(want, s.tree), s.tree).1 then (Some(s), Unchanged)
    else PatchOf(Sent(hash, want, s.tree), s, w)
  }

  /** The caller's object after the call: creation adds the annotation to it, a patch aligns it with
      the actual object and notes its hash. */
  function ExpectedAfter(hash: Hasher, want: Doc, enableScaleTo1: bool, obj: Option<Stored>, w: Weather): Doc {
    if !w.getOk then want
    else if obj.None? then SetAt(want, LAST, Text(want))
    else if obj.value.deleting && HasFinalizers(obj.value.tree) then want
    else if !enableScaleTo1 && ScaleTo1Refused(want, obj.value.tree) then want
    else if StatefulSetDeepEqual(hash, Aligned(want, obj.value.tree), obj.value.tree).1 then Aligned(want, obj.value.tree)
    else Sent(hash, want, obj.value.tree)
  }

  // ---- one apply, step by step ----

  method PatchByThreeWayMerge(store: StatefulSetStore, expected: Doc, actual: Stored, w: Weather) returns (outcome: Outcome)
    requires store.obj == Some(actual)
    modifies store
    ensures (store.obj, outcome) == PatchOf(expected, actual, w)
  {
    var last := LastApplied(actual.tree);
    if last.None? {
      return Failed;
    }
    var patch := ThreeWayPatch(last.value, expected, actual.tree);
    if patch == EMPTY {
      return Unchanged;
    }
    var err := store.Patch(patch, w.fill, w.writeOk);
    if err {
      return Failed;
    }
    if store.obj.None? {
      return Unrecorded;
    }
    outcome := RecordLastApplied(store, expected, w);
  }

  /** The second write starts from what the server has by then. */
  method RecordLastApplied(store: StatefulSetStore, expected: Doc, w: Weather) returns (outcome: Outcome)
    requires store.obj.Some?
    modifies store
    ensures (store.obj, outcome) == Record(old(store.obj).value, expected, w)
  {
    if w.between.Some? {
      var _ := store.Update(w.between.value, true);
    }
    if store.obj.None? {
      return Unrecorded;
    }
    var err := store.Update(SetAt(store.obj.value.tree, LAST, Text(expected)), w.recordOk);
    return if err then Unrecorded else Patched;
  }

  /** `expected` is the caller's object as the call leaves it. */
  method ApplyStatefulSet(store: StatefulSetStore, hash: Hasher, want: Doc, enableScaleTo1: bool, w: Weather)
    returns (outcome: Outcome, expected: Doc)
    modifies store
    ensures (store.obj, outcome) == Apply(hash, want, enableScaleTo1, old(store.obj), w)
    ensures expected == ExpectedAfter(hash, want, enableScaleTo1, old(store.obj), w)
  {
    expected := want;
    if !w.getOk {
      return Failed, expected;
    }
    if store.obj.None? {
      expected := SetAt(expected, LAST, Text(want));
      var err := store.Create(expected, w.fill, w.writeOk);
      return (if err then Failed else Created), expected;
    }
    outcome, expected := UpdateStatefulSet(store, hash, want, enableScaleTo1, w);
  }

  method UpdateStatefulSet(store: StatefulSetStore, hash: Hasher, want: Doc, enableScaleTo1: bool, w: Weather)
    returns (outcome: Outcome, expected: Doc)
    requires w.getOk && store.obj.Some?
    modifies store
    ensures (store.obj, outcome) == ApplyExisting(hash, want, enableScaleTo1, old(store.obj).value, w)
    ensures expected == ExpectedAfter(hash, want, enableScaleTo1, old(store.obj), w)
  {
    hide At, SetAt, RemoveAt, PatchOf, StatefulSetDeepEqual, HasFinalizers, AtomAt, Replicas, Rewritten;
    expected := want;
    var actual := store.obj.value;
    if actual.deleting && HasFinalizers(actual.tree) {
      var err := store.Update(RemoveAt(actual.tree, FINALIZERS), w.writeOk);
      return (if err then Failed else Cleared), expected;
    }
    if !enableScaleTo1 {
      if Replicas(actual.tree).Some? && Replicas(actual.tree).value > 1 {
        if Replicas(want).None? || Replicas(want).value == 1 {
          return Refused, expected;
        }
      }
    }
    if AtomAt(actual.tree, POLICY) == ORDERED {
      expected := SetAt(expected, POLICY, Atom(ORDERED));
    }
    expected := SetAt(expected, SERVICE, Atom(AtomAt(actual.tree, SERVICE)));
    var (newHash, same) := StatefulSetDeepEqual(hash, expected, actual.tree);
    if same {
      return Unchanged, expected;
    }
    expected := SetAt(expected, HASH, Atom(newHash));
    outcome := PatchByThreeWayMerge(store, expected, actual, w);
  }
}
