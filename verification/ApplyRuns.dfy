/** Whole runs of applies to one StatefulSet, interleaved with writes by other actors. */
module ApplyRuns {
  import opened Options
  import opened Json
  import opened ThreeWayMerge
  import opened StatefulSets
  import opened ApplyEffects

  datatype Event =
    | Sync(want: Doc, enableScaleTo1: bool, w: Weather)
    | Foreign(tree: Doc)
    | MarkDeleted

  function Step(hash: Hasher, obj: Option<Stored>, ev: Event): (Option<Stored>, Outcome) {
    match ev
    case Sync(want, enable, w) => Apply(hash, want, enable, obj, w)
    case Foreign(t) => (if obj.Some? then Rewritten(obj.value, t) else None, Failed)
    case MarkDeleted => (if obj.Some? && HasFinalizers(obj.value.tree) then Some(obj.value.(deleting := true)) else None, Failed)
  }

  // ---- provenance of everything stored ----

  ghost function PathsOf(t: Json): iset<Path> { iset p | At(t, p).Some? }

  /** The stored object with the two kinds of paths in it that the operator does not own: those that
      other actors or server defaulting added, and those that a patch set whose record was never
      written.  A path leaves both when it leaves the object or a recorded tree takes it over. */
  datatype World = World(obj: Option<Stored>, others: iset<Path>, unrecorded: iset<Path>)

  ghost const START := World(None, iset{}, iset{})

  /** The paths that other actors, and server defaulting, add in a step. */
  ghost function Added(hash: Hasher, obj: Option<Stored>, ev: Event): iset<Path> {
    var outcome := Step(hash, obj, ev).1;
    match ev
    case Foreign(t) => if obj.Some? then PathsOf(t) - PathsOf(obj.value.tree) else iset{}
    case Sync(want, _, w) =>
      if outcome == Created then PathsOf(Defaulted(SetAt(want, LAST, Text(want)), w.fill)) - PathsOf(SetAt(want, LAST, Text(want)))
      else if outcome in {Patched, Unrecorded} && obj.Some? && LastApplied(obj.value.tree).Some? then
        (PathsOf(PatchedTree(hash, want, obj.value, w.fill)) - PathsOf(PatchedTree(hash, want, obj.value, Null))) +
        (if w.between.Some? then PathsOf(w.between.value) - PathsOf(PatchedTree(hash, want, obj.value, w.fill)) else iset{})
      else iset{}
    case MarkDeleted => iset{}
  }

  /** The paths that a patch sets without being able to record them. */
  ghost function Lost(hash: Hasher, obj: Option<Stored>, ev: Event): iset<Path> {
    if ev.Sync? && Step(hash, obj, ev).1 == Unrecorded && obj.Some? && LastApplied(obj.value.tree).Some?
    then PathsOf(Sent(hash, ev.want, obj.value.tree)) - PathsOf(LastApplied(obj.value.tree).value)
    else iset{}
  }

  /** The paths that a step sets and records. */
  ghost function Owned(hash: Hasher, obj: Option<Stored>, ev: Event): iset<Path> {
    var outcome := Step(hash, obj, ev).1;
    if !ev.Sync? then iset{}
    else if outcome == Created then PathsOf(ev.want)
    else if outcome == Patched && obj.Some? then PathsOf(Sent(hash, ev.want, obj.value.tree))
    else iset{}
  }

  ghost function Evolve(hash: Hasher, v: World, ev: Event): World {
    var obj := Step(hash, v.obj, ev).0;
    var here := if obj.Some? then PathsOf(obj.value.tree) else iset{};
    var owned := Owned(hash, v.obj, ev);
    World(obj, (v.others + Added(hash, v.obj, ev)) * here - owned, (v.unrecorded + Lost(hash, v.obj, ev)) * here - owned)
  }

  ghost function Run(hash: Hasher, v: World, evs: seq<Event>): World
    decreases |evs|
  {
    if evs == [] then v else Run(hash, Evolve(hash, v, evs[0]), evs[1..])
  }

  /** Other actors may write anything but the last applied configuration. */
  predicate Legal(obj: Option<Stored>, ev: Event) {
    match ev
    case Sync(want, _, w) =>
      && Desired(want) && At(w.fill, LAST).None?
      && (obj.Some? && w.between.Some? ==> At(w.between.value, LAST) == At(obj.value.tree, LAST))
    case Foreign(t) => obj.Some? ==> At(t, LAST) == At(obj.value.tree, LAST)
    case MarkDeleted => true
  }

  ghost predicate LegalRun(hash: Hasher, v: World, evs: seq<Event>)
    decreases |evs|
  {
    evs == [] || (Legal(v.obj, evs[0]) && LegalRun(hash, Evolve(hash, v, evs[0]), evs[1..]))
  }

  ghost predicate Accounted(v: World, p: Path)
    requires v.obj.Some? && LastApplied(v.obj.value.tree).Some?
  {
    At(v.obj.value.tree, p).Some? && !(p <= LAST) ==>
      At(LastApplied(v.obj.value.tree).value, p).Some? || p in v.others || p in v.unrecorded
  }

  ghost predicate Inv(v: World) {
    v.obj.Some? ==>
      && LastApplied(v.obj.value.tree).Some?
      && At(LastApplied(v.obj.value.tree).value, LAST).None?
      && forall p :: Accounted(v, p)
  }

  lemma {:induction false} ApartOrPrefix(p: Path, q: Path)
    ensures Apart(p, q) || p <= q || q <= p
    decreases |p|
  {
    if p != [] && q != [] && p[0] == q[0] {
      ApartOrPrefix(p[1..], q[1..]);
      if p[1..] <= q[1..] { assert p == [p[0]] + p[1..] && q == [q[0]] + q[1..]; }
      if q[1..] <= p[1..] { assert p == [p[0]] + p[1..] && q == [q[0]] + q[1..]; }
    }
  }

  lemma {:induction false} NothingBelow(j: Json, p: Path, q: Path)
    requires p <= q && p != q && At(j, p).Some? && !At(j, p).value.Obj?
    ensures At(j, q).None?
    decreases |p|
  {
    if p != [] {
      NothingBelow(j.fields[p[0]], p[1..], q[1..]);
    }
  }

  /** Recording changes no path that is not on the way to the record itself. */
  lemma RecordAt(t: Json, doc: Json, p: Path)
    requires !(p <= LAST)
    ensures At(SetAt(t, LAST, Text(doc)), p).Some? ==> At(SetAt(t, LAST, Text(doc)), p) == At(t, p)
  {
    ApartOrPrefix(LAST, p);
    SetAtSame(t, LAST, Text(doc));
    if Apart(LAST, p) {
      SetAtApart(t, LAST, Text(doc), p);
    } else {
      NothingBelow(SetAt(t, LAST, Text(doc)), LAST, p);
    }
  }

  lemma {:induction false} DroppedHere(last: Json, want: Json, p: Path)
    requires Dropped(last, want, p) && At(want, p[..|p| - 1]).Some?
    ensures At(last, p).Some?
    decreases |p|
  {
    if |p| > 1 {
      assert p[..|p| - 1][1..] == p[1..][..|p[1..]| - 1];
      DroppedHere(last.fields[p[0]], want.fields[p[0]], p[1..]);
    } else {
      assert p[1..] == [];
    }
  }

  /** A patch does not touch the record of the previous one. */
  lemma PatchKeepsRecord(hash: Hasher, want: Doc, s: Stored, fill: Json)
    requires Desired(want) && LastApplied(s.tree).Some? && At(LastApplied(s.tree).value, LAST).None?
    requires At(fill, LAST).None?
    ensures At(PatchedTree(hash, want, s, fill), LAST) == At(s.tree, LAST)
  {
    var e, last := Sent(hash, want, s.tree), LastApplied(s.tree).value;
    SentFacts(hash, want, s.tree);
    PatchedAt(hash, want, s, fill, LAST);
    AnnotationsKept(last, e);
  }

  lemma AnnotationsKept(last: Json, e: Json)
    requires At(e, HASH).Some? && At(last, LAST).None?
    ensures !Dropped(last, e, LAST)
  {
    if Dropped(last, e, LAST) {
      PrefixSome(e, HASH);
      assert LAST[..|LAST| - 1] == ANNOTATIONS == HASH[..|HASH| - 1];
      DroppedHere(last, e, LAST);
    }
  }

  lemma {:induction false} PrefixSome(j: Json, p: Path)
    requires At(j, p).Some? && p != []
    ensures At(j, p[..|p| - 1]).Some?
    decreases |p|
  {
    if |p| > 1 {
      assert p[..|p| - 1][1..] == p[1..][..|p[1..]| - 1];
      PrefixSome(j.fields[p[0]], p[1..]);
    }
  }

  lemma PatchAccounted(hash: Hasher, v: World, want: Doc, p: Path)
    requires Inv(v) && v.obj.Some? && Desired(want) && !(p <= LAST)
    requires At(PatchedTree(hash, want, v.obj.value, Null), p).Some?
    ensures p in v.others || p in v.unrecorded || At(Sent(hash, want, v.obj.value.tree), p).Some?
  {
    var s := v.obj.value;
    var e, last := Sent(hash, want, s.tree), LastApplied(s.tree).value;
    assert p != [];
    PatchedAt(hash, want, s, Null, p);
    if At(e, p).None? && At(s.tree, p).Some? && !Dropped(last, e, p) {
      assert Accounted(v, p);
      if At(last, p).Some? {
        DroppedIff(last, e, p);
      }
    }
  }

  /** The first write of a patch, with whatever another actor wrote right after it. */
  lemma BetweenWrites(hash: Hasher, v: World, want: Doc, w: Weather, p: Path)
    requires Inv(v) && v.obj.Some? && Legal(v.obj, Sync(want, true, w))
    ensures var t := HalfWay(hash, want, v.obj.value, w);
      && At(t, LAST) == At(v.obj.value.tree, LAST)
      && (!(p <= LAST) && At(t, p).Some? ==>
            || p in v.others || p in v.unrecorded
            || p in PathsOf(PatchedTree(hash, want, v.obj.value, w.fill)) - PathsOf(PatchedTree(hash, want, v.obj.value, Null))
            || (w.between.Some? && p in PathsOf(t) - PathsOf(PatchedTree(hash, want, v.obj.value, w.fill)))
            || At(Sent(hash, want, v.obj.value.tree), p).Some?)
  {
    PatchKeepsRecord(hash, want, v.obj.value, w.fill);
    if !(p <= LAST) && At(PatchedTree(hash, want, v.obj.value, Null), p).Some? {
      PatchAccounted(hash, v, want, p);
    }
  }

  lemma CreateInv(hash: Hasher, v: World, ev: Event)
    requires ev.Sync? && Legal(v.obj, ev) && Step(hash, v.obj, ev).1 == Created
    ensures Inv(Evolve(hash, v, ev))
  {
    hide At, SetAt, Defaulted, LeafOn, Apart;
    var v', want := Evolve(hash, v, ev), ev.want;
    var t0 := SetAt(want, LAST, Text(want));
    SetAtSame(want, LAST, Text(want));
    LeafEnds(t0, LAST);
    DefaultedAt(t0, ev.w.fill, LAST);
    DesiredFacts(want, LAST);
    forall p ensures Accounted(v', p) {
      DefaultedAt(t0, ev.w.fill, p);
      if !(p <= LAST) {
        RecordAt(want, want, p);
      }
    }
  }

  /** The tree between the two writes of a patch. */
  function HalfWay(hash: Hasher, want: Doc, s: Stored, w: Weather): Doc
    requires LastApplied(s.tree).Some?
  {
    if w.between.Some? then w.between.value else PatchedTree(hash, want, s, w.fill)
  }

  lemma PatchOutcome(hash: Hasher, obj: Option<Stored>, want: Doc, enableScaleTo1: bool, w: Weather)
    requires Desired(want) && Apply(hash, want, enableScaleTo1, obj, w).1 in {Patched, Unrecorded}
    ensures obj.Some? && LastApplied(obj.value.tree).Some?
    ensures var (obj', outcome) := Apply(hash, want, enableScaleTo1, obj, w);
      var t := HalfWay(hash, want, obj.value, w);
      && (outcome == Patched && obj'.Some? ==> obj'.value.tree == SetAt(t, LAST, Text(Sent(hash, want, obj.value.tree))))
      && (outcome == Unrecorded && obj'.Some? ==> obj'.value.tree == t)
  {
    hide At, SetAt, Sent, PatchedTree, Desired, StatefulSetDeepEqual;
    ApplyExistingIs(hash, want, enableScaleTo1, obj.value, w);
  }

  lemma RecordedAs(t: Doc, doc: Doc)
    ensures LastApplied(SetAt(t, LAST, Text(doc))) == Some(doc)
  {
    SetAtSame(t, LAST, Text(doc));
  }

  lemma PatchAccounts(hash: Hasher, v: World, ev: Event, p: Path)
    requires ev.Sync? && Inv(v) && Legal(v.obj, ev) && Step(hash, v.obj, ev).1 in {Patched, Unrecorded}
    requires var v' := Evolve(hash, v, ev); v'.obj.Some? && LastApplied(v'.obj.value.tree).Some?
    ensures Accounted(Evolve(hash, v, ev), p)
  {
    hide At, SetAt, Sent, PatchedTree, Apply, LeafOn, Apart;
    PatchOutcome(hash, v.obj, ev.want, ev.enableScaleTo1, ev.w);
    BetweenWrites(hash, v, ev.want, ev.w, p);
    var s := v.obj.value;
    var t, e := HalfWay(hash, ev.want, s, ev.w), Sent(hash, ev.want, s.tree);
    RecordedAs(t, e);
    if !(p <= LAST) {
      RecordAt(t, e, p);
    }
  }

  lemma PatchInv(hash: Hasher, v: World, ev: Event)
    requires ev.Sync? && Inv(v) && Legal(v.obj, ev) && Step(hash, v.obj, ev).1 in {Patched, Unrecorded}
    ensures Inv(Evolve(hash, v, ev))
  {
    hide At, SetAt, Sent, PatchedTree, Apply, LeafOn, Apart, Accounted, Desired;
    PatchOutcome(hash, v.obj, ev.want, ev.enableScaleTo1, ev.w);
    var v', s := Evolve(hash, v, ev), v.obj.value;
    var t, e := HalfWay(hash, ev.want, s, ev.w), Sent(hash, ev.want, s.tree);
    RecordedAs(t, e);
    SentFacts(hash, ev.want, s.tree);
    BetweenWrites(hash, v, ev.want, ev.w, []);
    if v'.obj.Some? {
      forall p ensures Accounted(v', p) {
        PatchAccounts(hash, v, ev, p);
      }
    }
  }

  lemma EvolveInv(hash: Hasher, v: World, ev: Event)
    requires Inv(v) && Legal(v.obj, ev)
    ensures Inv(Evolve(hash, v, ev))
  {
    var v' := Evolve(hash, v, ev);
    match ev
    case Sync(want, enable, w) =>
      var outcome := Step(hash, v.obj, ev).1;
      if outcome == Created {
        CreateInv(hash, v, ev);
      } else if outcome in {Patched, Unrecorded} {
        PatchInv(hash, v, ev);
      } else if v.obj.Some? {
        ApplyExistingIs(hash, want, enable, v.obj.value, w);
        assert v'.obj.Some? ==> forall p :: Accounted(v, p) ==> Accounted(v', p);
      }
    case Foreign(t) =>
      if v'.obj.Some? {
        forall p ensures Accounted(v', p) {
          assert Accounted(v, p);
        }
      }
    case MarkDeleted =>
      assert v'.obj.Some? ==> forall p :: Accounted(v, p) ==> Accounted(v', p);
  }

  /** Over every run of creates, patches, failed calls, deletions and writes by other actors, everything
      stored is accounted for: it is in the last applied tree; or another actor or the server added it
      since the operator last owned it; or a patch set it whose record was never written, and no
      recorded patch has taken it over since. */
  lemma {:induction false} NoOrphans(hash: Hasher, v: World, evs: seq<Event>)
    requires Inv(v) && LegalRun(hash, v, evs)
    ensures Inv(Run(hash, v, evs))
    decreases |evs|
  {
    if evs != [] {
      EvolveInv(hash, v, evs[0]);
      NoOrphans(hash, Evolve(hash, v, evs[0]), evs[1..]);
    }
  }

  predicate IsLeaf(t: Json, p: Path) {
    At(t, p).Some? && !At(t, p).value.Obj?
  }

  /** A completed patch, in any world that a run can reach: the desired values are stored; a path that
      is not desired is there only if another actor or the server added it after the operator last
      owned it, or a patch set it whose record is still missing; and what the operator never set keeps
      its value. */
  lemma AfterPatch(hash: Hasher, v: World, want: Doc, enableScaleTo1: bool, w: Weather, p: Path)
    requires Inv(v) && Legal(v.obj, Sync(want, enableScaleTo1, w))
    requires w.between.None? && !(p <= LAST)
    requires Step(hash, v.obj, Sync(want, enableScaleTo1, w)).1 == Patched
    ensures var v' := Evolve(hash, v, Sync(want, enableScaleTo1, w));
      var before, e := v.obj.value.tree, Sent(hash, want, v.obj.value.tree);
      v'.obj.Some? ==> var t := v'.obj.value.tree;
      && LastApplied(t) == Some(e)
      && (At(e, p).Some? && !At(e, p).value.Obj? ==> At(t, p) == At(e, p))
      && (At(e, p).None? && At(t, p).Some? ==> p in v'.others || p in v'.unrecorded)
      && (At(e, p).None? && !LeafOn(e, p) && !Dropped(LastApplied(before).value, e, p) && IsLeaf(before, p) ==>
            At(t, p) == At(before, p))
  {
    hide At, SetAt, Sent, PatchedTree, LeafOn, Apart, Patches, Dropped;
    hide Apply;
    PatchOutcome(hash, v.obj, want, enableScaleTo1, w);
    var s, ev := v.obj.value, Sync(want, enableScaleTo1, w);
    var e := Sent(hash, want, s.tree);
    EvolveInv(hash, v, ev);
    if Evolve(hash, v, ev).obj.Some? {
      assert Accounted(Evolve(hash, v, ev), p);
      RecordedAs(PatchedTree(hash, want, s, w.fill), e);
      PatchedAt(hash, want, s, w.fill, p);
      PatchKeepsRecord(hash, want, s, w.fill);
      KeptByRecord(PatchedTree(hash, want, s, w.fill), e, p);
      if IsLeaf(e, p) {
        LeafEnds(e, p);
      }
    }
  }

  /** Along a run nobody but the operator adds `p`, and no patch that sets it loses its record. */
  ghost predicate NobodyAdds(hash: Hasher, v: World, evs: seq<Event>, p: Path)
    decreases |evs|
  {
    evs == [] ||
      (p !in Added(hash, v.obj, evs[0]) && p !in Lost(hash, v.obj, evs[0]) && NobodyAdds(hash, Evolve(hash, v, evs[0]), evs[1..], p))
  }

  lemma {:induction false} StaysClean(hash: Hasher, v: World, evs: seq<Event>, p: Path)
    requires p !in v.others && p !in v.unrecorded && NobodyAdds(hash, v, evs, p)
    ensures p !in Run(hash, v, evs).others && p !in Run(hash, v, evs).unrecorded
    decreases |evs|
  {
    if evs != [] {
      StaysClean(hash, Evolve(hash, v, evs[0]), evs[1..], p);
    }
  }

  /** What the operator once set and recorded, at any point of any run from scratch, a later completed
      patch that does not want it removes, whatever happened before, provided that nobody added the
      path again in between.  Crashes before, and crashes of patches that do not set it, do no harm. */
  lemma UnsetIsGone(hash: Hasher, evs: seq<Event>, setting: Event, later: seq<Event>, unsetting: Event, p: Path)
    requires unsetting.Sync? && unsetting.w.between.None? && !(p <= LAST)
    requires LegalRun(hash, START, evs)
    requires var v := Run(hash, START, evs); Legal(v.obj, setting) && p in Owned(hash, v.obj, setting)
    requires var v := Evolve(hash, Run(hash, START, evs), setting);
      && LegalRun(hash, v, later) && NobodyAdds(hash, v, later, p)
      && var v' := Run(hash, v, later);
         && Legal(v'.obj, unsetting) && Step(hash, v'.obj, unsetting).1 == Patched
         && p !in Owned(hash, v'.obj, unsetting) && p !in Added(hash, v'.obj, unsetting)
    ensures var v := Run(hash, Evolve(hash, Run(hash, START, evs), setting), later);
      var obj := Step(hash, v.obj, unsetting).0;
      obj.Some? ==> At(obj.value.tree, p).None?
  {
    hide At, Sent, PatchedTree, Step, Legal, LeafOn, Dropped;
    hide Added, Lost;
    var v0 := Run(hash, START, evs);
    NoOrphans(hash, START, evs);
    EvolveInv(hash, v0, setting);
    var v1 := Evolve(hash, v0, setting);
    NoOrphans(hash, v1, later);
    StaysClean(hash, v1, later, p);
    var v2 := Run(hash, v1, later);
    PatchLeavesNothing(hash, v2, unsetting, p);
  }

  lemma PatchLeavesNothing(hash: Hasher, v: World, ev: Event, p: Path)
    requires Inv(v) && Legal(v.obj, ev) && ev.Sync? && ev.w.between.None? && !(p <= LAST)
    requires Step(hash, v.obj, ev).1 == Patched && p !in Owned(hash, v.obj, ev) && p !in Added(hash, v.obj, ev)
    requires p !in v.others && p !in v.unrecorded
    ensures var obj := Step(hash, v.obj, ev).0; obj.Some? ==> At(obj.value.tree, p).None?
  {
    hide At, Sent, PatchedTree, Apply, LeafOn, Dropped, Desired;
    PatchOutcome(hash, v.obj, ev.want, ev.enableScaleTo1, ev.w);
    AfterPatch(hash, v, ev.want, ev.enableScaleTo1, ev.w, p);
  }

  lemma KeptByRecord(t: Json, doc: Json, p: Path)
    requires !(p <= LAST) && (At(t, LAST).None? || !At(t, LAST).value.Obj?)
    ensures At(SetAt(t, LAST, Text(doc)), p) == At(t, p)
  {
    ApartOrPrefix(LAST, p);
    if Apart(LAST, p) {
      SetAtApart(t, LAST, Text(doc), p);
    } else {
      SetAtSame(t, LAST, Text(doc));
      NothingBelow(SetAt(t, LAST, Text(doc)), LAST, p);
      if At(t, p).Some? { SomeAbove(t, LAST, p); NothingBelow(t, LAST, p); }
    }
  }

  lemma {:induction false} SomeAbove(j: Json, p: Path, q: Path)
    requires p <= q && At(j, q).Some?
    ensures At(j, p).Some?
    decreases |p|
  {
    if p != [] {
      SomeAbove(j.fields[p[0]], p[1..], q[1..]);
    }
  }
}
