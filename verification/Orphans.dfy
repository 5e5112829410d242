/** What a crash between the two writes of a patch costs in the long run. */
module Orphans {
  import opened Options
  import opened Json
  import opened ThreeWayMerge
  import opened StatefulSets
  import opened ApplyEffects
  import opened ApplyRuns
  import opened ApplyCache
  import opened ApplyRefinement

  /** A value is stored at `p`, and the record does not know the entry `q` that it is in, nor itself. */
  predicate Unknown(t: Json, p: Path, q: Path) {
    && q != [] && q <= p && !(p <= LAST) && IsLeaf(t, p)
    && LastApplied(t).Some? && At(LastApplied(t).value, q).None? && At(LastApplied(t).value, LAST).None?
  }

  /** The entry is not set, what it is an entry of is. */
  predicate SetsBeside(e: Json, q: Path)
    requires q != []
  {
    At(e, q).None? && !LeafOn(e, q) && At(e, q[..|q| - 1]).Some?
  }

  // ---- one merge ----

  lemma {:induction false} NotLeafBelow(e: Json, q: Path, p: Path)
    requires q <= p && At(e, q).None? && !LeafOn(e, q)
    ensures !LeafOn(e, p)
    decreases |q|
  {
    if q[0] in e.fields {
      NotLeafBelow(e.fields[q[0]], q[1..], p[1..]);
    }
  }

  lemma {:induction false} NotDroppedBelow(last: Json, e: Json, q: Path, p: Path)
    requires q != [] && q <= p && SetsBeside(e, q) && At(last, q).None?
    ensures !Dropped(last, e, p)
    decreases |q|
  {
    if |q| > 1 && p[0] in Fields(last) {
      assert q[..|q| - 1][1..] == q[1..][..|q[1..]| - 1];
      NotDroppedBelow(last.fields[q[0]], e.fields[q[0]], q[1..], p[1..]);
    } else if |q| == 1 {
      assert q[1..] == [];
    }
  }

  /** What is in an entry that is set beside is neither set nor dropped. */
  lemma Beside(last: Json, e: Json, q: Path, p: Path)
    requires q != [] && q <= p && SetsBeside(e, q) && At(last, q).None?
    ensures At(e, p).None? && !LeafOn(e, p) && !Dropped(last, e, p)
  {
    if At(e, p).Some? {
      SomeAbove(e, q, p);
    }
    NotLeafBelow(e, q, p);
    NotDroppedBelow(last, e, q, p);
  }

  lemma {:induction false} DroppedBelow(last: Json, e: Json, q: Path, p: Path)
    requires q <= p && Dropped(last, e, q)
    ensures Dropped(last, e, p)
    decreases |q|
  {
    if p[0] in e.fields {
      DroppedBelow(last.fields[q[0]], e.fields[q[0]], q[1..], p[1..]);
    }
  }

  /** The other way an orphan can go: with an entry that the record knows and the next patch does not want,
      everything in it is removed, recorded or not. */
  lemma GoesWithItsEntry(hash: Hasher, want: Doc, s: Stored, fill: Json, p: Path, q: Path)
    requires Desired(want) && LastApplied(s.tree).Some? && q <= p && At(LastApplied(s.tree).value, q).Some?
    requires At(Sent(hash, want, s.tree), q).None? && !LeafOn(Sent(hash, want, s.tree), q)
    ensures var t := PatchedTree(hash, want, s, fill); At(t, p).None? || At(t, p) == At(fill, p)
  {
    hide At, Sent, PatchedTree, LeafOn, Desired, Dropped;
    var e, last := Sent(hash, want, s.tree), LastApplied(s.tree).value;
    DroppedIff(last, e, q);
    DroppedBelow(last, e, q, p);
    if At(e, p).Some? {
      SomeAbove(e, q, p);
    }
    NotLeafBelow(e, q, p);
    PatchedAt(hash, want, s, fill, p);
  }

  // ---- runs ----

  /** Every desired object leaves the entry out and sets what it is an entry of; nobody else touches the
      path or the record. */
  predicate LeavesAlone(hash: Hasher, obj: Option<Stored>, ev: Event, p: Path, q: Path)
    requires q != []
  {
    match ev
    case Sync(want, _, w) =>
      && Desired(want) && At(w.fill, LAST).None?
      && (obj.Some? && LastApplied(obj.value.tree).Some? ==>
            && SetsBeside(Sent(hash, want, obj.value.tree), q)
            && (w.between.Some? ==>
                  At(w.between.value, LAST) == At(obj.value.tree, LAST) &&
                  At(w.between.value, p) == At(PatchedTree(hash, want, obj.value, w.fill), p)))
    case Foreign(t) => obj.Some? ==> At(t, p) == At(obj.value.tree, p) && At(t, LAST) == At(obj.value.tree, LAST)
    case MarkDeleted => true
  }

  predicate LeavesAloneRun(hash: Hasher, obj: Option<Stored>, evs: seq<Event>, p: Path, q: Path)
    requires q != []
    decreases |evs|
  {
    evs == [] || (LeavesAlone(hash, obj, evs[0], p, q) && LeavesAloneRun(hash, Step(hash, obj, evs[0]).0, evs[1..], p, q))
  }

  lemma PatchLeavesUnknown(hash: Hasher, want: Doc, s: Stored, fill: Json, p: Path, q: Path)
    requires Desired(want) && Unknown(s.tree, p, q) && At(fill, LAST).None?
    requires SetsBeside(Sent(hash, want, s.tree), q)
    ensures var t := PatchedTree(hash, want, s, fill);
      At(t, p) == At(s.tree, p) && At(t, LAST) == At(s.tree, LAST)
  {
    hide At, Sent, PatchedTree, LeafOn, Desired, SetsBeside, Dropped;
    Beside(LastApplied(s.tree).value, Sent(hash, want, s.tree), q, p);
    PatchedAt(hash, want, s, fill, p);
    PatchKeepsRecord(hash, want, s, fill);
  }

  lemma RecordLeavesUnknown(hash: Hasher, want: Doc, actual: Json, t: Doc, p: Path, q: Path)
    requires Desired(want) && Unknown(t, p, q) && At(Sent(hash, want, actual), q).None?
    ensures var t' := SetAt(t, LAST, Text(Sent(hash, want, actual))); Unknown(t', p, q) && At(t', p) == At(t, p)
  {
    hide Sent, SetAt, Desired;
    var e := Sent(hash, want, actual);
    SentFacts(hash, want, actual);
    RecordedAs(t, e);
    KeptByRecord(t, e, p);
  }

  lemma SyncLeavesUnknown(hash: Hasher, s: Stored, want: Doc, enable: bool, w: Weather, p: Path, q: Path)
    requires Unknown(s.tree, p, q) && LeavesAlone(hash, Some(s), Sync(want, enable, w), p, q)
    requires Patches(hash, want, enable, s, w)
    ensures var obj := Apply(hash, want, enable, Some(s), w).0;
      obj.Some? ==> Unknown(obj.value.tree, p, q) && At(obj.value.tree, p) == At(s.tree, p)
  {
    hide Apply, At, Sent, SetAt, PatchedTree, LeafOn, Desired, Patches;
    ApplyExistingIs(hash, want, enable, s, w);
    PatchLeavesUnknown(hash, want, s, w.fill, p, q);
    RecordLeavesUnknown(hash, want, s.tree, HalfWay(hash, want, s, w), p, q);
  }

  lemma StepLeavesUnknown(hash: Hasher, s: Stored, ev: Event, p: Path, q: Path)
    requires Unknown(s.tree, p, q) && LeavesAlone(hash, Some(s), ev, p, q)
    ensures var obj := Step(hash, Some(s), ev).0;
      obj.Some? ==> Unknown(obj.value.tree, p, q) && At(obj.value.tree, p) == At(s.tree, p)
  {
    hide Apply, At, Sent, SetAt, PatchedTree, LeafOn, Desired, Patches, SetsBeside;
    match ev
    case Sync(want, enable, w) =>
      ApplyExistingIs(hash, want, enable, s, w);
      if Patches(hash, want, enable, s, w) {
        SyncLeavesUnknown(hash, s, want, enable, w, p, q);
      }
    case _ =>
  }

  /** An unknown value stays through every run in which the object lives and everybody leaves it alone:
      patches, recorded or not, never remove it. */
  lemma {:induction false} UnknownStays(hash: Hasher, s: Stored, evs: seq<Event>, p: Path, q: Path)
    requires Unknown(s.tree, p, q) && LeavesAloneRun(hash, Some(s), evs, p, q) && Survives(hash, Some(s), evs)
    ensures var obj := RunObj(hash, Some(s), evs);
      obj.Some? && Unknown(obj.value.tree, p, q) && At(obj.value.tree, p) == At(s.tree, p)
    decreases |evs|
  {
    hide Unknown, LeavesAlone, Step, At;
    if evs != [] {
      StepLeavesUnknown(hash, s, evs[0], p, q);
      UnknownStays(hash, Step(hash, Some(s), evs[0]).0.value, evs[1..], p, q);
    }
  }

  /** What a crash orphans stays for good.  The value at `p` was set by the unrecorded patch, within an
      entry `q` that the older record does not have: a field, or a whole variable, container or volume.
      As long as no desired object sets the entry again and each still sets what it is an entry of, the
      value is there, however many patches complete. */
  lemma CrashOrphanStays(hash: Hasher, want: Doc, enableScaleTo1: bool, s: Stored, w: Weather, evs: seq<Event>, p: Path, q: Path)
    requires Crashes(hash, want, enableScaleTo1, s, w) && q != [] && q <= p && !(p <= LAST)
    requires IsLeaf(Sent(hash, want, s.tree), p) && At(LastApplied(s.tree).value, q).None?
    requires var obj := Apply(hash, want, enableScaleTo1, Some(s), w).0;
      LeavesAloneRun(hash, obj, evs, p, q) && Survives(hash, obj, evs)
    ensures var obj := RunObj(hash, Apply(hash, want, enableScaleTo1, Some(s), w).0, evs);
      obj.Some? && At(obj.value.tree, p) == At(Sent(hash, want, s.tree), p)
  {
    hide At, Sent, SetAt, PatchedTree, LeafOn, Desired, Apply;
    CrashIsNotRetried(hash, want, enableScaleTo1, s, w, enableScaleTo1, w);
    LeafEnds(Sent(hash, want, s.tree), p);
    PatchedAt(hash, want, s, w.fill, p);
    UnknownStays(hash, Apply(hash, want, enableScaleTo1, Some(s), w).0.value, evs, p, q);
  }
}
