/** The strategic three-way merge patch on trees: two diffs are computed and merged into one patch,
    and the server applies it.  `Merged` says in one step what the outcome has to be. */
module ThreeWayMerge {
  import opened Options
  import opened Json

  function DiffAdditions(cur: Json, want: Json): (d: Json)
    requires cur.Obj? && want.Obj?
    ensures d.Obj?
    decreases want
  {
    Obj(map k | k in want.fields && (
                if k in cur.fields && cur.fields[k].Obj? && want.fields[k].Obj?
                then DiffAdditions(cur.fields[k], want.fields[k]) != EMPTY
                else !(k in cur.fields && cur.fields[k] == want.fields[k])) ::
          if k in cur.fields && cur.fields[k].Obj? && want.fields[k].Obj?
          then DiffAdditions(cur.fields[k], want.fields[k])
          else want.fields[k])
  }

  function DiffDeletions(last: Json, want: Json): (d: Json)
    requires last.Obj? && want.Obj?
    ensures d.Obj?
    decreases want
  {
    Obj(map k | k in last.fields && (
                k in want.fields ==>
                  last.fields[k].Obj? && want.fields[k].Obj? && DiffDeletions(last.fields[k], want.fields[k]) != EMPTY) ::
          if k in want.fields && last.fields[k].Obj? && want.fields[k].Obj?
          then DiffDeletions(last.fields[k], want.fields[k])
          else Null)
  }

  function MergePatches(base: Json, over: Json): (p: Json)
    requires base.Obj? && over.Obj?
    ensures p.Obj?
    decreases over
  {
    Obj(map k | k in base.fields.Keys + over.fields.Keys ::
          if k !in over.fields then base.fields[k]
          else if k in base.fields && base.fields[k].Obj? && over.fields[k].Obj?
          then MergePatches(base.fields[k], over.fields[k])
          else over.fields[k])
  }

  function ThreeWayPatch(last: Json, want: Json, cur: Json): (p: Json)
    requires last.Obj? && want.Obj? && cur.Obj?
    ensures p.Obj?
  {
    MergePatches(DiffDeletions(last, want), DiffAdditions(cur, want))
  }

  /** Section 2 of RFC 7396. */
  function ApplyPatch(target: Json, patch: Json): (r: Json)
    requires patch.Obj?
    ensures r.Obj?
    decreases patch
  {
    var t := Fields(target);
    Obj(map k | k in t.Keys + patch.fields.Keys && !(k in patch.fields && patch.fields[k].Null?) ::
          if k !in patch.fields then t[k]
          else if patch.fields[k].Obj? then ApplyPatch(if k in t then t[k] else Null, patch.fields[k])
          else patch.fields[k])
  }

  function Merged(last: Json, want: Json, cur: Json): (r: Json)
    requires want.Obj?
    ensures r.Obj?
    decreases want
  {
    var l, c := Fields(last), Fields(cur);
    Obj(map k | k in want.fields.Keys + c.Keys && (k in want.fields || k !in l) ::
          if k !in want.fields then c[k]
          else if want.fields[k].Obj?
          then Merged(if k in l then l[k] else Null, want.fields[k], if k in c then c[k] else Null)
          else want.fields[k])
  }

  lemma {:induction false} MergePatchesEmpty(base: Json, over: Json)
    requires base.Obj? && over.Obj?
    ensures MergePatches(base, EMPTY) == base
    ensures MergePatches(EMPTY, over) == over
  {
    assert MergePatches(base, EMPTY).fields == base.fields;
    assert MergePatches(EMPTY, over).fields == over.fields;
  }

  // want added over something that is not an object
  lemma {:induction false} ApplyWhole(last: Json, want: Json, cur: Json)
    requires last.Obj? && CleanObj(want) && !cur.Obj?
    ensures ApplyPatch(cur, MergePatches(DiffDeletions(last, want), want)) == Merged(last, want, cur)
    decreases want
  {
    var patch := MergePatches(DiffDeletions(last, want), want);
    var r, m := ApplyPatch(cur, patch).fields, Merged(last, want, cur).fields;
    forall k ensures k in r <==> k in m
             ensures k in r && k in m ==> r[k] == m[k]
    {
      var d := DiffDeletions(last, want).fields;
      assert k in last.fields && k !in want.fields ==> k in d && d[k] == Null;
      assert k in patch.fields ==> k in want.fields || k in last.fields;
      if k in want.fields {
        var w := want.fields[k];
        assert Clean(w);
        if w.Obj? {
          var l := if k in last.fields && last.fields[k].Obj? then last.fields[k] else EMPTY;
          ApplyWhole(l, w, Null);
          MergePatchesEmpty(w, w);
          assert DiffDeletions(EMPTY, w) == EMPTY;
          assert patch.fields[k] == MergePatches(DiffDeletions(l, w), w);
          MergedNonObject(if k in last.fields then last.fields[k] else Null, w, Null);
        }
      }
    }
    assert r == m;
  }

  // Merged looks only at the fields of last and cur
  lemma MergedNonObject(last: Json, want: Json, cur: Json)
    requires want.Obj?
    ensures !last.Obj? ==> Merged(last, want, cur) == Merged(EMPTY, want, cur)
    ensures !cur.Obj? ==> Merged(last, want, cur) == Merged(last, want, EMPTY)
  {}

  lemma {:induction false} MergeRefines(last: Json, want: Json, cur: Json)
    requires last.Obj? && CleanObj(want) && cur.Obj?
    ensures ApplyPatch(cur, ThreeWayPatch(last, want, cur)) == Merged(last, want, cur)
    decreases want
  {
    var patch := ThreeWayPatch(last, want, cur);
    var r, m := ApplyPatch(cur, patch).fields, Merged(last, want, cur).fields;
    forall k ensures k in r <==> k in m
             ensures k in r && k in m ==> r[k] == m[k]
    {
      var d := DiffDeletions(last, want).fields;
      assert k in last.fields && k !in want.fields ==> k in d && d[k] == Null;
      assert k in want.fields ==> Clean(want.fields[k]);
      if k in want.fields && want.fields[k].Obj? {
        var w := want.fields[k];
        var l := if k in last.fields && last.fields[k].Obj? then last.fields[k] else EMPTY;
        MergedNonObject(if k in last.fields then last.fields[k] else Null, w, if k in cur.fields then cur.fields[k] else Null);
        assert DiffDeletions(EMPTY, w) == EMPTY;
        var dels := DiffDeletions(l, w);
        if k in cur.fields && cur.fields[k].Obj? {
          var c := cur.fields[k];
          MergeRefines(l, w, c);
          var adds := DiffAdditions(c, w);
          MergePatchesEmpty(dels, adds);
          ApplyNothing(c);
          assert k in patch.fields ==> patch.fields[k] == ThreeWayPatch(l, w, c);
        } else {
          ApplyWhole(l, w, if k in cur.fields then cur.fields[k] else Null);
          MergePatchesEmpty(w, w);
          assert patch.fields[k] == MergePatches(dels, w);
        }
      }
    }
    assert r == m;
  }

  lemma ApplyNothing(cur: Json)
    requires cur.Obj?
    ensures ApplyPatch(cur, EMPTY) == cur
  {
    assert ApplyPatch(cur, EMPTY).fields == cur.fields;
  }

  // ---- what the merge does to each path ----

  /** Some prefix of `p` is in `last` and missing from `want`, next to fields that are still wanted:
      the operator set it before and does not any more. */
  predicate Dropped(last: Json, want: Json, p: Path) {
    && p != [] && last.Obj? && want.Obj? && p[0] in last.fields
    && (p[0] in want.fields ==> Dropped(last.fields[p[0]], want.fields[p[0]], p[1..]))
  }

  lemma {:induction false} MergedWanted(last: Json, want: Json, cur: Json, p: Path)
    requires want.Obj? && LeafOn(want, p)
    ensures At(Merged(last, want, cur), p) == At(want, p)
    decreases p
  {
    if want.fields[p[0]].Obj? {
      MergedWanted(Child(last, p[0]), want.fields[p[0]], Child(cur, p[0]), p[1..]);
    }
  }

  lemma {:induction false} MergedShape(last: Json, want: Json, cur: Json, p: Path)
    requires want.Obj? && At(want, p).Some?
    ensures At(Merged(last, want, cur), p).Some?
    ensures At(Merged(last, want, cur), p).value.Obj? == At(want, p).value.Obj?
    decreases p
  {
    if p != [] && want.fields[p[0]].Obj? {
      MergedShape(Child(last, p[0]), want.fields[p[0]], Child(cur, p[0]), p[1..]);
    }
  }

  lemma {:induction false} MergedUnwanted(last: Json, want: Json, cur: Json, p: Path)
    requires want.Obj? && At(want, p).None? && !LeafOn(want, p)
    ensures At(Merged(last, want, cur), p) == if Dropped(last, want, p) then None else At(cur, p)
    decreases p
  {
    if p[0] in want.fields {
      assert want.fields[p[0]].Obj?;
      MergedUnwanted(Child(last, p[0]), want.fields[p[0]], Child(cur, p[0]), p[1..]);
    }
  }

  /** The whole meaning of a merge, path by path: a desired value wins, a desired object stays an
      object, a dropped path is gone with everything below it, every other path is left alone. */
  lemma MergedAt(last: Json, want: Json, cur: Json, p: Path)
    requires want.Obj?
    ensures LeafOn(want, p) ==> At(Merged(last, want, cur), p) == At(want, p)
    ensures At(want, p).Some? ==> At(Merged(last, want, cur), p).Some? &&
                                  At(Merged(last, want, cur), p).value.Obj? == At(want, p).value.Obj?
    ensures At(want, p).None? && !LeafOn(want, p) ==>
              At(Merged(last, want, cur), p) == if Dropped(last, want, p) then None else At(cur, p)
  {
    hide At, LeafOn, Merged, Dropped;
    if LeafOn(want, p) {
      MergedWanted(last, want, cur, p);
    }
    if At(want, p).Some? {
      MergedShape(last, want, cur, p);
    } else if !LeafOn(want, p) {
      MergedUnwanted(last, want, cur, p);
    }
  }

  lemma {:induction false} DroppedIff(last: Json, want: Json, p: Path)
    requires At(last, p).Some? && want.Obj? && !LeafOn(want, p)
    ensures Dropped(last, want, p) <==> At(want, p).None?
    decreases p
  {
    if p != [] && p[0] in want.fields {
      DroppedIff(last.fields[p[0]], want.fields[p[0]], p[1..]);
    }
  }

  /** `cur` agrees with `want` on everything `want` sets, and may hold more. */
  predicate Covers(cur: Json, want: Json)
    decreases want
  {
    && cur.Obj? && want.Obj?
    && forall k :: k in want.fields ==>
         k in cur.fields &&
         if want.fields[k].Obj? then Covers(cur.fields[k], want.fields[k]) else cur.fields[k] == want.fields[k]
  }

  lemma {:induction false} CoversAt(cur: Json, want: Json, p: Path)
    requires Covers(cur, want)
    ensures At(want, p).Some? ==> At(cur, p).Some? && At(cur, p).value.Obj? == At(want, p).value.Obj?
    ensures LeafOn(want, p) ==> At(cur, p) == At(want, p)
    decreases p
  {
    if p != [] && p[0] in want.fields && want.fields[p[0]].Obj? {
      CoversAt(cur.fields[p[0]], want.fields[p[0]], p[1..]);
    }
  }

  lemma {:induction false} NoAdditionsIffCovers(cur: Json, want: Json)
    requires cur.Obj? && want.Obj?
    ensures DiffAdditions(cur, want) == EMPTY <==> Covers(cur, want)
    decreases want
  {
    var d := DiffAdditions(cur, want);
    forall k | k in want.fields
      ensures k !in d.fields <==>
        (k in cur.fields && if want.fields[k].Obj? then Covers(cur.fields[k], want.fields[k]) else cur.fields[k] == want.fields[k])
    {
      if k in cur.fields && cur.fields[k].Obj? && want.fields[k].Obj? {
        NoAdditionsIffCovers(cur.fields[k], want.fields[k]);
      }
    }
    if Covers(cur, want) {
      assert d.fields == map[];
    }
  }

  lemma {:induction false} MergedCovers(last: Json, want: Json, cur: Json)
    requires want.Obj?
    ensures Covers(Merged(last, want, cur), want)
    decreases want
  {
    forall k | k in want.fields && want.fields[k].Obj?
      ensures Covers(Merged(last, want, cur).fields[k], want.fields[k])
    {
      MergedCovers(Child(last, k), want.fields[k], Child(cur, k));
    }
  }

  lemma {:induction false} NoSelfDeletions(want: Json)
    requires want.Obj?
    ensures DiffDeletions(want, want) == EMPTY
  {
    forall k | k in want.fields && want.fields[k].Obj?
      ensures DiffDeletions(want.fields[k], want.fields[k]) == EMPTY
    {
      NoSelfDeletions(want.fields[k]);
    }
    assert DiffDeletions(want, want).fields == map[];
  }

  /** The patch is empty exactly when nothing was dropped and nothing is missing.  Deletions are
      listed whether or not the server still has them. */
  lemma {:induction false} PatchEmptyIff(last: Json, want: Json, cur: Json)
    requires last.Obj? && want.Obj? && cur.Obj?
    ensures ThreeWayPatch(last, want, cur) == EMPTY <==>
            DiffDeletions(last, want) == EMPTY && Covers(cur, want)
  {
    var d, a := DiffDeletions(last, want), DiffAdditions(cur, want);
    NoAdditionsIffCovers(cur, want);
    assert MergePatches(d, a).fields.Keys == d.fields.Keys + a.fields.Keys;
    assert d.fields.Keys == {} ==> d.fields == map[];
    assert a.fields.Keys == {} ==> a.fields == map[];
  }

  /** Merging again right after a merge gives the empty patch, provided the desired tree was recorded
      as the last applied one; from a stale record it does so only if nothing had been dropped. */
  lemma MergeTwice(last: Json, want: Json, cur: Json)
    requires last.Obj? && want.Obj? && cur.Obj?
    ensures ThreeWayPatch(want, want, Merged(last, want, cur)) == EMPTY
    ensures ThreeWayPatch(last, want, Merged(last, want, cur)) == EMPTY <==> DiffDeletions(last, want) == EMPTY
  {
    MergedCovers(last, want, cur);
    NoSelfDeletions(want);
    PatchEmptyIff(want, want, Merged(last, want, cur));
    PatchEmptyIff(last, want, Merged(last, want, cur));
  }

  // ---- server-side defaulting ----

  /** `t` with the fields of `fill` added wherever `t` has none. */
  function Defaulted(t: Json, fill: Json): (r: Json)
    ensures t.Obj? ==> r.Obj?
    decreases t
  {
    if !t.Obj? then t else
    var f := Fields(fill);
    Obj(map k | k in t.fields.Keys + f.Keys ::
          if k !in t.fields then f[k]
          else Defaulted(t.fields[k], if k in f then f[k] else Null))
  }

  lemma {:induction false} DefaultedAt(t: Json, fill: Json, p: Path)
    ensures LeafOn(t, p) ==> At(Defaulted(t, fill), p) == At(t, p)
    ensures At(t, p).Some? ==> At(Defaulted(t, fill), p).Some? &&
                               At(Defaulted(t, fill), p).value.Obj? == At(t, p).value.Obj?
    ensures At(t, p).None? && !LeafOn(t, p) ==> At(Defaulted(t, fill), p) == At(fill, p)
    decreases p
  {
    if p != [] && t.Obj? && p[0] in t.fields {
      DefaultedAt(t.fields[p[0]], Child(fill, p[0]), p[1..]);
    }
  }

  lemma {:induction false} DefaultedCovers(t: Json, fill: Json, want: Json)
    requires Covers(t, want)
    ensures Covers(Defaulted(t, fill), want)
    decreases want
  {
    var r := Defaulted(t, fill);
    forall k | k in want.fields
      ensures k in r.fields
      ensures if want.fields[k].Obj? then Covers(r.fields[k], want.fields[k]) else r.fields[k] == want.fields[k]
    {
      if want.fields[k].Obj? {
        DefaultedCovers(t.fields[k], Child(fill, k), want.fields[k]);
      } else {
        assert Defaulted(t.fields[k], Child(fill, k)) == t.fields[k];
      }
    }
  }
}
