/** The two hypotheses about skips in the comparison of a guarded operator with one that always patches: on
    small objects, what happens without each. */
module SkipLimits {
  import opened Options
  import opened Json
  import opened ThreeWayMerge
  import opened StatefulSets
  import opened ApplyEffects
  import opened ApplyRuns
  import opened ApplyCache
  import opened ApplyRefinement
  import opened AlwaysPatch

  const STRATEGY: Path := ["spec", "updateStrategy"]
  const HISTORY: Path := ["spec", "revisionHistoryLimit"]
  const ROLLING := Atom("RollingUpdate")

  /** The least that MakeStatefulset could build, and the same with a hashed or an unhashed field more. */
  const PLAIN: Doc := Obj(map["metadata" := Obj(map["namespace" := Atom("ns")]), "spec" := Obj(map[])])
  const WITH_STRATEGY: Doc := Obj(map["metadata" := Obj(map["namespace" := Atom("ns")]), "spec" := Obj(map["updateStrategy" := ROLLING])])
  const WITH_HISTORY: Doc := Obj(map["metadata" := Obj(map["namespace" := Atom("ns")]), "spec" := Obj(map["revisionHistoryLimit" := Num(3)])])

  function Calm(fill: Json): Weather {
    Weather(true, true, fill, None, true)
  }

  lemma SampleDesired(spec: map<string, Json>)
    requires "replicas" !in spec && forall k :: k in spec ==> Clean(spec[k])
    ensures Desired(Obj(map["metadata" := Obj(map["namespace" := Atom("ns")]), "spec" := Obj(spec)]))
  {
    var metadata := Obj(map["namespace" := Atom("ns")]);
    assert Clean(metadata) && Clean(Obj(spec));
  }

  lemma StrategySample()
    ensures WITH_STRATEGY == SetAt(PLAIN, STRATEGY, ROLLING) && At(PLAIN, STRATEGY).None? && !LeafOn(PLAIN, STRATEGY)
  {
    assert STRATEGY[1..] == ["updateStrategy"];
    assert SetAt(Obj(map[]), STRATEGY[1..], ROLLING) == Obj(map["updateStrategy" := ROLLING]);
    assert WITH_STRATEGY.fields == PLAIN.fields["spec" := WITH_STRATEGY.fields["spec"]];
  }

  lemma HistorySample()
    ensures WITH_HISTORY == SetAt(PLAIN, HISTORY, Num(3)) && At(PLAIN, HISTORY).None? && !LeafOn(PLAIN, HISTORY)
  {
    assert HISTORY[1..] == ["revisionHistoryLimit"];
    assert SetAt(Obj(map[]), HISTORY[1..], Num(3)) == Obj(map["revisionHistoryLimit" := Num(3)]);
    assert WITH_HISTORY.fields == PLAIN.fields["spec" := WITH_HISTORY.fields["spec"]];
  }

  lemma Samples()
    ensures Desired(PLAIN) && Desired(WITH_STRATEGY) && Desired(WITH_HISTORY)
    ensures WITH_STRATEGY == SetAt(PLAIN, STRATEGY, ROLLING) && WITH_HISTORY == SetAt(PLAIN, HISTORY, Num(3))
    ensures At(PLAIN, STRATEGY).None? && At(PLAIN, HISTORY).None? && !LeafOn(PLAIN, STRATEGY) && !LeafOn(PLAIN, HISTORY)
    ensures IsKey(STRATEGY)
  {
    hide At, SetAt, LeafOn, Desired;
    SampleDesired(map[]);
    SampleDesired(map["updateStrategy" := ROLLING]);
    SampleDesired(map["revisionHistoryLimit" := Num(3)]);
    StrategySample();
    HistorySample();
    assert HASHED[7] == STRATEGY;
  }

  /** A record of `last` on `t` makes an object that both operators could be working on. */
  lemma SampleSynced(hash: Hasher, t: Doc, last: Doc)
    requires Desired(last) && Covers(t, last) && (At(t, HASH).Some? ==> At(t, HASH) == Some(Atom(hash(HashedFieldsOf(last)))))
    ensures var s := Stored0(SetAt(t, LAST, Text(last)));
      && Related(hash, Some(s), Some(s)) && LastApplied(s.tree) == Some(last)
      && HashedFieldsOf(s.tree) == HashedFieldsOf(t) && At(s.tree, HASH) == At(t, HASH)
      && AtomAt(s.tree, NAMESPACE) == AtomAt(t, NAMESPACE)
  {
    hide At, SetAt, Covers, Desired, HashedFieldsOf;
    DesiredFacts(last, LAST);
    ReplicasTyped(last);
    RecordSynced(hash, t, last);
    RecordedAs(t, last);
    HashIgnoresAnnotations(t, LAST, Text(last));
    RecordKeepsKeys(t, last);
    SelfAlike(SetAt(t, LAST, Text(last)));
  }

  lemma StrategyIsHashed(a: Json, b: Json)
    requires At(a, STRATEGY) != At(b, STRATEGY)
    ensures HashedFieldsOf(a) != HashedFieldsOf(b) && forall service :: HashedFieldsOf(a).(serviceName := service) != HashedFieldsOf(b)
  {
    hide At;
    assert HASHED[7] == STRATEGY;
    assert HashedFieldsOf(a).parts[7] == At(a, STRATEGY) && HashedFieldsOf(b).parts[7] == At(b, STRATEGY);
  }

  /** The value of a hashed field that is neither wanted nor recorded, after a completed patch. */
  lemma UnwantedKey(hash: Hasher, want: Doc, s: Stored, fill: Json, q: Path)
    requires Desired(want) && IsKey(q) && LastApplied(s.tree).Some? && At(want, q).None?
    ensures var t := At(Complete(hash, want, s, fill), q);
      if At(LastApplied(s.tree).value, q).Some? || At(s.tree, q).None? then t == At(fill, q)
      else t == Some(Defaulted(At(s.tree, q).value, AtOrNull(fill, q)))
  {
    hide At, LeafOn, Sent, Desired, Merged, Defaulted, IsKey;
    var e, last := Sent(hash, want, s.tree), LastApplied(s.tree).value;
    var m := Merged(last, e, s.tree);
    CompleteFacts(hash, want, s, fill);
    SentKey(hash, want, s.tree, q);
    MergedByValues(last, e, s.tree, q);
    if At(m, q).None? {
      MergedShape(last, e, s.tree, q[..|q| - 1]);
      NotLeafIsObj(m, q[..|q| - 1]);
      NotLeafNext(m, q);
      DefaultedAt(m, fill, q);
    } else {
      DefaultedBelow(m, fill, q);
    }
  }

  const NEW_DEFAULT: Json := Obj(map["spec" := Obj(map["updateStrategy" := ROLLING])])

  lemma NewDefault()
    ensures At(NEW_DEFAULT, STRATEGY) == Some(ROLLING) && At(NEW_DEFAULT, HASH).None? && At(NEW_DEFAULT, LAST).None?
  {
    assert STRATEGY[1..] == ["updateStrategy"];
    assert At(NEW_DEFAULT.fields["spec"], STRATEGY[1..]) == Some(ROLLING);
  }

  /** The object of a user who asked for PLAIN and got it patched. */
  function Noted(hash: Hasher): Stored {
    Stored0(SetAt(SetAt(PLAIN, HASH, Atom(hash(HashedFieldsOf(PLAIN)))), LAST, Text(PLAIN)))
  }

  lemma NotedFacts(hash: Hasher)
    ensures var s := Noted(hash);
      && Related(hash, Some(s), Some(s)) && LastApplied(s.tree) == Some(PLAIN) && HashedFieldsOf(s.tree) == HashedFieldsOf(PLAIN)
      && At(s.tree, HASH) == Some(Atom(hash(HashedFieldsOf(PLAIN)))) && AtomAt(s.tree, NAMESPACE) == AtomAt(PLAIN, NAMESPACE)
      && At(s.tree, HISTORY).None? && At(s.tree, STRATEGY).None? && !s.deleting
  {
    hide At, SetAt, Covers, Desired, HashedFieldsOf, LeafOn;
    Samples();
    var v := Atom(hash(HashedFieldsOf(PLAIN)));
    var t := SetAt(PLAIN, HASH, v);
    DesiredFacts(PLAIN, HASH);
    DesiredIsObject(PLAIN);
    SelfCovers(PLAIN);
    SetAtCovers(PLAIN, HASH, v, PLAIN);
    SetAtSame(PLAIN, HASH, v);
    HashIgnoresAnnotations(PLAIN, HASH, v);
    SampleSynced(hash, t, PLAIN);
    SampleApart();
    SetAtApart(PLAIN, HASH, v, NAMESPACE);
    SetAtApart(PLAIN, HASH, v, HISTORY);
    SetAtApart(PLAIN, HASH, v, STRATEGY);
    SetAtApart(t, LAST, Text(PLAIN), HISTORY);
    SetAtApart(t, LAST, Text(PLAIN), STRATEGY);
  }

  lemma SampleApart()
    ensures Apart(HASH, NAMESPACE) && Apart(HASH, HISTORY) && Apart(HASH, STRATEGY)
    ensures Apart(LAST, HISTORY) && Apart(LAST, STRATEGY) && Apart(STRATEGY, NAMESPACE)
  {
    PathFacts();
  }

  lemma DesiredIsObject(want: Doc)
    requires Desired(want)
    ensures CleanObj(want)
  {}

  /** A field that is not hashed does not end a skip. */
  lemma HistoryIsNotHashed(hash: Hasher)
    ensures HashedFieldsOf(WITH_HISTORY) == HashedFieldsOf(PLAIN) && AtomAt(WITH_HISTORY, NAMESPACE) == AtomAt(PLAIN, NAMESPACE)
  {
    hide At, SetAt, Desired, LeafOn;
    Samples();
    forall q | IsKey(q) || q in {SERVICE, NAMESPACE} ensures At(WITH_HISTORY, q) == At(PLAIN, q) {
      HistoryApart(q);
      SetAtApart(PLAIN, HISTORY, Num(3), q);
    }
    SameFields(WITH_HISTORY, PLAIN);
  }

  lemma HistoryApart(q: Path)
    requires IsKey(q) || q in {SERVICE, NAMESPACE}
    ensures Apart(HISTORY, q)
  {
    assert |q| == 2;
    assert q[1] != "revisionHistoryLimit";
    assert Apart(HISTORY[1..], q[1..]) <== q[0] == "spec";
  }

  /** If the server fills in something new just when the guard skips, the always-patching operator gets it
      with its next write, here of a field that is not hashed, and the guarded one does not. */
  lemma StableFillIsNeeded(hash: Hasher)
    ensures var s, w := Noted(hash), Calm(NEW_DEFAULT);
      && Related(hash, Some(s), Some(s)) && Disciplined(Some(s), Sync(WITH_HISTORY, true, w))
      && Skips(hash, WITH_HISTORY, Some(s)) && At(s.tree, HASH).Some?
      && var ev := Both(WITH_HISTORY, true, w);
         var g, a := GuardedStep(hash, Some(s), ev), AlwaysStep(hash, Some(s), ev);
         g.Some? && a.Some? && HashedFieldsOf(g.value.tree) != HashedFieldsOf(a.value.tree)
  {
    hide At, SetAt, Covers, Desired, HashedFieldsOf, LeafOn, Sent, Complete, StatefulSetDeepEqual, PatchOf, IsKey, Noted, Aligned;
    var s, w, want := Noted(hash), Calm(NEW_DEFAULT), WITH_HISTORY;
    Samples();
    NewDefault();
    NotedFacts(hash);
    HistoryIsNotHashed(hash);
    AlignedEquality(hash, want, s.tree);
    AlignedHash(want, s.tree);
    ServiceOfFields(s.tree, PLAIN);
    ServiceOfFields(want, PLAIN);
    ApplyExistingIs(hash, want, true, s, w);
    AlwaysPatchIs(hash, want, s, w);
    HistoryIsSent(hash, s);
    UnwantedKey(hash, want, s, w.fill, STRATEGY);
    StrategyIsHashed(s.tree, Complete(hash, want, s, w.fill));
  }

  lemma ServiceOfFields(a: Json, b: Json)
    requires HashedFieldsOf(a) == HashedFieldsOf(b)
    ensures HashedFieldsOf(a).(serviceName := AtomAt(b, SERVICE)) == HashedFieldsOf(b) && AtomAt(a, SERVICE) == AtomAt(b, SERVICE)
  {}

  lemma HistoryIsSent(hash: Hasher, s: Stored)
    requires At(s.tree, HISTORY).None?
    ensures !Covers(s.tree, Sent(hash, WITH_HISTORY, s.tree)) && At(WITH_HISTORY, STRATEGY).None?
  {
    hide At, SetAt, Covers, Desired, HashedFieldsOf, LeafOn;
    Samples();
    var e := Sent(hash, WITH_HISTORY, s.tree);
    SetAtSame(PLAIN, HISTORY, Num(3));
    assert Apart(HISTORY[1..], STRATEGY[1..]);
    SetAtApart(PLAIN, HISTORY, Num(3), STRATEGY);
    assert Apart(SERVICE[1..], HISTORY[1..]) && Apart(POLICY[1..], HISTORY[1..]);
    AlignedFacts(WITH_HISTORY, s.tree, HISTORY);
    SetAtApart(Aligned(WITH_HISTORY, s.tree), HASH, Atom(StatefulSetDeepEqual(hash, Aligned(WITH_HISTORY, s.tree), s.tree).0), HISTORY);
    if Covers(s.tree, e) {
      CoversAtom(s.tree, e, HISTORY);
    }
  }

  /** The object of a user who asked for PLAIN, just created, with the default of the server. */
  function Fresh(): Stored {
    Stored0(SetAt(WITH_STRATEGY, LAST, Text(PLAIN)))
  }

  lemma FreshFacts(hash: Hasher)
    ensures var s := Fresh();
      && Related(hash, Some(s), Some(s)) && LastApplied(s.tree) == Some(PLAIN)
      && HashedFieldsOf(s.tree) == HashedFieldsOf(WITH_STRATEGY) && At(s.tree, HASH).None?
      && AtomAt(s.tree, NAMESPACE) == AtomAt(WITH_STRATEGY, NAMESPACE) == AtomAt(PLAIN, NAMESPACE)
      && At(s.tree, STRATEGY) == Some(ROLLING) && !s.deleting
  {
    hide At, SetAt, Covers, Desired, HashedFieldsOf, LeafOn;
    Samples();
    SampleApart();
    DesiredFacts(WITH_STRATEGY, HASH);
    DesiredIsObject(PLAIN);
    SelfCovers(PLAIN);
    SetAtCovers(PLAIN, STRATEGY, ROLLING, PLAIN);
    SampleSynced(hash, WITH_STRATEGY, PLAIN);
    SetAtSame(PLAIN, STRATEGY, ROLLING);
    SetAtApart(PLAIN, STRATEGY, ROLLING, NAMESPACE);
    SetAtApart(WITH_STRATEGY, LAST, Text(PLAIN), STRATEGY);
  }

  lemma {:induction false} DefaultedNothing(t: Json)
    ensures Defaulted(t, Null) == t
  {
    if t.Obj? {
      forall k | k in t.fields ensures Defaulted(t.fields[k], Null) == t.fields[k] {
        DefaultedNothing(t.fields[k]);
      }
      assert Defaulted(t, Null).fields == t.fields;
    }
  }

  /** The user spells out the default of an object just created.  The guard skips, by the look of the
      object, while the other operator records the field; when the user takes it back, only the other
      operator knows that it was the user's, and only its object loses the field. */
  lemma NotedHashIsNeeded(hash: Hasher)
    requires Injective(hash)
    ensures var s, w := Fresh(), Calm(Null);
      && Related(hash, Some(s), Some(s)) && Disciplined(Some(s), Sync(WITH_STRATEGY, true, w))
      && Skips(hash, WITH_STRATEGY, Some(s))
      && FillsNothing(Merged(PLAIN, Sent(hash, WITH_STRATEGY, s.tree), s.tree), w.fill)
      && var spell, take := Both(WITH_STRATEGY, true, w), Both(PLAIN, true, w);
         var g, a := GuardedStep(hash, Some(s), spell), AlwaysStep(hash, Some(s), spell);
         var g', a' := GuardedStep(hash, g, take), AlwaysStep(hash, a, take);
         && !Skips(hash, PLAIN, g) && g'.Some? && a'.Some?
         && HashedFieldsOf(g'.value.tree) != HashedFieldsOf(a'.value.tree)
  {
    hide At, SetAt, Covers, Desired, HashedFieldsOf, LeafOn, Sent, Complete, StatefulSetDeepEqual, PatchOf, IsKey, Fresh, Aligned;
    hide Merged;
    var s, w := Fresh(), Calm(Null);
    Samples();
    FreshFacts(hash);
    NothingInNull();
    DefaultedNothing(Merged(PLAIN, Sent(hash, WITH_STRATEGY, s.tree), s.tree));
    SpellingIsSkipped(hash, s, w);
    TakingBackKeeps(hash, s, w);
    TakingBackRemoves(hash, s, AlwaysStep(hash, Some(s), Both(WITH_STRATEGY, true, w)).value, w);
    StrategyIsHashed(GuardedStep(hash, Some(s), Both(PLAIN, true, w)).value.tree,
                     AlwaysStep(hash, AlwaysStep(hash, Some(s), Both(WITH_STRATEGY, true, w)), Both(PLAIN, true, w)).value.tree);
  }

  lemma SpellingIsSkipped(hash: Hasher, s: Stored, w: Weather)
    requires s == Fresh() && w == Calm(Null)
    ensures Skips(hash, WITH_STRATEGY, Some(s)) && GuardedStep(hash, Some(s), Both(WITH_STRATEGY, true, w)) == Some(s)
    ensures var a := AlwaysStep(hash, Some(s), Both(WITH_STRATEGY, true, w));
      a.Some? && !a.value.deleting && LastApplied(s.tree).Some? && a.value.tree == Complete(hash, WITH_STRATEGY, s, Null)
  {
    hide At, SetAt, Covers, Desired, HashedFieldsOf, LeafOn, Sent, Complete, StatefulSetDeepEqual, PatchOf, IsKey, Fresh, Aligned;
    Samples();
    FreshFacts(hash);
    AlignedEquality(hash, WITH_STRATEGY, s.tree);
    AlignedHash(WITH_STRATEGY, s.tree);
    ServiceOfFields(WITH_STRATEGY, s.tree);
    ApplyExistingIs(hash, WITH_STRATEGY, true, s, w);
    AlwaysPatchIs(hash, WITH_STRATEGY, s, w);
    SentFacts(hash, WITH_STRATEGY, s.tree);
    if Covers(s.tree, Sent(hash, WITH_STRATEGY, s.tree)) {
      CoversAtom(s.tree, Sent(hash, WITH_STRATEGY, s.tree), HASH);
    }
  }

  lemma TakingBackKeeps(hash: Hasher, s: Stored, w: Weather)
    requires Injective(hash) && s == Fresh() && w == Calm(Null)
    ensures !Skips(hash, PLAIN, Some(s))
    ensures var g := GuardedStep(hash, Some(s), Both(PLAIN, true, w)); g.Some? && At(g.value.tree, STRATEGY) == Some(ROLLING)
  {
    hide At, SetAt, Covers, Desired, HashedFieldsOf, LeafOn, Sent, Complete, StatefulSetDeepEqual, PatchOf, IsKey, Fresh, Aligned;
    Samples();
    FreshFacts(hash);
    AlignedEquality(hash, PLAIN, s.tree);
    AlignedHash(PLAIN, s.tree);
    StrategyIsHashed(PLAIN, s.tree);
    AlwaysPatchIs(hash, PLAIN, s, w);
    UnwantedKey(hash, PLAIN, s, Null, STRATEGY);
  }

  lemma TakingBackRemoves(hash: Hasher, s: Stored, a: Stored, w: Weather)
    requires Injective(hash) && s == Fresh() && w == Calm(Null) && !a.deleting
    requires LastApplied(s.tree).Some? && a.tree == Complete(hash, WITH_STRATEGY, s, Null)
    ensures var a' := AlwaysStep(hash, Some(a), Both(PLAIN, true, w)); a'.Some? && At(a'.value.tree, STRATEGY).None?
  {
    hide At, SetAt, Covers, Desired, HashedFieldsOf, LeafOn, Sent, Complete, StatefulSetDeepEqual, PatchOf, IsKey, Fresh, Aligned;
    Samples();
    FreshFacts(hash);
    CompleteFacts(hash, WITH_STRATEGY, s, Null);
    SentKey(hash, WITH_STRATEGY, s.tree, STRATEGY);
    SetAtSame(PLAIN, STRATEGY, ROLLING);
    AlignedEquality(hash, PLAIN, a.tree);
    AlignedHash(PLAIN, a.tree);
    StrategyIsHashed(PLAIN, WITH_STRATEGY);
    AlwaysPatchIs(hash, PLAIN, a, w);
    UnwantedKey(hash, PLAIN, a, Null, STRATEGY);
    NothingInNull();
  }

  lemma NothingInNull()
    ensures At(Null, STRATEGY).None? && At(Null, HASH).None? && At(Null, LAST).None?
  {}
}
