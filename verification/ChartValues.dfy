/** Migrating the values of the kube-starrocks chart between the flat format before v1.8.0 and the
    sectioned one since. */
module ChartValues {
  import opened Options

  /** A parsed YAML value, as far as the tool looks at it. */
  datatype Value = Nil | Text(text: string) | Mapping(fields: map<string, Value>) | Other(text: string)

  type File = map<string, Value>

  const OPERATOR := "operator"
  const STARROCKS := "starrocks"
  const OPERATOR_KEYS: seq<string> := ["global", "timeZone", "nameOverride", "starrocksOperator"]
  const STARROCKS_KEYS: seq<string> := ["nameOverride", "initPassword", "timeZone", "datadog", "starrocksCluster",
    "starrocksFESpec", "starrocksCnSpec", "starrocksBeSpec", "secrets", "configMaps", "feProxy"]

  function Lookup(m: File, key: string): Value {
    if key in m then m[key] else Nil
  }

  function DefaultFor(key: string): Value {
    if key == "timeZone" then Text("Asia/Shanghai")
    else if key == "nameOverride" then Text("kube-starrocks")
    else Nil
  }

  /** Missing, null and blank values are replaced by the default of the key, if it has one. */
  function Cleaned(m: File, key: string): Value {
    var v := Lookup(m, key);
    if v == Nil || v == Text("") then DefaultFor(key) else v
  }

  function Section(m: File, keys: set<string>): File {
    map k | k in keys && Cleaned(m, k) != Nil :: Cleaned(m, k)
  }

  function KeySet(keys: seq<string>): set<string> {
    set k | k in keys
  }

  // ---- what the tool writes ----

  /** A piece of output: a mapping in block style, the flow form of an empty one, a key without value, or
      anything that is not a mapping. */
  datatype Piece = Block(fields: File) | EmptyFlow | Bare(key: string) | Scalar

  /** `Written` is the output as a whole; the tool may also write nothing, or fail on a type assertion. */
  datatype Outcome = Written(pieces: seq<Piece>) | NothingWritten | Panics

  function Marshal(v: Value): Piece {
    if !v.Mapping? then Scalar else if v.fields == map[] then EmptyFlow else Block(v.fields)
  }

  function WithHeader(fields: File, header: string): Piece {
    if fields == map[] then Bare(header) else Block(map[header := Mapping(fields)])
  }

  predicate IsNewFormat(s: File) {
    Lookup(s, OPERATOR) != Nil || Lookup(s, STARROCKS) != Nil
  }

  function Migrate(s: File, toNew: bool): Outcome {
    var operator, starrocks := Lookup(s, OPERATOR), Lookup(s, STARROCKS);
    if IsNewFormat(s) then
      if toNew then NothingWritten
      else if !operator.Mapping? then Panics
      else Written([Marshal(Mapping(operator.fields - {"timeZone", "nameOverride"})), Marshal(starrocks)])
    else if !toNew then NothingWritten
    else Written([WithHeader(Section(s, KeySet(OPERATOR_KEYS)), OPERATOR), WithHeader(Section(s, KeySet(STARROCKS_KEYS)), STARROCKS)])
  }

  predicate Holds(s: File, key: string) {
    key in s && s[key] != Nil
  }

  /** When the tool writes: a flat file is upgraded and a sectioned one downgraded, everything else is left
      alone; a sectioned file whose operator section is missing or no mapping makes the downgrade fail. */
  lemma WritesIff(s: File, toNew: bool)
    ensures Migrate(s, toNew).NothingWritten? <==> (toNew <==> Holds(s, "operator") || Holds(s, "starrocks"))
    ensures Migrate(s, toNew).Panics? <==>
      !toNew && (Holds(s, "operator") || Holds(s, "starrocks")) && !("operator" in s && s["operator"].Mapping?)
  {}

  /** `toNew` is a target of v1.8.0, its absence a target of v1.7.1. */
  method Do(s: File, toNew: bool) returns (outcome: Outcome)
    ensures outcome == Migrate(s, toNew)
  {
    var operator, starrocks := Lookup(s, OPERATOR), Lookup(s, STARROCKS);
    if operator != Nil || starrocks != Nil {
      if toNew {
        return NothingWritten;
      }
      if !operator.Mapping? {
        return Panics;
      }
      var mapper := operator.fields;
      mapper := mapper - {"timeZone"};
      mapper := mapper - {"nameOverride"};
      assert mapper == operator.fields - {"timeZone", "nameOverride"};
      return Written([Marshal(Mapping(mapper)), Marshal(starrocks)]);
    }
    if !toNew {
      return NothingWritten;
    }
    var first := Write(s, OPERATOR_KEYS, OPERATOR);
    var second := Write(s, STARROCKS_KEYS, STARROCKS);
    return Written([first, second]);
  }

  method Write(original: File, keys: seq<string>, header: string) returns (piece: Piece)
    ensures piece == WithHeader(Section(original, KeySet(keys)), header)
  {
    var fields: File := map[];
    for i := 0 to |keys|
      invariant fields == Section(original, KeySet(keys[..i]))
    {
      var key := keys[i];
      var value := Lookup(original, key);
      if value == Nil {
        value := DefaultFor(key);
      } else if value.Text? && value.text == "" {
        value := DefaultFor(key);
      }
      if value != Nil {
        fields := fields[key := value];
      }
      assert KeySet(keys[..i + 1]) == KeySet(keys[..i]) + {key};
      SectionAdd(original, KeySet(keys[..i]), key);
    }
    assert keys[..|keys|] == keys;
    return WithHeader(fields, header);
  }

  lemma SectionAdd(m: File, keys: set<string>, key: string)
    ensures Section(m, keys + {key}) ==
      if Cleaned(m, key) == Nil then Section(m, keys) else Section(m, keys)[key := Cleaned(m, key)]
  {}

  // ---- reading it back ----

  /** Block mappings one after the other read as one mapping; next to anything else they do not parse. */
  function Parse(pieces: seq<Piece>): Option<File> {
    if pieces == [EmptyFlow] || pieces == [Scalar] then Some(map[])
    else ParseBlocks(pieces)
  }

  function ParseBlocks(pieces: seq<Piece>): Option<File> {
    if pieces == [] then Some(map[])
    else
      match (pieces[0], ParseBlocks(pieces[1..]))
      case (Block(m), Some(rest)) => Some(m + rest)
      case (Bare(k), Some(rest)) => Some(map[k := Nil] + rest)
      case _ => None
  }

  function Read(outcome: Outcome): Option<File> {
    if outcome.Written? then Parse(outcome.pieces) else None
  }

  lemma ParsePair(a: Piece, b: Piece)
    ensures Parse([a, b]) ==
      if a.Block? && b.Block? then Some(a.fields + b.fields)
      else if a.Block? && b.Bare? then Some(a.fields + map[b.key := Nil])
      else if a.Bare? && b.Block? then Some(map[a.key := Nil] + b.fields)
      else if a.Bare? && b.Bare? then Some(map[a.key := Nil] + map[b.key := Nil])
      else None
  {
    assert [a, b][1..] == [b] && [b][1..] == [];
    assert ParseBlocks([]) == Some(map[]);
    assert forall m: File :: m + map[] == m;
    assert ParseBlocks([b]) == if b.Block? then Some(b.fields) else if b.Bare? then Some(map[b.key := Nil]) else None;
  }

  // ---- the round trip ----

  const KNOWN: set<string> := KeySet(OPERATOR_KEYS) + KeySet(STARROCKS_KEYS)

  function Sectioned(f: File): File {
    map[OPERATOR := Mapping(Section(f, KeySet(OPERATOR_KEYS))), STARROCKS := Mapping(Section(f, KeySet(STARROCKS_KEYS)))]
  }

  /** The known keys of a flat file, blanks defaulted or removed. */
  function Flat(f: File): File {
    Section(f, KNOWN)
  }

  const SHARED: set<string> := {"timeZone", "nameOverride"}
  const OWN: set<string> := {"global", "starrocksOperator"}

  lemma OperatorKeySet()
    ensures KeySet(OPERATOR_KEYS) == OWN + SHARED
  {
    assert OPERATOR_KEYS[0] == "global" && OPERATOR_KEYS[1] == "timeZone" && OPERATOR_KEYS[2] == "nameOverride" && OPERATOR_KEYS[3] == "starrocksOperator";
  }

  lemma StarrocksKeySet()
    ensures KeySet(STARROCKS_KEYS) == SHARED + {"initPassword", "datadog", "starrocksCluster", "starrocksFESpec",
      "starrocksCnSpec", "starrocksBeSpec", "secrets", "configMaps", "feProxy"}
  {
    var k := STARROCKS_KEYS;
    assert k == [k[0], k[1], k[2], k[3], k[4], k[5], k[6], k[7], k[8], k[9], k[10]];
  }

  /** The operator keys are its own and the two shared ones; nothing else is in both lists. */
  lemma KeyFacts()
    ensures KeySet(OPERATOR_KEYS) == OWN + SHARED && SHARED <= KeySet(STARROCKS_KEYS) && OWN !! KeySet(STARROCKS_KEYS)
    ensures KNOWN == OWN + KeySet(STARROCKS_KEYS) && OPERATOR !in KNOWN && STARROCKS !in KNOWN
  {
    hide KeySet;
    OperatorKeySet();
    StarrocksKeySet();
  }

  lemma SplitSection(f: File, own: set<string>, shared: set<string>, keys: set<string>)
    requires own !! keys && shared <= keys
    ensures Section(f, own + shared) - shared == Section(f, own)
    ensures Section(f, own).Keys !! Section(f, keys).Keys
    ensures Section(f, own) + Section(f, keys) == Section(f, own + keys)
  {}

  lemma Resection(f: File, keys: set<string>, part: set<string>)
    requires part <= keys
    ensures Section(Section(f, keys), part) == Section(f, part)
  {
    forall k | k in keys ensures Cleaned(Section(f, keys), k) == Cleaned(f, k) {
      assert k in Section(f, keys) <==> Cleaned(f, k) != Nil;
    }
  }

  lemma SectionsAreNotEmpty(f: File)
    ensures Section(f, KeySet(OPERATOR_KEYS)) != map[] && Section(f, KeySet(STARROCKS_KEYS)) != map[]
  {
    KeyFacts();
    assert Cleaned(f, "timeZone") != Nil;
    assert "timeZone" in Section(f, KeySet(OPERATOR_KEYS)) && "timeZone" in Section(f, KeySet(STARROCKS_KEYS));
  }

  /** Upgrading a flat file gives both sections, never an empty one. */
  lemma UpgradeSections(f: File)
    requires !IsNewFormat(f)
    ensures Read(Migrate(f, true)) == Some(Sectioned(f))
  {
    SectionsAreNotEmpty(f);
    var a, b := WithHeader(Section(f, KeySet(OPERATOR_KEYS)), OPERATOR), WithHeader(Section(f, KeySet(STARROCKS_KEYS)), STARROCKS);
    ParsePair(a, b);
    assert a.fields + b.fields == Sectioned(f);
  }

  /** The value of a key in an upgraded section: the user's, or for two keys a default if that is missing,
      null or blank. */
  function Carried(f: File, key: string): Value {
    if key in f && f[key] != Nil && f[key] != Text("") then f[key]
    else if key == "timeZone" then Text("Asia/Shanghai")
    else if key == "nameOverride" then Text("kube-starrocks")
    else Nil
  }

  /** What upgrading a flat file gives, key by key. */
  lemma UpgradedIs(f: File, key: string)
    requires (if "operator" in f then f["operator"] == Nil else true) && (if "starrocks" in f then f["starrocks"] == Nil else true)
    ensures var g := Read(Migrate(f, true));
      && g.Some? && g.value.Keys == {"operator", "starrocks"} && g.value["operator"].Mapping? && g.value["starrocks"].Mapping?
      && var o, s := g.value["operator"].fields, g.value["starrocks"].fields;
         && (key in o <==> key in {"global", "timeZone", "nameOverride", "starrocksOperator"} && Carried(f, key) != Nil)
         && (key in o ==> o[key] == Carried(f, key))
         && (key in s <==>
               && key in {"nameOverride", "initPassword", "timeZone", "datadog", "starrocksCluster", "starrocksFESpec",
                          "starrocksCnSpec", "starrocksBeSpec", "secrets", "configMaps", "feProxy"}
               && Carried(f, key) != Nil)
         && (key in s ==> s[key] == Carried(f, key))
  {
    hide KeySet, Read, Migrate;
    UpgradeSections(f);
    KeyFacts();
    StarrocksKeySet();
    assert Cleaned(f, key) == Carried(f, key);
  }

  /** What downgrading a sectioned file gives: the operator's section without the two shared keys, and the
      other section over it. */
  lemma DowngradedIs(g: File)
    requires "operator" in g && g["operator"].Mapping? && "starrocks" in g && g["starrocks"].Mapping?
    requires g["operator"].fields - {"timeZone", "nameOverride"} != map[] && g["starrocks"].fields != map[]
    ensures Read(Migrate(g, false)) == Some(g["operator"].fields - {"timeZone", "nameOverride"} + g["starrocks"].fields)
  {
    hide Parse;
    ParsePair(Marshal(Mapping(g["operator"].fields - {"timeZone", "nameOverride"})), Marshal(g["starrocks"]));
  }

  /** A section of the operator that downgrading leaves something of. */
  predicate HasOwnKeys(f: File) {
    Cleaned(f, "global") != Nil || Cleaned(f, "starrocksOperator") != Nil
  }

  lemma OwnKeys(f: File)
    ensures Section(f, OWN) == map[] <==> !HasOwnKeys(f)
  {
    assert forall k :: k in Section(f, OWN) <==> k in OWN && Cleaned(f, k) != Nil;
    if HasOwnKeys(f) {
      assert "global" in Section(f, OWN) || "starrocksOperator" in Section(f, OWN);
    } else {
      assert Section(f, OWN).Keys == {};
    }
  }

  /** Downgrading the upgraded file gives back every known key once, blanks defaulted or removed, exactly
      when the flat file had something of its own for the operator; otherwise the output is not YAML. */
  lemma DowngradeFlattensIff(f: File)
    requires !IsNewFormat(f)
    ensures Read(Migrate(Sectioned(f), false)) == if HasOwnKeys(f) then Some(Flat(f)) else None
  {
    hide KeySet, Section, HasOwnKeys, Parse;
    KeyFacts();
    OwnKeys(f);
    SectionsAreNotEmpty(f);
    SplitSection(f, OWN, SHARED, KeySet(STARROCKS_KEYS));
    var o, s := Section(f, OWN), Section(f, KeySet(STARROCKS_KEYS));
    ParsePair(Marshal(Mapping(o)), Marshal(Mapping(s)));
  }

  lemma FlatIsOld(f: File)
    ensures !IsNewFormat(Flat(f)) && Sectioned(Flat(f)) == Sectioned(f)
  {
    KeyFacts();
    Resection(f, KNOWN, KeySet(OPERATOR_KEYS));
    Resection(f, KNOWN, KeySet(STARROCKS_KEYS));
  }

  function DowngradeThenUpgrade(g: File): Option<File> {
    match Read(Migrate(g, false))
    case None => None
    case Some(flat) => Read(Migrate(flat, true))
  }

  predicate Filled(m: File, keys: set<string>) {
    && m.Keys <= keys && "timeZone" in m && "nameOverride" in m
    && forall k :: k in m ==> m[k] != Nil && m[k] != Text("")
  }

  /** Both sections and nothing else, only known keys, no blanks, the two shared keys present and equal in
      both sections, and something of its own for the operator. */
  predicate Normal(g: File) {
    && g.Keys == {OPERATOR, STARROCKS} && g[OPERATOR].Mapping? && g[STARROCKS].Mapping?
    && var o, s := g[OPERATOR].fields, g[STARROCKS].fields;
      && Filled(o, KeySet(OPERATOR_KEYS)) && Filled(s, KeySet(STARROCKS_KEYS))
      && o["timeZone"] == s["timeZone"] && o["nameOverride"] == s["nameOverride"]
      && ("global" in o || "starrocksOperator" in o)
  }

  lemma SectionedIsNormal(f: File)
    requires HasOwnKeys(f)
    ensures Normal(Sectioned(f))
  {
    KeyFacts();
    var g := Sectioned(f);
    assert forall k :: Cleaned(f, k) != Text("");
    assert g.Keys == {OPERATOR, STARROCKS};
  }

  lemma NormalIsSectioned(g: File)
    requires Normal(g)
    ensures var f := g[OPERATOR].fields + g[STARROCKS].fields;
      !IsNewFormat(f) && HasOwnKeys(f) && g == Sectioned(f)
  {
    hide KeySet;
    KeyFacts();
    var o, s := g[OPERATOR].fields, g[STARROCKS].fields;
    FilledIsItsSection(o, OWN + SHARED, o + s);
    FilledIsItsSection(s, KeySet(STARROCKS_KEYS), o + s);
    assert g == Sectioned(o + s);
  }

  lemma FilledIsItsSection(m: File, keys: set<string>, f: File)
    requires Filled(m, keys)
    requires forall k :: k in keys ==> Lookup(f, k) == Lookup(m, k)
    ensures Section(f, keys) == m
  {
    assert forall k :: k in keys && k !in m ==> DefaultFor(k) == Nil;
  }

  /** Downgrading a new-format file and upgrading it again returns the same file exactly when the file is
      normal. */
  lemma NewFormatRoundTripIff(g: File)
    requires IsNewFormat(g)
    ensures DowngradeThenUpgrade(g) == Some(g) <==> Normal(g)
  {
    if Normal(g) {
      var f := g[OPERATOR].fields + g[STARROCKS].fields;
      NormalIsSectioned(g);
      DowngradeFlattensIff(f);
      FlatIsOld(f);
      UpgradeSections(Flat(f));
    }
    if DowngradeThenUpgrade(g) == Some(g) {
      var flat := Read(Migrate(g, false)).value;
      assert !IsNewFormat(flat);
      UpgradeSections(flat);
      DowngradeFlattensIff(flat);
      SectionedIsNormal(flat);
    }
  }
}
