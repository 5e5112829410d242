/** Kubernetes objects as JSON trees.  A list that Kubernetes merges by key (containers, env,
    finalizers, ...) is an object indexed by that key; every other list is an atom. */
module Json {
  import opened Options

  /** `Text(doc)` is a string whose content is the JSON text of `doc`; it is how an object carries
      its last applied configuration in an annotation. */
  datatype Json =
    | Null
    | Atom(text: string)
    | Num(n: int)
    | Text(doc: Json)
    | Obj(fields: map<string, Json>)

  type Path = seq<string>

  const EMPTY: Json := Obj(map[])

  /** The fields of an object; none for any other value. */
  function Fields(j: Json): map<string, Json> {
    if j.Obj? then j.fields else map[]
  }

  function Child(j: Json, key: string): Json {
    if key in Fields(j) then Fields(j)[key] else Null
  }

  /** No null below `j`; what a stored object and a serialized Go struct look like. */
  predicate Clean(j: Json) {
    match j
    case Null => false
    case Obj(m) => forall k :: k in m ==> Clean(m[k])
    case _ => true
  }

  predicate CleanObj(j: Json) {
    j.Obj? && Clean(j)
  }

  /** The value at a path, if there is one. */
  function At(j: Json, p: Path): Option<Json> {
    if p == [] then Some(j)
    else if p[0] in Fields(j) then At(j.fields[p[0]], p[1..])
    else None
  }

  /** `j` has a non-object value at some prefix of `p`, so that nothing can live further down. */
  predicate LeafOn(j: Json, p: Path) {
    !j.Obj? || (p != [] && p[0] in j.fields && LeafOn(j.fields[p[0]], p[1..]))
  }

  /** `j` with `v` at the non-empty path `p`; missing objects on the way are created. */
  function SetAt(j: Json, p: Path, v: Json): (r: Json)
    requires p != []
    ensures r.Obj?
    decreases |p|
  {
    Obj(Fields(j)[p[0] := if |p| == 1 then v else SetAt(Child(j, p[0]), p[1..], v)])
  }

  /** `j` without the value at the non-empty path `p`. */
  function RemoveAt(j: Json, p: Path): (r: Json)
    requires p != []
    ensures j.Obj? ==> r.Obj?
  {
    if p[0] !in Fields(j) then j
    else if |p| == 1 then Obj(j.fields - {p[0]})
    else Obj(j.fields[p[0] := RemoveAt(j.fields[p[0]], p[1..])])
  }

  /** Neither path is a prefix of the other. */
  predicate Apart(p: Path, q: Path) {
    p != [] && q != [] && (p[0] != q[0] || Apart(p[1..], q[1..]))
  }

  lemma {:induction false} SetAtSame(j: Json, p: Path, v: Json)
    requires p != []
    ensures At(SetAt(j, p, v), p) == Some(v)
    decreases |p|
  {
    var r := SetAt(j, p, v);
    if |p| == 1 {
      assert p[1..] == [];
    } else {
      SetAtSame(Child(j, p[0]), p[1..], v);
    }
  }

  lemma {:induction false} SetAtApart(j: Json, p: Path, v: Json, q: Path)
    requires Apart(p, q)
    ensures At(SetAt(j, p, v), q) == At(j, q)
    decreases |p|
  {
    if p[0] == q[0] {
      SetAtApart(Child(j, p[0]), p[1..], v, q[1..]);
      assert At(Null, q[1..]) == None;
    }
  }

  lemma {:induction false} SetAtClean(j: Json, p: Path, v: Json)
    requires p != [] && CleanObj(j) && Clean(v)
    ensures CleanObj(SetAt(j, p, v))
    decreases |p|
  {
    if |p| > 1 {
      var c := Child(j, p[0]);
      if c.Obj? {
        SetAtClean(c, p[1..], v);
      } else {
        SetAtClean(EMPTY, p[1..], v);
        assert SetAt(c, p[1..], v) == SetAt(EMPTY, p[1..], v);
      }
    }
  }

  lemma {:induction false} RemoveAtApart(j: Json, p: Path, q: Path)
    requires Apart(p, q)
    ensures At(RemoveAt(j, p), q) == At(j, q)
  {
    if p[0] == q[0] && p[0] in Fields(j) {
      RemoveAtApart(j.fields[p[0]], p[1..], q[1..]);
    }
  }

  lemma {:induction false} RemoveAtGone(j: Json, p: Path)
    requires p != []
    ensures At(RemoveAt(j, p), p) == None
  {
    if |p| > 1 && p[0] in Fields(j) {
      RemoveAtGone(j.fields[p[0]], p[1..]);
    }
  }

  lemma {:induction false} AtClean(j: Json, p: Path)
    requires Clean(j)
    ensures At(j, p).Some? ==> Clean(At(j, p).value)
  {
    if p != [] && p[0] in Fields(j) {
      AtClean(j.fields[p[0]], p[1..]);
    }
  }
}
