/** Dropping from the FE the compute nodes that scaling in left behind. */
module NodeCollection {
  import opened Json
  import opened Options
  import opened StatefulSets
  import opened ComputeNodes
  import opened Objects
  import Strings

  // ---- the node table of the FE ----

  function RowOf(n: Node): Row {
    Row([("ComputeNodeId", n.id), ("IP", n.fqdn), ("HeartbeatPort", n.port), ("WarehouseName", n.warehouse)])
  }

  predicate Indexed(n: Node) {
    OrdinalOf(n.fqdn) == Some(n.index)
  }

  predicate SameNode(a: Node, b: Node) {
    a.fqdn == b.fqdn && a.port == b.port && a.warehouse == b.warehouse
  }

  /** Host, port and warehouse identify a node; its index is what its host name says, if it says one. */
  predicate Table(nodes: set<Node>) {
    && (forall n :: n in nodes ==> OrdinalOf(n.fqdn).None? || Indexed(n))
    && (forall a, b :: a in nodes && b in nodes && a.fqdn == b.fqdn && a.port == b.port && a.warehouse == b.warehouse ==> a == b)
  }

  predicate AllIndexed(nodes: set<Node>) {
    forall n :: n in nodes ==> Indexed(n)
  }

  function OfWarehouse(nodes: set<Node>, warehouse: string): set<Node> {
    set n | n in nodes && n.warehouse == warehouse
  }

  function Elements(s: seq<Node>): set<Node> {
    set n | n in s
  }

  lemma ElementsConcat(a: seq<Node>, b: seq<Node>)
    ensures Elements(a + b) == Elements(a) + Elements(b)
  {
    forall n ensures n in Elements(a + b) <==> n in Elements(a) + Elements(b) {
      assert n in a + b <==> n in a || n in b;
    }
  }

  predicate NoDuplicates(s: seq<Node>) {
    forall i, j :: 0 <= i < j < |s| ==> s[i] != s[j]
  }

  function RowsOf(nodes: seq<Node>): (rows: seq<Row>)
    ensures |rows| == |nodes|
  {
    seq(|nodes|, i requires 0 <= i < |nodes| => RowOf(nodes[i]))
  }

  lemma ReadBackRow(n: Node)
    requires Indexed(n)
    ensures ReadRow(RowOf(n)) == Some(n)
    ensures ReadRow(Row([("ComputeNodeId", n.id), ("IP", n.fqdn), ("HeartbeatPort", n.port), ("WarehouseName", n.warehouse)])) == Some(n)
  {
    var c := RowOf(n).cells;
    var blank := Node("", "", "", "", 0);
    assert c[..3][..2] == c[..2] && c[..2][..1] == c[..1] && c[..1][..0] == [];
    assert ReadCells(blank, c[..1]) == Some(blank.(id := n.id));
    assert ReadCells(blank, c[..2]) == Some(blank.(id := n.id, fqdn := n.fqdn, index := n.index));
    assert ReadCells(blank, c[..3]) == Some(blank.(id := n.id, fqdn := n.fqdn, index := n.index, port := n.port));
    assert ReadCells(blank, c) == SetCell(blank.(id := n.id, fqdn := n.fqdn, index := n.index, port := n.port), "WarehouseName", n.warehouse);
  }

  /** Reading the rows of the table gives the nodes of the table. */
  lemma {:induction false} ReadBack(nodes: seq<Node>)
    requires forall i :: 0 <= i < |nodes| ==> Indexed(nodes[i])
    ensures ReadRows(RowsOf(nodes)) == Some(nodes)
  {
    hide Indexed, RowOf, ReadRow;
    if nodes != [] {
      ReadBack(nodes[..|nodes| - 1]);
      assert RowsOf(nodes)[..|nodes| - 1] == RowsOf(nodes[..|nodes| - 1]);
      ReadBackRow(Last(nodes));
      assert nodes[..|nodes| - 1] + [Last(nodes)] == nodes;
    }
  }

  /** One host name without an ordinal, in any warehouse, makes the rows unreadable. */
  lemma UnreadableNode(nodes: seq<Node>, i: nat)
    requires i < |nodes| && OrdinalOf(nodes[i].fqdn).None?
    ensures ReadRows(RowsOf(nodes)).None?
  {
    var c, blank := RowOf(nodes[i]).cells, Node("", "", "", "", 0);
    assert c[..2][..1] == c[..1] && c[..1][..0] == [];
    assert ReadCells(blank, c[..1]) == Some(blank.(id := nodes[i].id));
    UnreadableCell(blank, c, 1);
    UnreadableRow(RowsOf(nodes), i);
  }

  function DropNodeStatement(n: Node): string {
    "ALTER SYSTEM DROP COMPUTE NODE \"" + n.fqdn + ":" + n.port + "\" FROM WAREHOUSE " + n.warehouse
  }

  /** The FE, as far as compute nodes go: its table, and the statements that it was sent. */
  class FrontEndNodes {
    var nodes: set<Node>
    var statements: seq<string>

    constructor ()
      ensures nodes == {} && statements == []
    {
      nodes, statements := {}, [];
    }

    /** SHOW COMPUTE NODES lists every node once, in no particular order. */
    method Show() returns (rows: seq<Row>, ghost listed: seq<Node>)
      ensures rows == RowsOf(listed) && NoDuplicates(listed) && Elements(listed) == nodes
    {
      var rest := nodes;
      rows, listed := [], [];
      while rest != {}
        invariant rest <= nodes && Elements(listed) == nodes - rest
        invariant rows == RowsOf(listed) && NoDuplicates(listed)
      {
        var n :| n in rest;
        rest := rest - {n};
        ElementsConcat(listed, [n]);
        assert n !in Elements(listed);
        rows := rows + [RowOf(n)];
        listed := listed + [n];
      }
    }

    method ExecuteDropComputeNode(n: Node, ok: bool) returns (err: bool)
      modifies this
      ensures err == !ok && statements == old(statements) + [DropNodeStatement(n)]
      ensures nodes == if ok then set m | m in old(nodes) && !SameNode(m, n) else old(nodes)
    {
      statements := statements + [DropNodeStatement(n)];
      if ok {
        nodes := set m | m in nodes && !SameNode(m, n);
      }
      err := !ok;
    }
  }

  // ---- the collection ----

  datatype CollectError = ReplicasNotEqual | HashValueNotEqual | SqlFailed

  /** The SQL calls that fail: building the executor, the query, the drop of a node. */
  datatype Sql = Sql(executorOk: bool, showOk: bool, rowsErr: bool, dropOk: Node -> bool)

  function ReplicasOr1(t: Json): int {
    match Replicas(t) case Some(n) => n case None => 1
  }

  /** The StatefulSet is the expected one, and its pods are as many as expected and all up to date. */
  predicate RolledOut(hash: Hasher, expected: Json, actual: Stored, revisions: seq<string>) {
    && ReplicasOr1(expected) == ReplicasOr1(actual.tree) == |revisions|
    && StatefulSetDeepEqual(hash, expected, actual.tree).1
    && forall r :: r in revisions ==> r != "" && r == actual.status.updateRevision
  }

  /** The nodes of the warehouse in ascending order, as the sort happened to leave equal ordinals. */
  predicate Listing(nodes: set<Node>, warehouse: string, sorted: seq<Node>) {
    Ascending(sorted) && NoDuplicates(sorted) && Elements(sorted) == OfWarehouse(nodes, warehouse)
  }

  lemma SortedListing(listed: seq<Node>, nodes: set<Node>, warehouse: string, sorted: seq<Node>)
    requires NoDuplicates(listed) && Elements(listed) == nodes && Sorts(InWarehouse(listed, warehouse), sorted)
    ensures Listing(nodes, warehouse, sorted)
  {
    FilterFacts(listed, warehouse);
    SameMultiset(InWarehouse(listed, warehouse), sorted);
  }

  lemma {:induction false} FilterFacts(listed: seq<Node>, warehouse: string)
    requires NoDuplicates(listed)
    ensures NoDuplicates(InWarehouse(listed, warehouse))
    ensures Elements(InWarehouse(listed, warehouse)) == OfWarehouse(Elements(listed), warehouse)
  {
    if listed != [] {
      var front := listed[..|listed| - 1];
      FilterFacts(front, warehouse);
      assert Last(listed) !in front;
      assert listed == front + [Last(listed)];
      ElementsConcat(front, [Last(listed)]);
      ElementsConcat(InWarehouse(front, warehouse), [Last(listed)]);
      assert Last(listed) !in Elements(InWarehouse(front, warehouse));
    }
  }

  lemma SameMultiset(a: seq<Node>, b: seq<Node>)
    requires multiset(a) == multiset(b) && NoDuplicates(a)
    ensures NoDuplicates(b) && Elements(b) == Elements(a)
  {
    forall n ensures n in a <==> n in b {
      assert n in a <==> n in multiset(a);
    }
    forall n ensures multiset(a)[n] <= 1 {
      AtMostOnce(a, n);
    }
    forall i, j | 0 <= i < j < |b| ensures b[i] != b[j] {
      CountedTwice(b, i, j);
    }
  }

  lemma CountedTwice(b: seq<Node>, i: nat, j: nat)
    requires i < j < |b|
    ensures b[i] == b[j] ==> multiset(b)[b[i]] >= 2
  {
    assert b == b[..j] + [b[j]] + b[j + 1..];
    assert b[i] in b[..j];
  }

  lemma {:induction false} AtMostOnce(a: seq<Node>, n: Node)
    requires NoDuplicates(a)
    ensures multiset(a)[n] <= 1
  {
    if a != [] {
      assert a == a[..|a| - 1] + [Last(a)];
      AtMostOnce(a[..|a| - 1], n);
      if Last(a) == n {
        assert n !in a[..|a| - 1];
      }
    }
  }

  /** The statement that drops a node names its host, port and warehouse. */
  predicate Drops(statement: string, n: Node) {
    statement == "ALTER SYSTEM DROP COMPUTE NODE \"" + n.fqdn + ":" + n.port + "\" FROM WAREHOUSE " + n.warehouse
  }

  /** The statements sent for a list, from its back, down to position `last`. */
  predicate SentFor(statements: seq<string>, sorted: seq<Node>, last: nat) {
    last <= |sorted| && |statements| == |sorted| - last &&
    forall j :: 0 <= j < |statements| ==> Drops(statements[j], sorted[|sorted| - 1 - j])
  }

  /** The node table can be read: the executor is there, the query and its rows are good, and every host name
      in any warehouse has an ordinal. */
  predicate Listable(nodes: set<Node>, sql: Sql) {
    sql.executorOk && sql.showOk && !sql.rowsErr && forall n :: n in nodes ==> OrdinalOf(n.fqdn) == Some(n.index)
  }

  /** Nodes are dropped from the back of the ascending list, down to the expected number, until one drop
      fails.  `sorted` is the list the call worked on and `kept` how much of it is left.  The call succeeds
      exactly if the StatefulSet and its pods are all as expected, the table can be read and every excess
      node can be dropped; `tried` is the position of the last node tried. */
  method SyncComputeNodesInFE(fe: FrontEndNodes, hash: Hasher, expected: Doc, actual: Stored, revisions: seq<string>,
                              owner: Owner, sql: Sql)
    returns (err: Option<CollectError>, ghost warehouse: string, ghost sorted: seq<Node>, ghost kept: nat, ghost tried: nat)
    requires Table(fe.nodes)
    modifies fe
    ensures Table(fe.nodes)
    ensures if owner.OfCluster? then warehouse == "default_warehouse" else NamedInFE(owner.name, warehouse)
    ensures fe.nodes != old(fe.nodes) ==> RolledOut(hash, expected, actual, revisions) && Listable(old(fe.nodes), sql)
    ensures Listing(old(fe.nodes), warehouse, sorted) && kept <= |sorted|
    ensures fe.nodes == old(fe.nodes) - Elements(sorted[kept..])
    ensures kept < |sorted| ==> kept >= |revisions|
    ensures
      var wanted := if Replicas(expected).Some? then Replicas(expected).value else 1;
      var stored := if Replicas(actual.tree).Some? then Replicas(actual.tree).value else 1;
      var same := StatefulSetDeepEqual(hash, expected, actual.tree).1;
      var current := forall r :: r in revisions ==> r != "" && r == actual.status.updateRevision;
      && (err == Some(ReplicasNotEqual) <==> wanted != stored || (same && |revisions| != wanted))
      && (err == Some(HashValueNotEqual) <==> wanted == stored && (!same || (|revisions| == wanted && !current)))
      && (err.None? <==>
            && wanted == stored == |revisions| && same && current && Listable(old(fe.nodes), sql)
            && forall i :: |revisions| <= i < |sorted| ==> sql.dropOk(sorted[i]))
      && (!(wanted == stored == |revisions| && same && current && Listable(old(fe.nodes), sql)) ==>
            err.Some? && kept == |sorted| && fe.statements == old(fe.statements))
    ensures err.None? ==> kept == if |sorted| <= |revisions| then |sorted| else |revisions|
    ensures err == Some(SqlFailed) && kept < |sorted| ==> kept > |revisions| && !sql.dropOk(sorted[kept - 1])
    ensures forall i :: kept <= i < |sorted| ==> sql.dropOk(sorted[i])
    ensures exists sent :: fe.statements == old(fe.statements) + sent && SentFor(sent, sorted, tried)
    ensures err.None? ==> tried == kept
    ensures err.Some? ==> tried == kept == |sorted| || (tried == kept - 1 && !sql.dropOk(sorted[tried]))
  {
    hide Table, Listing, StatefulSetDeepEqual, SentFor, NamedInFE, Replicas, OrdinalOf;
    warehouse := WarehouseInFE(owner);
    if owner.OfWarehouse? {
      OnlyNameInFE(owner.name, warehouse);
    }
    ghost var all := AnyListing(fe.nodes, warehouse);
    sorted, kept, tried := all, |all|, |all|;
    NothingSent(fe.statements, sorted);
    assert sorted[kept..] == [];
    if ReplicasOr1(expected) != ReplicasOr1(actual.tree) {
      return Some(ReplicasNotEqual), warehouse, sorted, kept, tried;
    }
    if !StatefulSetDeepEqual(hash, expected, actual.tree).1 {
      return Some(HashValueNotEqual), warehouse, sorted, kept, tried;
    }
    if |revisions| != ReplicasOr1(expected) {
      return Some(ReplicasNotEqual), warehouse, sorted, kept, tried;
    }
    for i := 0 to |revisions|
      invariant forall k :: 0 <= k < i ==> revisions[k] != "" && revisions[k] == actual.status.updateRevision
    {
      if revisions[i] == "" || revisions[i] != actual.status.updateRevision {
        assert revisions[i] in revisions;
        return Some(HashValueNotEqual), warehouse, sorted, kept, tried;
      }
    }
    if !sql.executorOk || !sql.showOk {
      return Some(SqlFailed), warehouse, sorted, kept, tried;
    }
    var warehouseNameInFE := DEFAULT_WAREHOUSE;
    if owner.OfWarehouse? {
      warehouseNameInFE := GetWarehouseNameInFE(owner.name);
    }
    var computeNodes;
    err, computeNodes, sorted := ListNodes(fe, warehouseNameInFE, sql.rowsErr);
    kept, tried := |sorted|, |sorted|;
    NothingSent(fe.statements, sorted);
    assert sorted[kept..] == [];
    if err.Some? {
      return;
    }
    err, kept, tried := DropExcess(fe, computeNodes, warehouseNameInFE, |revisions|, sql.dropOk);
  }

  lemma NothingSent(statements: seq<string>, sorted: seq<Node>)
    ensures statements == statements + [] && SentFor([], sorted, |sorted|)
  {}

  ghost function AnyListing(nodes: set<Node>, warehouse: string): (s: seq<Node>)
    ensures Listing(nodes, warehouse, s)
  {
    ListingExists(OfWarehouse(nodes, warehouse));
    var s :| Ascending(s) && NoDuplicates(s) && Elements(s) == OfWarehouse(nodes, warehouse);
    s
  }

  lemma {:induction false} ListingExists(nodes: set<Node>)
    ensures exists s :: Ascending(s) && NoDuplicates(s) && Elements(s) == nodes
    decreases |nodes|
  {
    if nodes == {} {
      assert Ascending([]) && NoDuplicates([]) && Elements([]) == nodes;
    } else {
      var m := Highest(nodes);
      ListingExists(nodes - {m});
      var s :| Ascending(s) && NoDuplicates(s) && Elements(s) == nodes - {m};
      AppendHighest(s, m, nodes);
    }
  }

  lemma AppendHighest(s: seq<Node>, m: Node, nodes: set<Node>)
    requires Ascending(s) && NoDuplicates(s) && Elements(s) == nodes - {m}
    requires m in nodes && forall n :: n in nodes ==> n.index <= m.index
    ensures Ascending(s + [m]) && NoDuplicates(s + [m]) && Elements(s + [m]) == nodes
  {
    ElementsConcat(s, [m]);
    forall i | 0 <= i < |s| ensures s[i] in nodes && s[i] != m {
      assert s[i] in Elements(s);
    }
  }

  lemma {:induction false} Highest(nodes: set<Node>) returns (m: Node)
    requires nodes != {}
    ensures m in nodes && forall n :: n in nodes ==> n.index <= m.index
    decreases |nodes|
  {
    m :| m in nodes;
    if nodes != {m} {
      var rest := Highest(nodes - {m});
      if rest.index > m.index {
        m := rest;
      }
    }
  }

  /** Every node has to have an ordinal in its host name, those of other warehouses too. */
  method ListNodes(fe: FrontEndNodes, warehouse: string, rowsErr: bool)
    returns (err: Option<CollectError>, computeNodes: seq<Node>, ghost sorted: seq<Node>)
    requires Table(fe.nodes)
    ensures Listing(fe.nodes, warehouse, sorted)
    ensures err.None? <==> AllIndexed(fe.nodes) && !rowsErr
    ensures err.None? ==> computeNodes == sorted
    ensures err.Some? ==> err == Some(SqlFailed)
  {
    sorted := AnyListing(fe.nodes, warehouse);
    var rows, listed := fe.Show();
    ReadableIff(fe.nodes, listed);
    var result := QueryShowComputeNodes(rows, rowsErr);
    if result.None? {
      return Some(SqlFailed), [], sorted;
    }
    if warehouse !in result.value {
      NoneInWarehouse(listed, warehouse);
      assert Sorts(InWarehouse(listed, warehouse), []);
    }
    computeNodes := if warehouse in result.value then result.value[warehouse] else [];
    SortedListing(listed, fe.nodes, warehouse, computeNodes);
    return None, computeNodes, computeNodes;
  }

  lemma ReadableIff(nodes: set<Node>, listed: seq<Node>)
    requires Table(nodes) && Elements(listed) == nodes
    ensures ReadRows(RowsOf(listed)).Some? <==> AllIndexed(nodes)
    ensures AllIndexed(nodes) ==> ReadRows(RowsOf(listed)) == Some(listed)
  {
    if AllIndexed(nodes) {
      forall i | 0 <= i < |listed| ensures Indexed(listed[i]) { assert listed[i] in Elements(listed); }
      ReadBack(listed);
    } else {
      var n :| n in nodes && !Indexed(n);
      var i :| 0 <= i < |listed| && listed[i] == n;
      UnreadableNode(listed, i);
    }
  }

  method DropExcess(fe: FrontEndNodes, computeNodes: seq<Node>, warehouse: string, replicas: nat, dropOk: Node -> bool)
    returns (err: Option<CollectError>, ghost kept: nat, ghost tried: nat)
    requires Table(fe.nodes) && Listing(fe.nodes, warehouse, computeNodes)
    modifies fe
    ensures Table(fe.nodes)
    ensures kept <= |computeNodes| && fe.nodes == old(fe.nodes) - Elements(computeNodes[kept..])
    ensures kept < |computeNodes| ==> kept >= replicas
    ensures err.None? ==> kept == if |computeNodes| <= replicas then |computeNodes| else replicas
    ensures err.None? <==> forall i :: replicas <= i < |computeNodes| ==> dropOk(computeNodes[i])
    ensures err.Some? ==> err == Some(SqlFailed) && kept > replicas && !dropOk(computeNodes[kept - 1])
    ensures forall i :: kept <= i < |computeNodes| ==> dropOk(computeNodes[i])
    ensures tried == (if err.None? then kept else kept - 1)
    ensures exists sent :: fe.statements == old(fe.statements) + sent && SentFor(sent, computeNodes, tried)
  {
    hide Table, DropNodeStatement, Listing;
    kept, tried := |computeNodes|, |computeNodes|;
    ghost var sent: seq<string> := [];
    assert computeNodes[kept..] == [];
    if |computeNodes| > replicas {
      var i := |computeNodes| - 1;
      while i >= replicas
        invariant replicas <= i + 1 <= |computeNodes|
        invariant fe.nodes == old(fe.nodes) - Elements(computeNodes[i + 1..])
        invariant forall j :: i < j < |computeNodes| ==> dropOk(computeNodes[j])
        invariant fe.statements == old(fe.statements) + sent && SentFor(sent, computeNodes, i + 1)
      {
        kept, tried := i + 1, i;
        var failed := fe.ExecuteDropComputeNode(computeNodes[i], dropOk(computeNodes[i]));
        SentOne(sent, computeNodes, i);
        sent := sent + [DropNodeStatement(computeNodes[i])];
        if failed {
          SubtableIsTable(old(fe.nodes), Elements(computeNodes[i + 1..]));
          return Some(SqlFailed), kept, tried;
        }
        DropsOne(old(fe.nodes), computeNodes, warehouse, i);
        i := i - 1;
      }
      kept, tried := i + 1, i + 1;
    }
    SubtableIsTable(old(fe.nodes), Elements(computeNodes[kept..]));
    return None, kept, tried;
  }

  lemma SentOne(sent: seq<string>, sorted: seq<Node>, i: nat)
    requires i < |sorted| && SentFor(sent, sorted, i + 1)
    ensures SentFor(sent + [DropNodeStatement(sorted[i])], sorted, i)
  {}

  lemma SubtableIsTable(nodes: set<Node>, dropped: set<Node>)
    requires Table(nodes)
    ensures Table(nodes - dropped)
  {}

  lemma DropsOne(nodes: set<Node>, sorted: seq<Node>, warehouse: string, i: nat)
    requires Table(nodes) && Listing(nodes, warehouse, sorted) && i < |sorted|
    ensures (set m | m in nodes - Elements(sorted[i + 1..]) && !SameNode(m, sorted[i])) == nodes - Elements(sorted[i..])
  {
    assert sorted[i] in Elements(sorted);
    assert sorted[i..] == [sorted[i]] + sorted[i + 1..];
  }

  // ---- what is dropped ----

  predicate DistinctOrdinals(nodes: set<Node>) {
    forall a, b :: a in nodes && b in nodes && a.index == b.index ==> a == b
  }

  lemma IndexedIsNatural(n: Node)
    requires Indexed(n)
    ensures n.index >= 0
  {
    OrdinalIsNatural(n.fqdn);
  }

  /** Pigeonhole: in an ascending list of distinct naturals the entry at position i is at least i. */
  lemma {:induction false} AtLeastItsPosition(sorted: seq<Node>, i: nat)
    requires Ascending(sorted) && i < |sorted|
    requires forall j, k :: 0 <= j < k < |sorted| ==> sorted[j].index != sorted[k].index
    requires forall j :: 0 <= j < |sorted| ==> sorted[j].index >= 0
    ensures sorted[i].index >= i
  {
    if i > 0 {
      AtLeastItsPosition(sorted, i - 1);
    }
  }

  lemma ListingIndexes(nodes: set<Node>, warehouse: string, sorted: seq<Node>)
    requires AllIndexed(nodes) && Listing(nodes, warehouse, sorted)
    ensures forall j :: 0 <= j < |sorted| ==> sorted[j] in OfWarehouse(nodes, warehouse) && sorted[j].index >= 0
    ensures DistinctOrdinals(OfWarehouse(nodes, warehouse)) ==>
              forall j, k :: 0 <= j < k < |sorted| ==> sorted[j].index != sorted[k].index
  {
    forall j | 0 <= j < |sorted| ensures sorted[j] in OfWarehouse(nodes, warehouse) && sorted[j].index >= 0 {
      assert sorted[j] in Elements(sorted);
      IndexedIsNatural(sorted[j]);
    }
  }

  /** No live node is dropped: with distinct ordinals in the warehouse, whatever is dropped has an ordinal
      of at least the number of replicas, even if some of the live pods are not registered. */
  lemma OnlyDeadNodesAreDropped(nodes: set<Node>, warehouse: string, sorted: seq<Node>, kept: nat, replicas: nat, n: Node)
    requires AllIndexed(nodes) && Listing(nodes, warehouse, sorted) && replicas <= kept <= |sorted|
    requires DistinctOrdinals(OfWarehouse(nodes, warehouse)) && n in Elements(sorted[kept..])
    ensures n.index >= replicas && n.warehouse == warehouse
  {
    ListingIndexes(nodes, warehouse, sorted);
    var i :| 0 <= i < |sorted[kept..]| && sorted[kept..][i] == n;
    AtLeastItsPosition(sorted, kept + i);
  }

  function LowOrdinals(nodes: set<Node>, warehouse: string, replicas: nat): set<Node> {
    set n | n in nodes && n.warehouse == warehouse && n.index < replicas
  }

  lemma {:induction false} CardinalityOf(s: seq<Node>)
    requires NoDuplicates(s)
    ensures |Elements(s)| == |s|
  {
    if s != [] {
      var front := s[..|s| - 1];
      CardinalityOf(front);
      assert s == front + [Last(s)];
      assert Elements(s) == Elements(front) + {Last(s)};
      assert Last(s) !in front;
    }
  }

  lemma SubsetCardinality(a: set<Node>, b: set<Node>)
    requires a <= b
    ensures |a| <= |b|
  {
    assert b == a + (b - a);
  }

  /** Without that hypothesis: a complete collection spares every live ordinal exactly when the FE lists
      no more nodes with live ordinals than there are replicas. */
  lemma LiveNodesAreSparedIff(nodes: set<Node>, warehouse: string, sorted: seq<Node>, replicas: nat)
    requires Listing(nodes, warehouse, sorted) && replicas <= |sorted|
    ensures (forall n :: n in Elements(sorted[replicas..]) ==> n.index >= replicas) <==>
            |LowOrdinals(nodes, warehouse, replicas)| <= replicas
  {
    if forall n :: n in Elements(sorted[replicas..]) ==> n.index >= replicas {
      SparedMeansFewLow(nodes, warehouse, sorted, replicas);
    } else {
      var n :| n in Elements(sorted[replicas..]) && n.index < replicas;
      var k :| 0 <= k < |sorted[replicas..]| && sorted[replicas..][k] == n;
      LowMeansManyLow(nodes, warehouse, sorted, replicas, replicas + k);
    }
  }

  lemma SparedMeansFewLow(nodes: set<Node>, warehouse: string, sorted: seq<Node>, replicas: nat)
    requires Listing(nodes, warehouse, sorted) && replicas <= |sorted|
    requires forall n :: n in Elements(sorted[replicas..]) ==> n.index >= replicas
    ensures |LowOrdinals(nodes, warehouse, replicas)| <= replicas
  {
    var low := LowOrdinals(nodes, warehouse, replicas);
    assert sorted == sorted[..replicas] + sorted[replicas..];
    ElementsConcat(sorted[..replicas], sorted[replicas..]);
    forall n | n in low ensures n in Elements(sorted[..replicas]) {
      assert n in OfWarehouse(nodes, warehouse);
    }
    SubsetCardinality(low, Elements(sorted[..replicas]));
    CardinalityOf(sorted[..replicas]);
  }

  lemma LowMeansManyLow(nodes: set<Node>, warehouse: string, sorted: seq<Node>, replicas: nat, i: nat)
    requires Listing(nodes, warehouse, sorted) && i < |sorted| && sorted[i].index < replicas
    ensures |LowOrdinals(nodes, warehouse, replicas)| > i
  {
    var front := sorted[..i + 1];
    forall m | m in Elements(front) ensures m in LowOrdinals(nodes, warehouse, replicas) {
      var j :| 0 <= j < |front| && front[j] == m;
      assert sorted[j].index <= sorted[i].index;
      assert m in Elements(sorted);
    }
    SubsetCardinality(Elements(front), LowOrdinals(nodes, warehouse, replicas));
    CardinalityOf(front);
  }

  /** The nodes that stay are the ones with the lowest ordinals. */
  lemma LowestAreKept(nodes: set<Node>, warehouse: string, sorted: seq<Node>, kept: nat, a: Node, b: Node)
    requires Listing(nodes, warehouse, sorted) && kept <= |sorted|
    requires a in OfWarehouse(nodes - Elements(sorted[kept..]), warehouse) && b in Elements(sorted[kept..])
    ensures a.index <= b.index
  {
    assert a in Elements(sorted);
    var i :| 0 <= i < |sorted| && sorted[i] == a;
    var j :| 0 <= j < |sorted[kept..]| && sorted[kept..][j] == b;
    assert forall k :: kept <= k < |sorted| ==> sorted[k] == sorted[kept..][k - kept] && sorted[k] in Elements(sorted[kept..]);
    assert i < kept <= kept + j;
  }

  predicate Registered(nodes: set<Node>, warehouse: string, ordinal: int) {
    exists n :: n in nodes && n.warehouse == warehouse && n.index == ordinal
  }

  lemma {:induction false} LiveAtItsPosition(nodes: set<Node>, warehouse: string, sorted: seq<Node>, replicas: nat, i: nat)
    requires AllIndexed(nodes) && Listing(nodes, warehouse, sorted) && DistinctOrdinals(OfWarehouse(nodes, warehouse))
    requires forall o: nat :: o < replicas ==> Registered(nodes, warehouse, o)
    requires i < replicas
    ensures i < |sorted| && sorted[i].index == i
  {
    forall j: nat | j < i ensures j < |sorted| && sorted[j].index == j {
      LiveAtItsPosition(nodes, warehouse, sorted, replicas, j);
    }
    ListingIndexes(nodes, warehouse, sorted);
    assert Registered(nodes, warehouse, i);
    var n :| n in nodes && n.warehouse == warehouse && n.index == i;
    assert n in OfWarehouse(nodes, warehouse);
    assert n in Elements(sorted);
    var p :| 0 <= p < |sorted| && sorted[p] == n;
    AtLeastItsPosition(sorted, i);
  }

  /** If every live ordinal is registered once, a complete collection leaves the warehouse with exactly the
      live ordinals. */
  lemma ExactlyTheLiveRemain(nodes: set<Node>, warehouse: string, sorted: seq<Node>, replicas: nat)
    requires AllIndexed(nodes) && Listing(nodes, warehouse, sorted) && DistinctOrdinals(OfWarehouse(nodes, warehouse))
    requires forall o: nat :: o < replicas ==> Registered(nodes, warehouse, o)
    ensures replicas <= |sorted|
    ensures forall o :: Registered(nodes - Elements(sorted[replicas..]), warehouse, o) <==> 0 <= o < replicas
  {
    forall i: nat | i < replicas ensures i < |sorted| && sorted[i].index == i {
      LiveAtItsPosition(nodes, warehouse, sorted, replicas, i);
    }
    if replicas > 0 {
      LiveAtItsPosition(nodes, warehouse, sorted, replicas, replicas - 1);
    }
    var left := nodes - Elements(sorted[replicas..]);
    PrefixListing(sorted, replicas);
    forall n | n in left && n.warehouse == warehouse ensures 0 <= n.index < replicas {
      assert n in OfWarehouse(nodes, warehouse);
      assert n in Elements(sorted[..replicas]);
      var j :| 0 <= j < replicas && sorted[j] == n;
    }
    forall o | 0 <= o < replicas ensures Registered(left, warehouse, o) {
      assert sorted[..replicas][o] in Elements(sorted[..replicas]);
      assert sorted[o] in OfWarehouse(nodes, warehouse) && sorted[o] in left;
    }
  }

  /** With a repeated ordinal the collection can drop a live node: of two nodes with ordinal 0, left by a
      host name that changed behind the ordinal, one replica keeps either. */
  lemma RepeatedOrdinalIsDropped(name: string, domainA: string, domainB: string, port: string, warehouse: string)
    requires '.' !in name && domainA != domainB
    ensures var host := name + "-" + Strings.FormatNat(0) + ".";
      var a := Node("1", host + domainA, port, warehouse, 0);
      var b := Node("2", host + domainB, port, warehouse, 0);
      && Table({a, b}) && AllIndexed({a, b}) && Listing({a, b}, warehouse, [a, b])
      && b in Elements([a, b][1..]) && b.index < 1
      && |LowOrdinals({a, b}, warehouse, 1)| == 2
  {
    hide OrdinalOf, Strings.FormatNat;
    OrdinalInvertsPrinting(name, 0, domainA);
    OrdinalInvertsPrinting(name, 0, domainB);
    var host := name + "-" + Strings.FormatNat(0) + ".";
    var a := Node("1", host + domainA, port, warehouse, 0);
    var b := Node("2", host + domainB, port, warehouse, 0);
    assert (host + domainA)[|host|..] == domainA && (host + domainB)[|host|..] == domainB;
    assert Elements([a, b]) == {a, b} == OfWarehouse({a, b}, warehouse);
    assert [a, b][1..] == [b];
    assert LowOrdinals({a, b}, warehouse, 1) == {a, b};
  }

  /** A failed collection is made good by a later one: what is left of the list is a listing again, and it
      is shorter as soon as one drop went through. */
  lemma RetryContinues(nodes: set<Node>, warehouse: string, sorted: seq<Node>, kept: nat)
    requires Table(nodes) && Listing(nodes, warehouse, sorted) && kept <= |sorted|
    ensures Table(nodes - Elements(sorted[kept..])) && Listing(nodes - Elements(sorted[kept..]), warehouse, sorted[..kept])
    ensures |OfWarehouse(nodes - Elements(sorted[kept..]), warehouse)| == kept
    ensures forall v :: v != warehouse ==> OfWarehouse(nodes - Elements(sorted[kept..]), v) == OfWarehouse(nodes, v)
  {
    var dropped := Elements(sorted[kept..]);
    PrefixListing(sorted, kept);
    assert Elements(sorted[..kept]) == OfWarehouse(nodes - dropped, warehouse) by {
      assert forall n :: n in OfWarehouse(nodes - dropped, warehouse) <==> n in OfWarehouse(nodes, warehouse) && n !in dropped;
    }
    CardinalityOf(sorted[..kept]);
    OthersUntouched(nodes, warehouse, dropped);
  }

  lemma PrefixListing(sorted: seq<Node>, kept: nat)
    requires Ascending(sorted) && NoDuplicates(sorted) && kept <= |sorted|
    ensures Ascending(sorted[..kept]) && NoDuplicates(sorted[..kept])
    ensures Elements(sorted[..kept]) == Elements(sorted) - Elements(sorted[kept..])
    ensures Elements(sorted[kept..]) <= Elements(sorted)
  {
    assert sorted == sorted[..kept] + sorted[kept..];
    ElementsConcat(sorted[..kept], sorted[kept..]);
    KeptApartFromDropped(sorted, kept);
  }

  lemma OthersUntouched(nodes: set<Node>, warehouse: string, dropped: set<Node>)
    requires dropped <= OfWarehouse(nodes, warehouse)
    ensures forall v :: v != warehouse ==> OfWarehouse(nodes - dropped, v) == OfWarehouse(nodes, v)
  {
    forall v | v != warehouse ensures OfWarehouse(nodes - dropped, v) == OfWarehouse(nodes, v) {
      forall n ensures n in OfWarehouse(nodes - dropped, v) <==> n in OfWarehouse(nodes, v) {}
    }
  }

  lemma KeptApartFromDropped(sorted: seq<Node>, kept: nat)
    requires NoDuplicates(sorted) && kept <= |sorted|
    ensures Elements(sorted[..kept]) !! Elements(sorted[kept..])
  {
    forall n | n in Elements(sorted[..kept]) ensures n !in Elements(sorted[kept..]) {
      var i :| 0 <= i < kept && sorted[i] == n;
      forall j | 0 <= j < |sorted[kept..]| ensures sorted[kept..][j] != n {
        assert sorted[kept..][j] == sorted[kept + j];
      }
    }
  }
}
