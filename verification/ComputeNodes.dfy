/** Compute nodes that the FE knows: reading them, ordering them, and dropping those that no longer have
    a pod. */
module ComputeNodes {
  import opened Options
  import Strings

  datatype Node = Node(id: string, fqdn: string, port: string, warehouse: string, index: int)

  /** One row of SHOW COMPUTE NODES: its columns with their values, or a failed scan. */
  datatype Row = Broken | Row(cells: seq<(string, string)>)

  const MAX_INT := 0x7fff_ffff_ffff_ffff

  // ---- the ordinal of a pod ----

  predicate IsBlank(c: char) { c == ' ' || c == '\t' || c == '\r' }

  function SkipBlanks(s: string): string {
    if s != [] && IsBlank(s[0]) then SkipBlanks(s[1..]) else s
  }

  function LeadingDigits(s: string): (d: string)
    ensures forall i :: 0 <= i < |d| ==> Strings.IsDigit(d[i])
  {
    if s != [] && Strings.IsDigit(s[0]) then [s[0]] + LeadingDigits(s[1..]) else []
  }

  /** Sscanf with "%d": blanks, a sign, digits; what follows is ignored. */
  function ScanInt(s: string): Option<int> {
    var t := SkipBlanks(s);
    var negative := t != [] && t[0] == '-';
    var digits := LeadingDigits(if t != [] && (t[0] == '+' || t[0] == '-') then t[1..] else t);
    if digits == [] then None
    else
      var n := if negative then -(Strings.ValueOf(digits) as int) else Strings.ValueOf(digits) as int;
      if -MAX_INT - 1 <= n <= MAX_INT then Some(n) else None
  }

  predicate Blanks(s: string) {
    forall i :: 0 <= i < |s| ==> s[i] == ' ' || s[i] == '\t' || s[i] == '\r'
  }

  predicate Digits(s: string) {
    forall i :: 0 <= i < |s| ==> '0' <= s[i] <= '9'
  }

  lemma {:induction false} BlanksAreSkipped(blanks: string, t: string)
    requires Blanks(blanks) && (t != "" ==> !IsBlank(t[0]))
    ensures SkipBlanks(blanks + t) == t
  {
    if blanks != [] {
      assert (blanks + t)[1..] == blanks[1..] + t;
      BlanksAreSkipped(blanks[1..], t);
    } else {
      assert blanks + t == t;
    }
  }

  lemma {:induction false} DigitsAreRead(digits: string, rest: string)
    requires Digits(digits) && (rest != "" ==> !('0' <= rest[0] <= '9'))
    ensures LeadingDigits(digits + rest) == digits
  {
    if digits != [] {
      assert (digits + rest)[1..] == digits[1..] + rest;
      DigitsAreRead(digits[1..], rest);
    } else {
      assert digits + rest == rest;
    }
  }

  /** What is scanned: blanks, a sign or none, digits, and whatever follows; without digits, or out of range,
      there is no number. */
  lemma ScanIs(blanks: string, sign: string, digits: string, rest: string)
    requires Blanks(blanks) && sign in {"", "+", "-"} && Digits(digits)
    requires rest != "" ==> !('0' <= rest[0] <= '9')
    requires sign == digits == "" && rest != "" ==> rest[0] != '+' && rest[0] != '-' && !Blanks([rest[0]])
    ensures ScanInt(blanks + sign + digits + rest) ==
      var n := if sign == "-" then -(Strings.ValueOf(digits) as int) else Strings.ValueOf(digits) as int;
      if digits == "" || n < -0x8000_0000_0000_0000 || n > 0x7fff_ffff_ffff_ffff then None else Some(n)
  {
    hide SkipBlanks, LeadingDigits, Strings.ValueOf;
    var t := sign + (digits + rest);
    assert blanks + sign + digits + rest == blanks + t;
    if sign == "" {
      assert t == digits + rest;
      NoBlankAhead(digits, rest);
    } else {
      assert t[0] == sign[0] && t[1..] == digits + rest;
    }
    BlanksAreSkipped(blanks, t);
    DigitsAreRead(digits, rest);
  }

  lemma NoBlankAhead(digits: string, rest: string)
    requires Digits(digits) && (digits == "" && rest != "" ==> !Blanks([rest[0]]))
    ensures digits + rest != "" ==> !IsBlank((digits + rest)[0])
    ensures digits + rest != "" && (digits + rest)[0] in {'+', '-'} ==> digits == ""
  {}

  function Last<T>(s: seq<T>): T
    requires s != []
  {
    s[|s| - 1]
  }

  /** The index is what follows the last dash of the first label of the host name. */
  function OrdinalOf(fqdn: string): Option<int> {
    ScanInt(Last(Strings.Split(Strings.Split(fqdn, '.')[0], '-')))
  }

  lemma {:induction false} LeadingDigitsOfDigits(s: string)
    requires forall i :: 0 <= i < |s| ==> Strings.IsDigit(s[i])
    ensures LeadingDigits(s) == s
  {
    if s != [] {
      LeadingDigitsOfDigits(s[1..]);
    }
  }

  lemma {:induction false} SplitHasNoSep(s: string, sep: char)
    ensures forall i :: 0 <= i < |Strings.Split(s, sep)| ==> sep !in Strings.Split(s, sep)[i]
  {
    if s != [] {
      SplitHasNoSep(s[1..], sep);
    }
  }

  lemma {:induction false} SkipBlanksKeepsOut(s: string, c: char)
    requires c !in s
    ensures c !in SkipBlanks(s)
  {
    if s != [] && IsBlank(s[0]) {
      SkipBlanksKeepsOut(s[1..], c);
    }
  }

  /** Parsing a pod's host name inverts printing it, for every StatefulSet name without a dot. */
  lemma OrdinalInvertsPrinting(name: string, i: nat, rest: string)
    requires '.' !in name && i <= MAX_INT
    ensures OrdinalOf(name + "-" + Strings.FormatNat(i) + "." + rest) == Some(i)
  {
    var digits := Strings.FormatNat(i);
    var host := name + "-" + digits;
    assert '.' !in digits && '-' !in digits;
    Strings.SplitFirst(host, '.', rest);
    assert host + ['.'] + rest == name + "-" + digits + "." + rest;
    Strings.SplitLast(name, '-', digits);
    assert name + ['-'] + digits == host;
    LeadingDigitsOfDigits(digits);
    Strings.ValueOfFormat(i);
  }

  /** Whatever the host name, a parsed index is never negative: a dash cannot be in the last part. */
  lemma OrdinalIsNatural(fqdn: string)
    ensures OrdinalOf(fqdn).Some? ==> OrdinalOf(fqdn).value >= 0
  {
    var parts := Strings.Split(Strings.Split(fqdn, '.')[0], '-');
    SplitHasNoSep(Strings.Split(fqdn, '.')[0], '-');
    SkipBlanksKeepsOut(Last(parts), '-');
  }

  // ---- one row ----

  function SetCell(n: Node, column: string, value: string): Option<Node> {
    if column == "ComputeNodeId" then Some(n.(id := value))
    else if column == "IP" then
      if OrdinalOf(value).None? then None else Some(n.(fqdn := value, index := OrdinalOf(value).value))
    else if column == "HeartbeatPort" then Some(n.(port := value))
    else if column == "WarehouseName" then Some(n.(warehouse := value))
    else Some(n)
  }

  function ReadCells(n: Node, cells: seq<(string, string)>): Option<Node> {
    if cells == [] then Some(n)
    else
      var last := Last(cells);
      match ReadCells(n, cells[..|cells| - 1])
      case None => None
      case Some(m) => SetCell(m, last.0, last.1)
  }

  function ReadRow(r: Row): Option<Node> {
    if r.Broken? then None else ReadCells(Node("", "", "", "", 0), r.cells)
  }

  // ---- grouping ----

  /** The nodes of the rows, in order, if every row can be read. */
  function ReadRows(rows: seq<Row>): (r: Option<seq<Node>>)
    ensures r.Some? ==> |r.value| == |rows|
  {
    if rows == [] then Some([])
    else
      match (ReadRows(rows[..|rows| - 1]), ReadRow(Last(rows)))
      case (Some(ns), Some(n)) => Some(ns + [n])
      case _ => None
  }

  function InWarehouse(nodes: seq<Node>, warehouse: string): seq<Node> {
    if nodes == [] then []
    else
      var rest := InWarehouse(nodes[..|nodes| - 1], warehouse);
      if Last(nodes).warehouse == warehouse then rest + [Last(nodes)] else rest
  }

  predicate Ascending(nodes: seq<Node>) {
    forall i, j :: 0 <= i < j < |nodes| ==> nodes[i].index <= nodes[j].index
  }

  /** `t` is `s` put in ascending order; which of two equal indexes comes first is left open. */
  predicate Sorts(s: seq<Node>, t: seq<Node>) {
    Ascending(t) && multiset(t) == multiset(s)
  }

  lemma InsertAscends(sorted: seq<Node>, k: nat, n: Node, i: nat, j: nat)
    requires Ascending(sorted) && k <= |sorted| && i < j <= |sorted|
    requires k > 0 ==> sorted[k - 1].index <= n.index
    requires k < |sorted| ==> n.index <= sorted[k].index
    ensures (if i < k then sorted[i] else if i == k then n else sorted[i - 1]).index <=
            (if j < k then sorted[j] else if j == k then n else sorted[j - 1]).index
  {
    if i < k {
      assert sorted[i].index <= sorted[k - 1].index by { if i < k - 1 { } }
    }
    if j > k {
      assert sorted[k].index <= sorted[j - 1].index by { if k < j - 1 { } }
    }
  }

  lemma InsertKeepsOrder(sorted: seq<Node>, k: nat, n: Node)
    requires Ascending(sorted) && k <= |sorted|
    requires k > 0 ==> sorted[k - 1].index <= n.index
    requires k < |sorted| ==> n.index <= sorted[k].index
    ensures Ascending(sorted[..k] + [n] + sorted[k..])
  {
    hide Ascending;
    var r := sorted[..k] + [n] + sorted[k..];
    forall i: nat, j: nat | i < j < |r| ensures r[i].index <= r[j].index {
      InsertAscends(sorted, k, n, i, j);
    }
    AscendingIf(r);
  }

  lemma AscendingIf(r: seq<Node>)
    requires forall i: nat, j: nat :: i < j < |r| ==> r[i].index <= r[j].index
    ensures Ascending(r)
  {}

  lemma InsertKeepsElements(a: seq<Node>, n: Node, b: seq<Node>)
    ensures multiset(a + [n] + b) == multiset(a + b) + multiset{n}
  {}

  /** One insertion: `n` goes in behind everything not above it. */
  lemma InsertSorts(nodes: seq<Node>, sorted: seq<Node>, k: nat, n: Node)
    requires Sorts(nodes, sorted) && k <= |sorted|
    requires k > 0 ==> sorted[k - 1].index <= n.index
    requires k < |sorted| ==> n.index <= sorted[k].index
    ensures Sorts(nodes + [n], sorted[..k] + [n] + sorted[k..])
  {
    hide Ascending;
    InsertKeepsOrder(sorted, k, n);
    InsertKeepsElements(sorted[..k], n, sorted[k..]);
    assert sorted == sorted[..k] + sorted[k..];
  }

  /** Stands for sort.Slice, which promises order but not stability. */
  method SortByIndex(nodes: seq<Node>) returns (sorted: seq<Node>)
    ensures Sorts(nodes, sorted)
  {
    hide Ascending;
    sorted := [];
    AscendingIf(sorted);
    for i := 0 to |nodes|
      invariant Sorts(nodes[..i], sorted)
    {
      var k := |sorted|;
      while k > 0 && sorted[k - 1].index > nodes[i].index
        invariant 0 <= k <= |sorted|
        invariant k < |sorted| ==> sorted[k].index > nodes[i].index
      {
        k := k - 1;
      }
      InsertSorts(nodes[..i], sorted, k, nodes[i]);
      assert nodes[..i + 1] == nodes[..i] + [nodes[i]];
      sorted := sorted[..k] + [nodes[i]] + sorted[k..];
    }
    assert nodes[..|nodes|] == nodes;
  }

  function Warehouses(nodes: seq<Node>): set<string> {
    set n | n in nodes :: n.warehouse
  }

  predicate Groups(nodes: seq<Node>, groups: map<string, seq<Node>>) {
    groups.Keys == Warehouses(nodes) && forall w :: w in groups ==> groups[w] == InWarehouse(nodes, w)
  }

  lemma {:induction false} NoneInWarehouse(nodes: seq<Node>, w: string)
    requires w !in Warehouses(nodes)
    ensures InWarehouse(nodes, w) == []
  {
    if nodes != [] {
      assert Last(nodes) in nodes;
      assert forall n :: n in nodes[..|nodes| - 1] ==> n in nodes;
      NoneInWarehouse(nodes[..|nodes| - 1], w);
    }
  }

  lemma GroupsAdd(nodes: seq<Node>, groups: map<string, seq<Node>>, n: Node)
    requires Groups(nodes, groups)
    ensures Groups(nodes + [n], groups[n.warehouse := (if n.warehouse in groups then groups[n.warehouse] else []) + [n]])
  {
    var groups' := groups[n.warehouse := (if n.warehouse in groups then groups[n.warehouse] else []) + [n]];
    assert (nodes + [n])[..|nodes|] == nodes;
    if n.warehouse !in groups {
      NoneInWarehouse(nodes, n.warehouse);
    }
    assert Warehouses(nodes + [n]) == Warehouses(nodes) + {n.warehouse};
  }

  method GroupRows(rows: seq<Row>) returns (result: Option<map<string, seq<Node>>>)
    ensures result.None? <==> ReadRows(rows).None?
    ensures result.Some? ==> Groups(ReadRows(rows).value, result.value)
  {
    var groups: map<string, seq<Node>> := map[];
    ghost var nodes: seq<Node> := [];
    for i := 0 to |rows|
      invariant ReadRows(rows[..i]) == Some(nodes) && Groups(nodes, groups)
    {
      assert rows[..i + 1][..i] == rows[..i];
      var node := ReadNode(rows[i]);
      if node.None? {
        UnreadableRow(rows, i);
        return None;
      }
      var n := node.value;
      GroupsAdd(nodes, groups, n);
      groups := groups[n.warehouse := (if n.warehouse in groups then groups[n.warehouse] else []) + [n]];
      nodes := nodes + [n];
    }
    assert rows[..|rows|] == rows;
    return Some(groups);
  }

  method SortGroups(groups: map<string, seq<Node>>) returns (sorted: map<string, seq<Node>>)
    ensures sorted.Keys == groups.Keys && forall w :: w in groups ==> Sorts(groups[w], sorted[w])
  {
    sorted := groups;
    var pending := groups.Keys;
    while pending != {}
      invariant pending <= groups.Keys == sorted.Keys
      invariant forall w :: w in pending ==> sorted[w] == groups[w]
      invariant forall w :: w in groups && w !in pending ==> Sorts(groups[w], sorted[w])
    {
      var w :| w in pending;
      var nodes := SortByIndex(sorted[w]);
      sorted := sorted[w := nodes];
      pending := pending - {w};
    }
  }

  /** The rows grouped by warehouse, each group in ascending order: no row is lost, doubled or moved to
      another warehouse.  One row that cannot be read, or an error after the last, fails the query. */
  method QueryShowComputeNodes(rows: seq<Row>, rowsErr: bool) returns (result: Option<map<string, seq<Node>>>)
    ensures result.None? <==> ReadRows(rows).None? || rowsErr
    ensures result.Some? ==>
      && result.value.Keys == Warehouses(ReadRows(rows).value)
      && forall w :: w in result.value ==> Sorts(InWarehouse(ReadRows(rows).value, w), result.value[w])
  {
    var groups := GroupRows(rows);
    if groups.None? || rowsErr {
      return None;
    }
    var sorted := SortGroups(groups.value);
    return Some(sorted);
  }

  method ReadNode(row: Row) returns (node: Option<Node>)
    ensures node == ReadRow(row)
  {
    if row.Broken? {
      return None;
    }
    var n := Node("", "", "", "", 0);
    for i := 0 to |row.cells|
      invariant ReadCells(Node("", "", "", "", 0), row.cells[..i]) == Some(n)
    {
      var (column, value) := row.cells[i];
      assert row.cells[..i + 1][..i] == row.cells[..i];
      if column == "ComputeNodeId" {
        n := n.(id := value);
      } else if column == "IP" {
        var index := OrdinalOf(value);
        if index.None? {
          UnreadableCell(Node("", "", "", "", 0), row.cells, i);
          return None;
        }
        n := n.(fqdn := value, index := index.value);
      } else if column == "HeartbeatPort" {
        n := n.(port := value);
      } else if column == "WarehouseName" {
        n := n.(warehouse := value);
      }
    }
    assert row.cells[..|row.cells|] == row.cells;
    return Some(n);
  }

  lemma {:induction false} UnreadableCell(n: Node, cells: seq<(string, string)>, i: nat)
    requires i < |cells| && ReadCells(n, cells[..i + 1]).None?
    ensures ReadCells(n, cells).None?
  {
    if i + 1 < |cells| {
      assert cells[..|cells| - 1][..i + 1] == cells[..i + 1];
      UnreadableCell(n, cells[..|cells| - 1], i);
    } else {
      assert cells[..i + 1] == cells;
    }
  }

  lemma {:induction false} UnreadableRow(rows: seq<Row>, i: nat)
    requires i < |rows| && ReadRow(rows[i]).None?
    ensures ReadRows(rows).None?
  {
    if i + 1 < |rows| {
      UnreadableRow(rows[..|rows| - 1], i);
    }
  }
}
