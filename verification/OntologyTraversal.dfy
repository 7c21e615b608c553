/** The bounded, depth-ordered walk over one relation. The recursive query extracts
    (key, depth) rows from a queue, smallest depth first and with any choice between
    equal depths, and stops after a fixed number of rows. */
module OntologyTraversal {
  import opened Wrappers
  import opened Graph
  import opened OntologyModel
  import opened Orders
  import ByteOrder

  const MAXIMUM_ROWS := 10000

  datatype Row = Row(key: string, depth: nat)

  datatype Direction = Outgoing | Incoming

  datatype Walk = Walk(nodes: seq<Row>, truncated: bool)

  // ----- The graph walked

  predicate Visible(p: Package, node: string, deleted: bool) {
    && node in p.tables.nodes
    && (deleted || p.tables.nodes[node].EntityNode?
        || (p.tables.nodes[node].objectKey in p.files.objects && !p.files.objects[p.tables.nodes[node].objectKey]))
  }

  function Edges(p: Package, property: string, direction: Direction, deleted: bool): set<(string, string)> {
    var relation := Relation(p.tables.statements, property);
    set e | e in (if direction.Outgoing? then relation else Reverse(relation)) && Visible(p, e.1, deleted)
  }

  /** `to` is exactly `d` edges away along some walk. */
  ghost predicate WalkOf(edges: set<(string, string)>, from: string, to: string, d: nat) {
    exists w: seq<string> :: IsPath(edges, w, from, to) && |w| == d + 1
  }

  ghost predicate Distance(edges: set<(string, string)>, from: string, to: string, d: nat) {
    WalkOf(edges, from, to, d) && forall e: nat :: WalkOf(edges, from, to, e) ==> d <= e
  }

  lemma WalkStep(edges: set<(string, string)>, from: string, k: string, next: string, d: nat)
    requires WalkOf(edges, from, k, d) && (k, next) in edges
    ensures WalkOf(edges, from, next, d + 1)
  {
    var w :| IsPath(edges, w, from, k) && |w| == d + 1;
    assert IsPath(edges, w + [next], from, next);
  }

  lemma WalkBack(edges: set<(string, string)>, from: string, k: string, d: nat)
    requires d > 0 && WalkOf(edges, from, k, d)
    ensures exists j :: WalkOf(edges, from, j, d - 1) && (j, k) in edges
  {
    var w :| IsPath(edges, w, from, k) && |w| == d + 1;
    assert (w[d - 1], w[d - 1 + 1]) in edges;
    assert IsPath(edges, w[..d], from, w[d - 1]);
    assert WalkOf(edges, from, w[d - 1], d - 1) && (w[d - 1], k) in edges;
  }

  // ----- The recursive query

  ghost predicate Sweep(edges: set<(string, string)>, start: string, depth: nat, reach: set<Row>, queue: set<Row>) {
    && (forall r :: r in reach + queue ==> r.depth <= depth && WalkOf(edges, start, r.key, r.depth))
    && Row(start, 0) in reach + queue
    && (forall r, k :: r in reach && r.depth < depth && (r.key, k) in edges ==> Row(k, r.depth + 1) in reach + queue)
    && (forall r, q :: r in reach && q in queue ==> r.depth <= q.depth)
    && reach !! queue
  }

  function NewRows(edges: set<(string, string)>, r: Row, depth: nat, seen: set<Row>): (rows: set<Row>)
    ensures forall q :: q in rows <==> r.depth < depth && q.depth == r.depth + 1 && (r.key, q.key) in edges && q !in seen
  {
    if r.depth < depth then
      var next := set e | e in edges && e.0 == r.key && Row(e.1, r.depth + 1) !in seen :: Row(e.1, r.depth + 1);
      assert forall k :: (r.key, k) in edges && Row(k, r.depth + 1) !in seen ==> Row((r.key, k).1, r.depth + 1) in next;
      next
    else {}
  }

  lemma ShallowestExists(queue: set<Row>)
    requires queue != {}
    ensures exists r :: IsShallowest(queue, r)
  {
    BeforeIsStrict();
    LeastExists(Before, queue);
    var r :| IsLeast(Before, queue, r);
    assert IsShallowest(queue, r);
  }

  predicate IsShallowest(queue: set<Row>, r: Row) {
    r in queue && forall q :: q in queue ==> r.depth <= q.depth
  }

  lemma SweepStep(edges: set<(string, string)>, start: string, depth: nat, reach: set<Row>, queue: set<Row>, r: Row)
    requires Sweep(edges, start, depth, reach, queue)
    requires IsShallowest(queue, r)
    ensures var rows := NewRows(edges, r, depth, reach + queue);
      Sweep(edges, start, depth, reach + {r}, queue - {r} + rows)
  {
    forall q | q in NewRows(edges, r, depth, reach + queue) ensures WalkOf(edges, start, q.key, q.depth) {
      WalkStep(edges, start, r.key, q.key, r.depth);
    }
  }

  /** `WITH RECURSIVE reach(key, depth) ... ORDER BY 2 LIMIT rows`, with any tie-break. */
  method Reach(edges: set<(string, string)>, start: string, depth: nat, rows: nat)
    returns (reach: set<Row>, ghost queue: set<Row>)
    ensures Sweep(edges, start, depth, reach, queue)
    ensures |reach| <= rows
    ensures queue == {} || |reach| == rows
  {
    var pending: set<Row> := {Row(start, 0)};
    reach := {};
    assert IsPath(edges, [start], start, start);
    assert WalkOf(edges, start, start, 0);
    while pending != {} && |reach| < rows
      invariant Sweep(edges, start, depth, reach, pending)
      invariant |reach| <= rows
      decreases rows - |reach|
    {
      ShallowestExists(pending);
      var r :| IsShallowest(pending, r);
      SweepStep(edges, start, depth, reach, pending, r);
      pending, reach := pending - {r} + NewRows(edges, r, depth, reach + pending), reach + {r};
    }
    queue := pending;
  }

  /** Every walk shorter than all queued rows has been extracted. */
  lemma {:induction false} Extracted(edges: set<(string, string)>, start: string, depth: nat, reach: set<Row>, queue: set<Row>, k: string, d: nat)
    requires Sweep(edges, start, depth, reach, queue)
    requires WalkOf(edges, start, k, d) && d <= depth
    requires forall q :: q in queue ==> d < q.depth
    ensures Row(k, d) in reach
    decreases d
  {
    if d == 0 {
      var w :| IsPath(edges, w, start, k) && |w| == 1;
      assert k == start;
    } else {
      WalkBack(edges, start, k, d);
      var j :| WalkOf(edges, start, j, d - 1) && (j, k) in edges;
      Extracted(edges, start, depth, reach, queue, j, d - 1);
      assert Row(j, d - 1) in reach;
    }
  }

  // ----- Grouping and ordering

  predicate Shallowest(reach: set<Row>, r: Row) {
    r in reach && forall q :: q in reach && q.key == r.key ==> r.depth <= q.depth
  }

  predicate Before(a: Row, b: Row) {
    a.depth < b.depth || (a.depth == b.depth && ByteOrder.Less(a.key, b.key))
  }

  predicate Ordered(rows: seq<Row>) {
    forall i, j :: 0 <= i < j < |rows| ==> Before(rows[i], rows[j])
  }

  lemma BeforeTransitive(a: Row, b: Row, c: Row)
    requires Before(a, b) && Before(b, c)
    ensures Before(a, c)
  {
    if a.depth == b.depth == c.depth {
      ByteOrder.Transitive(a.key, b.key, c.key);
    }
  }

  lemma BeforeIsStrict()
    ensures Strict(Before)
  {
    forall a: Row, b: Row, c: Row | Before(a, b) && Before(b, c)
      ensures Before(a, c)
    {
      BeforeTransitive(a, b, c);
    }
    forall a: Row, b: Row
      ensures a == b || Before(a, b) || Before(b, a)
    {
      ByteOrder.Total(a.key, b.key);
    }
  }

  /** `ORDER BY depth, key LIMIT count`. */
  method FirstRows(rows: set<Row>, count: nat) returns (first: seq<Row>)
    ensures Ordered(first) && |first| <= count
    ensures forall r :: r in first ==> r in rows
    ensures forall r, q :: r in first && q in rows && q !in first ==> Before(r, q)
    ensures |first| < count ==> forall q :: q in rows ==> q in first
  {
    first := [];
    var rest := rows;
    while rest != {} && |first| < count
      invariant |first| <= count && Ordered(first) && rest <= rows
      invariant forall r :: r in first ==> r in rows && r !in rest
      invariant forall q :: q in rows ==> q in first || q in rest
      invariant forall r, q :: r in first && q in rest ==> Before(r, q)
    {
      BeforeIsStrict();
      LeastExists(Before, rest);
      var r :| IsLeast(Before, rest, r);
      first, rest := first + [r], rest - {r};
    }
  }

  // ----- The operation

  /** A report that is honest about distances: sorted by distance and key, each node at
      its true shortest distance, and no unreported node nearer than a reported one. */
  ghost predicate NearestNodes(edges: set<(string, string)>, start: string, depth: nat, nodes: seq<Row>) {
    && Ordered(nodes)
    && (forall r :: r in nodes ==> r.key != start && r.depth <= depth && Distance(edges, start, r.key, r.depth))
    && (forall k, e: nat, r :: WalkOf(edges, start, k, e) && e <= depth && k != start && !Reported(nodes, k) && r in nodes ==> r.depth <= e)
  }

  predicate Reported(nodes: seq<Row>, k: string) {
    exists i :: 0 <= i < |nodes| && nodes[i].key == k
  }

  ghost predicate AllNodes(edges: set<(string, string)>, start: string, depth: nat, nodes: seq<Row>) {
    forall k, d: nat :: WalkOf(edges, start, k, d) && d <= depth && k != start ==> Reported(nodes, k)
  }

  lemma RowIsDistance(edges: set<(string, string)>, start: string, depth: nat, reach: set<Row>, queue: set<Row>, r: Row)
    requires Sweep(edges, start, depth, reach, queue) && Shallowest(reach, r)
    ensures Distance(edges, start, r.key, r.depth)
  {
    forall e: nat | WalkOf(edges, start, r.key, e) ensures r.depth <= e {
      if e < r.depth {
        Extracted(edges, start, depth, reach, queue, r.key, e);
      }
    }
  }

  lemma ShallowestOf(reach: set<Row>, r: Row)
    requires r in reach
    ensures exists q :: Shallowest(reach, q) && q.key == r.key && q.depth <= r.depth
  {
    var same := set q | q in reach && q.key == r.key;
    assert r in same;
    ShallowestExists(same);
    var q :| IsShallowest(same, q);
    assert Shallowest(reach, q);
  }

  lemma UnreportedIsFar(edges: set<(string, string)>, start: string, depth: nat, reach: set<Row>, queue: set<Row>,
                        rows: set<Row>, first: seq<Row>, k: string, e: nat, r: Row)
    requires Sweep(edges, start, depth, reach, queue)
    requires rows == Grouped(reach, start)
    requires forall r, q :: r in first && q in rows && q !in first ==> Before(r, q)
    requires forall r :: r in first ==> r in rows
    requires WalkOf(edges, start, k, e) && e <= depth && k != start && !Reported(first, k)
    requires r in first
    ensures r.depth <= e
  {
    hide Sweep, WalkOf, Before, Reported, Shallowest;
    if Row(k, e) in reach {
      ReachedIsReported(reach, start, rows, first, k, e, r);
    } else {
      UnreachedIsFar(edges, start, depth, reach, queue, k, e, r);
    }
  }

  lemma ReachedIsReported(reach: set<Row>, start: string, rows: set<Row>, first: seq<Row>, k: string, e: nat, r: Row)
    requires rows == Grouped(reach, start)
    requires forall r, q :: r in first && q in rows && q !in first ==> Before(r, q)
    requires Row(k, e) in reach && k != start && !Reported(first, k) && r in first
    ensures r.depth <= e
  {
    ShallowestOf(reach, Row(k, e));
    var q :| Shallowest(reach, q) && q.key == k && q.depth <= e;
    assert q !in first;
  }

  lemma UnreachedIsFar(edges: set<(string, string)>, start: string, depth: nat, reach: set<Row>, queue: set<Row>, k: string, e: nat, r: Row)
    requires Sweep(edges, start, depth, reach, queue) && r in reach
    requires WalkOf(edges, start, k, e) && e <= depth && Row(k, e) !in reach
    ensures r.depth <= e
  {
    if forall q :: q in queue ==> e < q.depth {
      Extracted(edges, start, depth, reach, queue, k, e);
    }
  }

  /** More rows than the limit cannot all belong to the start node, so the flag that the
      result loop derives from a returned row is raised. */
  lemma ManyRowsShowAnotherNode(start: string, depth: nat, reach: set<Row>)
    requires depth <= 32 && |reach| > MAXIMUM_ROWS
    requires forall r :: r in reach ==> r.depth <= depth
    ensures exists r :: r in reach && r.key != start
  {
    if forall r :: r in reach ==> r.key == start {
      StartRows(start, depth, reach);
    }
  }

  lemma {:induction false} StartRows(start: string, depth: nat, reach: set<Row>)
    requires forall r :: r in reach ==> r.key == start && r.depth <= depth
    ensures |reach| <= depth + 1
  {
    var rest := reach - {Row(start, depth)};
    if depth == 0 {
      assert rest == {};
    } else {
      StartRows(start, depth - 1, rest);
    }
    assert reach <= rest + {Row(start, depth)};
    CardinalityAtMost(reach, rest + {Row(start, depth)});
  }

  // ----- The walk over the statements

  /** A walk may enter a node that has a row, a file's only if it is live or deleted ones are wanted. */
  predicate Enters(p: Package, node: string, deleted: bool) {
    && node in p.tables.nodes
    && (p.tables.nodes[node].FileNode? && !deleted ==>
      p.tables.nodes[node].objectKey in p.files.objects && !p.files.objects[p.tables.nodes[node].objectKey])
  }

  predicate Asserts(p: Package, property: string, s: Statement) {
    s in p.tables.statements && s.property == property && s.value.ResourceValue?
  }

  predicate Leads(s: Statement, direction: Direction, a: string, b: string) {
    s.value.ResourceValue? &&
      match direction
      case Outgoing => s.subject == a && NodeKey(s.value.target) == b
      case Incoming => NodeKey(s.value.target) == a && s.subject == b
  }

  /** From each subject to its target, and on from there. */
  ghost predicate OutgoingChain(p: Package, property: string, deleted: bool, chain: seq<Statement>, from: string, to: string) {
    if chain == [] then to == from
    else
      var front, s := chain[..|chain| - 1], chain[|chain| - 1];
      && Asserts(p, property, s) && to == NodeKey(s.value.target) && Enters(p, to, deleted)
      && OutgoingChain(p, property, deleted, front, from, s.subject)
  }

  /** From each target to its subject. */
  ghost predicate IncomingChain(p: Package, property: string, deleted: bool, chain: seq<Statement>, from: string, to: string) {
    if chain == [] then to == from
    else
      var front, s := chain[..|chain| - 1], chain[|chain| - 1];
      && Asserts(p, property, s) && to == s.subject && Enters(p, to, deleted)
      && IncomingChain(p, property, deleted, front, from, NodeKey(s.value.target))
  }

  ghost predicate Chain(p: Package, property: string, direction: Direction, deleted: bool, chain: seq<Statement>, from: string, to: string) {
    match direction
    case Outgoing => OutgoingChain(p, property, deleted, chain, from, to)
    case Incoming => IncomingChain(p, property, deleted, chain, from, to)
  }

  lemma EdgeIsStatement(p: Package, property: string, direction: Direction, deleted: bool, a: string, b: string)
    ensures (a, b) in Edges(p, property, direction, deleted) <==>
      Enters(p, b, deleted) && exists s :: Asserts(p, property, s) && Leads(s, direction, a, b)
  {
    var relation := Relation(p.tables.statements, property);
    var e := if direction.Outgoing? then (a, b) else (b, a);
    RelationIsStatements(p, property, e);
    assert (a, b) in Reverse(relation) <==> (b, a) in relation by { ReversedEdge(relation, a, b); }
    if s :| Asserts(p, property, s) && s.subject == e.0 && NodeKey(s.value.target) == e.1 {
      assert Leads(s, direction, a, b);
    }
  }

  lemma RelationIsStatements(p: Package, property: string, e: (string, string))
    ensures e in Relation(p.tables.statements, property) <==>
      exists s :: Asserts(p, property, s) && s.subject == e.0 && NodeKey(s.value.target) == e.1
  {
    if s :| Asserts(p, property, s) && s.subject == e.0 && NodeKey(s.value.target) == e.1 {
      assert e == (s.subject, NodeKey(s.value.target));
    }
  }

  lemma ReversedEdge(edges: set<(string, string)>, a: string, b: string)
    ensures (a, b) in Reverse(edges) <==> (b, a) in edges
  {
    if (b, a) in edges {
      assert (a, b) == ((b, a).1, (b, a).0);
    }
  }

  lemma {:induction false} WalkIsChain(p: Package, property: string, direction: Direction, deleted: bool, from: string, k: string, d: nat)
    requires WalkOf(Edges(p, property, direction, deleted), from, k, d)
    ensures exists chain :: |chain| == d && Chain(p, property, direction, deleted, chain, from, k)
    decreases d
  {
    hide Edges, Enters;
    var edges := Edges(p, property, direction, deleted);
    if d == 0 {
      var none: seq<Statement> := [];
      assert |none| == 0 && Chain(p, property, direction, deleted, none, from, k);
    } else {
      WalkBack(edges, from, k, d);
      var j :| WalkOf(edges, from, j, d - 1) && (j, k) in edges;
      WalkIsChain(p, property, direction, deleted, from, j, d - 1);
      var front :| |front| == d - 1 && Chain(p, property, direction, deleted, front, from, j);
      EdgeIsStatement(p, property, direction, deleted, j, k);
      var s :| Asserts(p, property, s) && Leads(s, direction, j, k);
      assert (front + [s])[..d - 1] == front;
      assert Chain(p, property, direction, deleted, front + [s], from, k);
    }
  }

  lemma {:induction false} ChainIsWalk(p: Package, property: string, direction: Direction, deleted: bool, chain: seq<Statement>, from: string, k: string)
    requires Chain(p, property, direction, deleted, chain, from, k)
    ensures WalkOf(Edges(p, property, direction, deleted), from, k, |chain|)
    decreases |chain|
  {
    hide Edges, Enters;
    var edges := Edges(p, property, direction, deleted);
    if chain == [] {
      assert IsPath(edges, [from], from, from);
    } else {
      var s := chain[|chain| - 1];
      var j := if direction.Outgoing? then s.subject else NodeKey(s.value.target);
      ChainIsWalk(p, property, direction, deleted, chain[..|chain| - 1], from, j);
      EdgeIsStatement(p, property, direction, deleted, j, k);
      WalkStep(edges, from, j, k, |chain| - 1);
    }
  }

  /** Every reported node ends a chain of its depth, and no shorter one. */
  ghost predicate ReportsChains(p: Package, property: string, direction: Direction, deleted: bool, from: string, nodes: seq<Row>) {
    forall r :: r in nodes ==>
      && (exists chain :: |chain| == r.depth && Chain(p, property, direction, deleted, chain, from, r.key))
      && (forall chain :: Chain(p, property, direction, deleted, chain, from, r.key) ==> r.depth <= |chain|)
  }

  /** The end of every chain within the depth is reported, except the start. */
  ghost predicate ReportsAllChains(p: Package, property: string, direction: Direction, deleted: bool, from: string, depth: nat, nodes: seq<Row>) {
    forall chain, k :: Chain(p, property, direction, deleted, chain, from, k) && |chain| <= depth && k != from ==> Reported(nodes, k)
  }

  lemma ReportOverStatements(p: Package, property: string, direction: Direction, deleted: bool, from: string, depth: nat, nodes: seq<Row>)
    requires NearestNodes(Edges(p, property, direction, deleted), from, depth, nodes)
    ensures ReportsChains(p, property, direction, deleted, from, nodes)
    ensures AllNodes(Edges(p, property, direction, deleted), from, depth, nodes) ==>
      ReportsAllChains(p, property, direction, deleted, from, depth, nodes)
  {
    hide Edges, Chain, Ordered;
    forall r | r in nodes
      ensures exists chain :: |chain| == r.depth && Chain(p, property, direction, deleted, chain, from, r.key)
      ensures forall chain :: Chain(p, property, direction, deleted, chain, from, r.key) ==> r.depth <= |chain|
    {
      WalkIsChain(p, property, direction, deleted, from, r.key, r.depth);
      forall chain | Chain(p, property, direction, deleted, chain, from, r.key)
        ensures r.depth <= |chain|
      {
        ChainIsWalk(p, property, direction, deleted, chain, from, r.key);
      }
    }
    if AllNodes(Edges(p, property, direction, deleted), from, depth, nodes) {
      forall chain, k | Chain(p, property, direction, deleted, chain, from, k) && |chain| <= depth && k != from
        ensures Reported(nodes, k)
      {
        ChainIsWalk(p, property, direction, deleted, chain, from, k);
      }
    }
  }

  /** What a single statement shows. */
  lemma NeighbourReported(p: Package, property: string, direction: Direction, deleted: bool, from: string, depth: nat, nodes: seq<Row>, s: Statement)
    requires ReportsChains(p, property, direction, deleted, from, nodes) && ReportsAllChains(p, property, direction, deleted, from, depth, nodes)
    requires depth >= 1 && Asserts(p, property, s)
    ensures direction == Outgoing && s.subject == from && NodeKey(s.value.target) != from && Enters(p, NodeKey(s.value.target), deleted) ==>
      Row(NodeKey(s.value.target), 1) in nodes
    ensures direction == Incoming && NodeKey(s.value.target) == from && s.subject != from && Enters(p, s.subject, deleted) ==>
      Row(s.subject, 1) in nodes
  {
    hide Enters, Chain;
    var k := if direction == Outgoing then NodeKey(s.value.target) else s.subject;
    if Leads(s, direction, from, k) && Enters(p, k, deleted) && k != from {
      OneLink(p, property, direction, deleted, s, from, k);
      assert Reported(nodes, k);
      var i :| 0 <= i < |nodes| && nodes[i].key == k;
      assert nodes[i] in nodes && nodes[i].depth <= |[s]|;
      var chain :| |chain| == nodes[i].depth && Chain(p, property, direction, deleted, chain, from, k);
      NoLink(p, property, direction, deleted, chain, from, k);
      assert nodes[i] == Row(k, 1);
    }
  }

  lemma OneLink(p: Package, property: string, direction: Direction, deleted: bool, s: Statement, from: string, k: string)
    requires Asserts(p, property, s) && Leads(s, direction, from, k) && Enters(p, k, deleted)
    ensures Chain(p, property, direction, deleted, [s], from, k)
  {
    hide Enters;
    assert [s][..0] == [];
    match direction
    case Outgoing => assert OutgoingChain(p, property, deleted, [], from, s.subject);
    case Incoming => assert IncomingChain(p, property, deleted, [], from, NodeKey(s.value.target));
  }

  lemma NoLink(p: Package, property: string, direction: Direction, deleted: bool, chain: seq<Statement>, from: string, k: string)
    requires Chain(p, property, direction, deleted, chain, from, k) && k != from
    ensures |chain| > 0
  {
  }

  /** Whatever one statement of the start shows is reported at depth one. */
  ghost predicate ReportsNeighbours(p: Package, property: string, direction: Direction, deleted: bool, from: string, nodes: seq<Row>) {
    forall s :: Asserts(p, property, s) ==>
      && (direction == Outgoing && s.subject == from && NodeKey(s.value.target) != from && Enters(p, NodeKey(s.value.target), deleted) ==>
        Row(NodeKey(s.value.target), 1) in nodes)
      && (direction == Incoming && NodeKey(s.value.target) == from && s.subject != from && Enters(p, s.subject, deleted) ==>
        Row(s.subject, 1) in nodes)
  }

  lemma NeighboursReported(p: Package, property: string, direction: Direction, deleted: bool, from: string, depth: nat, nodes: seq<Row>)
    requires ReportsChains(p, property, direction, deleted, from, nodes) && ReportsAllChains(p, property, direction, deleted, from, depth, nodes)
    requires depth >= 1
    ensures ReportsNeighbours(p, property, direction, deleted, from, nodes)
  {
    hide ReportsChains, ReportsAllChains, Enters;
    forall s | Asserts(p, property, s)
      ensures direction == Outgoing && s.subject == from && NodeKey(s.value.target) != from && Enters(p, NodeKey(s.value.target), deleted) ==>
        Row(NodeKey(s.value.target), 1) in nodes
      ensures direction == Incoming && NodeKey(s.value.target) == from && s.subject != from && Enters(p, s.subject, deleted) ==>
        Row(s.subject, 1) in nodes
    {
      NeighbourReported(p, property, direction, deleted, from, depth, nodes, s);
    }
  }

  method Traverse(p: Package, start: Resource, property: string, direction: Direction, depth: nat, limit: nat, deleted: bool)
    returns (result: Option<Walk>)
    ensures result.Some? <==> (
      && ResourceTextOk(start) && TextOk(property, 1024, true) && 1 <= limit <= 1024 && 1 <= depth <= 32
      && ResourceExists(p, start, !deleted)
      && property in p.tables.properties && p.tables.properties[property].kind == ResourceKind)
    ensures result.Some? ==>
      var edges, from := Edges(p, property, direction, deleted), NodeKey(start);
      && |result.value.nodes| <= limit
      && NearestNodes(edges, from, depth, result.value.nodes)
      && (!result.value.truncated ==> AllNodes(edges, from, depth, result.value.nodes))
      && (result.value.truncated <==> CutShort(edges, from, depth, limit, result.value.nodes))
    ensures result.Some? ==> ReportsChains(p, property, direction, deleted, NodeKey(start), result.value.nodes)
    ensures result.Some? && !result.value.truncated ==>
      && ReportsAllChains(p, property, direction, deleted, NodeKey(start), depth, result.value.nodes)
      && ReportsNeighbours(p, property, direction, deleted, NodeKey(start), result.value.nodes)
  {
    hide Edges, ReportsChains, ReportsAllChains, ReportsNeighbours, CutShort, NearestNodes, AllNodes, ManyRows;
    if !ResourceTextOk(start) || !TextOk(property, 1024, true) || limit == 0 || limit > 1024 || depth == 0 || depth > 32
      || !ResourceExists(p, start, !deleted) || property !in p.tables.properties
      || p.tables.properties[property].kind != ResourceKind {
      return None;
    }
    var walk := Search(Edges(p, property, direction, deleted), NodeKey(start), depth, limit);
    ReportOverStatements(p, property, direction, deleted, NodeKey(start), depth, walk.nodes);
    if !walk.truncated {
      NeighboursReported(p, property, direction, deleted, NodeKey(start), depth, walk.nodes);
    }
    return Some(walk);
  }

  /** Run the query, raise the flag, and cut the result to the limit. */
  method Search(edges: set<(string, string)>, start: string, depth: nat, limit: nat) returns (walk: Walk)
    requires depth <= 32
    ensures |walk.nodes| <= limit
    ensures NearestNodes(edges, start, depth, walk.nodes)
    ensures !walk.truncated ==> AllNodes(edges, start, depth, walk.nodes)
    ensures walk.truncated <==> CutShort(edges, start, depth, limit, walk.nodes)
  {
    hide Sweep, NearestNodes, AllNodes, Shallowest, Ordered, Before, ManyRows;
    var reach, queue := Reach(edges, start, depth, MAXIMUM_ROWS + 1);
    var rows := Grouped(reach, start);
    var nodes := FirstRows(rows, limit + 1);
    // Each returned row carries the number of extracted rows.
    var truncated := nodes != [] && |reach| > MAXIMUM_ROWS;
    ReportIsNearest(edges, start, depth, reach, queue, rows, nodes);
    if !truncated && |nodes| <= limit {
      UntruncatedSearchEnded(edges, start, depth, reach, queue, rows, nodes);
      ReportIsComplete(edges, start, depth, reach, rows, nodes);
      EndedIsFew(edges, start, depth, reach);
    }
    if truncated {
      ReachIsMany(edges, start, depth, reach, queue);
    }
    if |nodes| > limit {
      CutLeavesNode(edges, start, depth, reach, nodes, limit);
      PrefixIsNearest(edges, start, depth, nodes, limit);
      nodes, truncated := nodes[..limit], true;
    }
    walk := Walk(nodes, truncated);
  }

  /** More (key, depth) rows within the depth than the query extracts. */
  ghost predicate ManyRows(edges: set<(string, string)>, start: string, depth: nat) {
    exists rows: set<Row> :: |rows| > MAXIMUM_ROWS && Walked(edges, start, depth, rows)
  }

  ghost predicate Walked(edges: set<(string, string)>, start: string, depth: nat, rows: set<Row>) {
    forall r :: r in rows ==> r.depth <= depth && WalkOf(edges, start, r.key, r.depth)
  }

  /** Why a report is marked as truncated: too many rows, or a full report that lacks a node. */
  ghost predicate CutShort(edges: set<(string, string)>, start: string, depth: nat, limit: nat, nodes: seq<Row>) {
    ManyRows(edges, start, depth) || (|nodes| == limit && !AllNodes(edges, start, depth, nodes))
  }

  lemma ReachIsMany(edges: set<(string, string)>, start: string, depth: nat, reach: set<Row>, queue: set<Row>)
    requires Sweep(edges, start, depth, reach, queue) && |reach| > MAXIMUM_ROWS
    ensures ManyRows(edges, start, depth)
  {
    assert forall r :: r in reach ==> r in reach + queue;
    assert Walked(edges, start, depth, reach);
  }

  lemma EndedIsFew(edges: set<(string, string)>, start: string, depth: nat, reach: set<Row>)
    requires Sweep(edges, start, depth, reach, {}) && |reach| <= MAXIMUM_ROWS
    ensures !ManyRows(edges, start, depth)
  {
    if ManyRows(edges, start, depth) {
      var rows: set<Row> :| |rows| > MAXIMUM_ROWS && Walked(edges, start, depth, rows);
      forall r | r in rows
        ensures r in reach
      {
        Extracted(edges, start, depth, reach, {}, r.key, r.depth);
      }
      CardinalityAtMost(rows, reach);
      assert false;
    }
  }

  /** The node behind the limit is within the depth and not in the report. */
  lemma CutLeavesNode(edges: set<(string, string)>, start: string, depth: nat, reach: set<Row>, nodes: seq<Row>, limit: nat)
    requires NearestNodes(edges, start, depth, nodes) && limit < |nodes|
    requires forall r :: r in nodes ==> Shallowest(reach, r)
    ensures !AllNodes(edges, start, depth, nodes[..limit])
  {
    var last := nodes[limit];
    assert last in nodes && Distance(edges, start, last.key, last.depth);
    forall i | 0 <= i < limit
      ensures nodes[..limit][i].key != last.key
    {
      assert nodes[i] in nodes && Before(nodes[i], last);
      if nodes[i].key == last.key {
        ByteOrder.Irreflexive(last.key);
      }
    }
    assert !Reported(nodes[..limit], last.key);
  }

  /** `GROUP BY key` with the smallest depth, without the start node. */
  function Grouped(reach: set<Row>, start: string): (rows: set<Row>)
    ensures forall q :: q in rows <==> q in reach && q.key != start && Shallowest(reach, q)
  {
    set r | r in reach && r.key != start && Shallowest(reach, r)
  }

  lemma UntruncatedSearchEnded(edges: set<(string, string)>, start: string, depth: nat, reach: set<Row>, queue: set<Row>, rows: set<Row>, nodes: seq<Row>)
    requires Sweep(edges, start, depth, reach, queue) && depth <= 32
    requires queue == {} || |reach| == MAXIMUM_ROWS + 1
    requires rows == Grouped(reach, start)
    requires forall q :: q in rows ==> q in nodes
    requires nodes == [] || |reach| <= MAXIMUM_ROWS
    ensures queue == {} && |reach| <= MAXIMUM_ROWS
  {
    if |reach| > MAXIMUM_ROWS {
      ManyRowsShowAnotherNode(start, depth, reach);
      var r :| r in reach && r.key != start;
      ShallowestOf(reach, r);
    }
  }

  lemma ReportIsNearest(edges: set<(string, string)>, start: string, depth: nat, reach: set<Row>, queue: set<Row>, rows: set<Row>, first: seq<Row>)
    requires Sweep(edges, start, depth, reach, queue)
    requires rows == Grouped(reach, start)
    requires Ordered(first) && forall r :: r in first ==> r in rows
    requires forall r, q :: r in first && q in rows && q !in first ==> Before(r, q)
    ensures NearestNodes(edges, start, depth, first)
  {
    forall r | r in first ensures Distance(edges, start, r.key, r.depth) {
      RowIsDistance(edges, start, depth, reach, queue, r);
    }
    forall k, e: nat, r | WalkOf(edges, start, k, e) && e <= depth && k != start && !Reported(first, k) && r in first
      ensures r.depth <= e
    {
      UnreportedIsFar(edges, start, depth, reach, queue, rows, first, k, e, r);
    }
  }

  lemma ReportIsComplete(edges: set<(string, string)>, start: string, depth: nat, reach: set<Row>, rows: set<Row>, first: seq<Row>)
    requires Sweep(edges, start, depth, reach, {})
    requires rows == Grouped(reach, start)
    requires forall q :: q in rows ==> q in first
    ensures AllNodes(edges, start, depth, first)
  {
    forall k, d: nat | WalkOf(edges, start, k, d) && d <= depth && k != start ensures Reported(first, k) {
      Extracted(edges, start, depth, reach, {}, k, d);
      ShallowestOf(reach, Row(k, d));
      var q :| Shallowest(reach, q) && q.key == k && q.depth <= d;
      assert q in first;
    }
  }

  lemma PrefixIsNearest(edges: set<(string, string)>, start: string, depth: nat, nodes: seq<Row>, limit: nat)
    requires NearestNodes(edges, start, depth, nodes) && limit < |nodes|
    ensures NearestNodes(edges, start, depth, nodes[..limit])
  {
    forall k, e: nat, r | WalkOf(edges, start, k, e) && e <= depth && k != start && !Reported(nodes[..limit], k) && r in nodes[..limit]
      ensures r.depth <= e
    {
      if i :| 0 <= i < |nodes| && nodes[i].key == k {
        assert nodes[i] in nodes;
        assert Distance(edges, start, k, nodes[i].depth);
        assert forall m :: 0 <= m < limit ==> nodes[..limit][m].key == nodes[m].key;
        assert i >= limit;
        var j :| 0 <= j < limit && nodes[..limit][j] == r;
        assert Before(nodes[j], nodes[i]);
      } else {
        assert !Reported(nodes, k);
        assert r in nodes;
      }
    }
  }
}
