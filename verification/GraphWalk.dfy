/** The depth-capped walk of src/graph/view.ts: the recursive query as a least fixed point over (node, depth) rows. */
module GraphWalk {
  import opened Text

  const MAX_DEPTH_LIMIT: int := 8

  datatype Node = Node(kind: string, id: string)

  datatype Edge = Edge(from: Node, to: Node, rel: string)

  datatype Row = Row(node: Node, depth: nat)

  datatype Query = Query(edges: set<Edge>, start: Node, rel: Option<string>)

  datatype Outcome = Walked(rows: set<Row>) | BadDepth | TooManyNodes

  // ---------------------------------------------------------------- the query

  // The join condition of the recursive branch, at node n.
  predicate Joins(q: Query, e: Edge, n: Node) {
    e in q.edges && (e.from == n || e.to == n) && (q.rel.None? || e.rel == q.rel.value)
  }

  // The far end the recursive branch selects.
  function Across(e: Edge, n: Node): Node {
    if e.from == n then e.to else e.from
  }

  // Rows that the recursive branch adds for one row.
  function Expand(q: Query, row: Row, maxDepth: nat): set<Row> {
    if row.depth < maxDepth
    then set e | e in q.edges && Joins(q, e, row.node) :: Row(Across(e, row.node), row.depth + 1)
    else {}
  }

  // A solution of the recursive query: it holds the anchor row and whatever its rows expand to.
  ghost predicate Closed(q: Query, maxDepth: nat, rows: set<Row>) {
    Row(q.start, 0) in rows && forall row <- rows :: Expand(q, row, maxDepth) <= rows
  }

  function Level(q: Query, d: nat): set<Node> {
    if d == 0 then {q.start}
    else set n, e | n in Level(q, d - 1) && e in q.edges && Joins(q, e, n) :: Across(e, n)
  }

  function Rows(q: Query, maxDepth: nat): set<Row> {
    set d, n | 0 <= d <= maxDepth && n in Level(q, d) :: Row(n, d)
  }

  // The table is the least solution, which is what UNION computes.
  lemma RowsAreLeast(q: Query, maxDepth: nat)
    ensures Closed(q, maxDepth, Rows(q, maxDepth))
    ensures forall rows :: Closed(q, maxDepth, rows) ==> Rows(q, maxDepth) <= rows
  {
    forall row <- Rows(q, maxDepth), r | r in Expand(q, row, maxDepth) ensures r in Rows(q, maxDepth) {
      assert r.node in Level(q, row.depth + 1);
    }
    forall rows | Closed(q, maxDepth, rows) ensures Rows(q, maxDepth) <= rows {
      forall row <- Rows(q, maxDepth) ensures row in rows { InEverySolution(q, maxDepth, rows, row.node, row.depth); }
    }
  }

  lemma {:induction false} InEverySolution(q: Query, maxDepth: nat, rows: set<Row>, n: Node, d: nat)
    requires Closed(q, maxDepth, rows) && d <= maxDepth && n in Level(q, d)
    ensures Row(n, d) in rows
    decreases d
  {
    if d > 0 {
      var m, e :| m in Level(q, d - 1) && e in q.edges && Joins(q, e, m) && n == Across(e, m);
      InEverySolution(q, maxDepth, rows, m, d - 1);
      assert Row(n, d) in Expand(q, Row(m, d - 1), maxDepth);
    }
  }

  // SELECT kind, id, MIN(depth) ... GROUP BY kind, id
  function Nearest(rows: set<Row>): set<Row> {
    set row | row in rows && forall other <- rows :: other.node == row.node ==> row.depth <= other.depth
  }

  function Neighbors(q: Query, maxDepth: int, maxNodes: int): Outcome {
    if maxDepth < 1 || maxDepth > MAX_DEPTH_LIMIT then BadDepth
    else
      var walked := Nearest(Rows(q, maxDepth));
      if |walked| > maxNodes then TooManyNodes else Walked(walked)
  }

  // ---------------------------------------------------------------- paths

  // A chain of edges, crossed in either direction, each passing the relation filter.
  predicate Path(q: Query, from: Node, edges: seq<Edge>, to: Node)
    decreases |edges|
  {
    if edges == [] then from == to
    else Joins(q, edges[0], from) && Path(q, Across(edges[0], from), edges[1..], to)
  }

  ghost predicate WithinHops(q: Query, n: Node, hops: nat) {
    exists p: seq<Edge> :: |p| <= hops && Path(q, q.start, p, n)
  }

  // d is the shortest-path distance of n from the start.
  ghost predicate Distance(q: Query, n: Node, d: nat) {
    (exists p: seq<Edge> :: |p| == d && Path(q, q.start, p, n)) &&
    forall p: seq<Edge> :: Path(q, q.start, p, n) ==> d <= |p|
  }

  lemma {:induction false} PathExtend(q: Query, from: Node, p: seq<Edge>, m: Node, e: Edge)
    requires Path(q, from, p, m) && Joins(q, e, m)
    ensures Path(q, from, p + [e], Across(e, m))
    decreases |p|
  {
    var grown := p + [e];
    if p == [] {
      assert grown[1..] == [];
    } else {
      assert grown[1..] == p[1..] + [e];
      PathExtend(q, Across(p[0], from), p[1..], m, e);
    }
  }

  // The last edge of a path, and the node before it.
  lemma {:induction false} PathLast(q: Query, from: Node, p: seq<Edge>, to: Node) returns (m: Node)
    requires p != [] && Path(q, from, p, to)
    ensures Path(q, from, p[..|p| - 1], m) && Joins(q, p[|p| - 1], m) && to == Across(p[|p| - 1], m)
    decreases |p|
  {
    if |p| == 1 {
      m := from;
    } else {
      m := PathLast(q, Across(p[0], from), p[1..], to);
      assert p[..|p| - 1][1..] == p[1..][..|p| - 2];
    }
  }

  lemma {:induction false} LevelHasPath(q: Query, n: Node, d: nat) returns (p: seq<Edge>)
    requires n in Level(q, d)
    ensures |p| == d && Path(q, q.start, p, n)
    decreases d
  {
    if d == 0 {
      p := [];
    } else {
      var m, e :| m in Level(q, d - 1) && e in q.edges && Joins(q, e, m) && n == Across(e, m);
      var before := LevelHasPath(q, m, d - 1);
      PathExtend(q, q.start, before, m, e);
      p := before + [e];
    }
  }

  lemma {:induction false} PathReachesLevel(q: Query, p: seq<Edge>, n: Node)
    requires Path(q, q.start, p, n)
    ensures n in Level(q, |p|)
    decreases |p|
  {
    if p != [] {
      var m := PathLast(q, q.start, p, n);
      PathReachesLevel(q, p[..|p| - 1], m);
    }
  }

  lemma RowIffPath(q: Query, maxDepth: nat, n: Node, d: nat)
    ensures Row(n, d) in Rows(q, maxDepth) <==>
        d <= maxDepth && exists p: seq<Edge> :: |p| == d && Path(q, q.start, p, n)
  {
    if Row(n, d) in Rows(q, maxDepth) {
      var p := LevelHasPath(q, n, d);
    }
    if p: seq<Edge> :| |p| == d && Path(q, q.start, p, n) {
      PathReachesLevel(q, p, n);
    }
  }

  // A node and a depth are reported exactly when the depth is the node's shortest-path distance and within the cap.
  lemma WalkExact(q: Query, maxDepth: nat, n: Node, d: nat)
    ensures Row(n, d) in Nearest(Rows(q, maxDepth)) <==> d <= maxDepth && Distance(q, n, d)
  {
    hide Rows, Level;
    RowIffPath(q, maxDepth, n, d);
    if Row(n, d) in Nearest(Rows(q, maxDepth)) {
      forall p: seq<Edge> | Path(q, q.start, p, n) ensures d <= |p| {
        RowIffPath(q, maxDepth, n, |p|);
      }
    }
    if d <= maxDepth && Distance(q, n, d) {
      forall other <- Rows(q, maxDepth) | other.node == n ensures d <= other.depth {
        RowIffPath(q, maxDepth, n, other.depth);
      }
    }
  }

  // ---------------------------------------------------------------- how much it returns

  // A reached node is reported, once.
  lemma ReportedOnce(q: Query, maxDepth: nat, n: Node)
    ensures WithinHops(q, n, maxDepth) <==> exists d :: Row(n, d) in Nearest(Rows(q, maxDepth))
    ensures forall d, e :: Row(n, d) in Nearest(Rows(q, maxDepth)) && Row(n, e) in Nearest(Rows(q, maxDepth)) ==> d == e
  {
    hide Rows, Level;
    if p: seq<Edge> :| |p| <= maxDepth && Path(q, q.start, p, n) {
      RowIffPath(q, maxDepth, n, |p|);
      var d := Least(Rows(q, maxDepth), n, |p|);
      assert Row(n, d) in Nearest(Rows(q, maxDepth));
    }
    if d :| Row(n, d) in Nearest(Rows(q, maxDepth)) {
      RowIffPath(q, maxDepth, n, d);
    }
  }

  lemma {:induction false} Least(rows: set<Row>, n: Node, d: nat) returns (least: nat)
    requires Row(n, d) in rows
    ensures Row(n, least) in rows && forall other <- rows :: other.node == n ==> least <= other.depth
    decreases d
  {
    if e :| 0 <= e < d && Row(n, e) in rows {
      least := Least(rows, n, e);
    } else {
      least := d;
      forall other <- rows | other.node == n ensures least <= other.depth { assert other == Row(n, other.depth); }
    }
  }

  // Raising the cap keeps every reported node, at the same depth.
  lemma WalkGrows(q: Query, maxDepth: nat, more: nat)
    requires maxDepth <= more
    ensures Nearest(Rows(q, maxDepth)) <= Nearest(Rows(q, more))
  {
    hide Rows, Nearest, Distance;
    forall row <- Nearest(Rows(q, maxDepth)) ensures row in Nearest(Rows(q, more)) {
      WalkExact(q, maxDepth, row.node, row.depth);
      WalkExact(q, more, row.node, row.depth);
    }
  }

  function Nodes(q: Query): set<Node> {
    {q.start} + (set e | e in q.edges :: e.from) + (set e | e in q.edges :: e.to)
  }

  lemma {:induction false} LevelInside(q: Query, d: nat)
    ensures Level(q, d) <= Nodes(q)
  {
    if d > 0 { LevelInside(q, d - 1); }
  }

  lemma {:induction false} RowsOfLevel(nodes: set<Node>, d: nat)
    ensures |set n | n in nodes :: Row(n, d)| == |nodes|
    decreases nodes
  {
    if n :| n in nodes {
      RowsOfLevel(nodes - {n}, d);
      assert (set m | m in nodes :: Row(m, d)) == (set m | m in nodes - {n} :: Row(m, d)) + {Row(n, d)};
    }
  }

  lemma {:induction false} SubsetSmaller<T>(a: set<T>, b: set<T>)
    requires a <= b
    ensures |a| <= |b|
    decreases a
  {
    if x :| x in a {
      SubsetSmaller(a - {x}, b - {x});
    }
  }

  lemma LayerBounded(q: Query, d: nat)
    ensures |set n | n in Level(q, d) :: Row(n, d)| <= |Nodes(q)|
  {
    LevelInside(q, d);
    SubsetSmaller(Level(q, d), Nodes(q));
    RowsOfLevel(Level(q, d), d);
  }

  // However the edges cycle, the recursion makes at most one row for each node and depth.
  lemma {:induction false} RowsBounded(q: Query, maxDepth: nat)
    ensures |Rows(q, maxDepth)| <= |Nodes(q)| * (maxDepth + 1)
  {
    hide Level, Nodes;
    var layer := set n | n in Level(q, maxDepth) :: Row(n, maxDepth);
    LayerBounded(q, maxDepth);
    if maxDepth == 0 {
      assert Rows(q, 0) == layer;
    } else {
      RowsBounded(q, maxDepth - 1);
      assert Rows(q, maxDepth) == Rows(q, maxDepth - 1) + layer;
      assert |Nodes(q)| * (maxDepth + 1) == |Nodes(q)| * maxDepth + |Nodes(q)|;
    }
  }

  ghost function Reached(q: Query, hops: nat): set<Node> {
    set n | n in Nodes(q) && WithinHops(q, n, hops)
  }

  lemma ReachedExact(q: Query, hops: nat, n: Node)
    ensures n in Reached(q, hops) <==> WithinHops(q, n, hops)
  {
    if p: seq<Edge> :| |p| <= hops && Path(q, q.start, p, n) {
      PathReachesLevel(q, p, n);
      LevelInside(q, |p|);
    }
  }

  // The nodes within the cap are as many as the reported rows.
  lemma OneRowEach(q: Query, maxDepth: nat)
    ensures |Nearest(Rows(q, maxDepth))| == |Reached(q, maxDepth)|
  {
    hide Rows, Nearest, Reached, WithinHops;
    var rows := Nearest(Rows(q, maxDepth));
    forall n ensures n in Reached(q, maxDepth) <==> exists row <- rows :: row.node == n {
      ReachedExact(q, maxDepth, n);
      ReportedOnce(q, maxDepth, n);
      if row :| row in rows && row.node == n { assert row == Row(n, row.depth); }
    }
    forall a, b | a in rows && b in rows && a.node == b.node ensures a == b {
      ReportedOnce(q, maxDepth, a.node);
      assert a == Row(a.node, a.depth) && b == Row(a.node, b.depth);
    }
    SameSize(rows, Reached(q, maxDepth));
  }

  lemma {:induction false} SameSize(rows: set<Row>, nodes: set<Node>)
    requires forall n :: n in nodes <==> exists row <- rows :: row.node == n
    requires forall a, b :: a in rows && b in rows && a.node == b.node ==> a == b
    ensures |rows| == |nodes|
    decreases rows
  {
    if row :| row in rows {
      assert row.node in nodes;
      SameSize(rows - {row}, nodes - {row.node});
    } else {
      assert nodes == {};
    }
  }

  // The call fails exactly on a depth outside 1..8 or on more nodes within the cap than allowed; it never truncates.
  lemma NeighborsExact(q: Query, maxDepth: int, maxNodes: int)
    ensures var r := Neighbors(q, maxDepth, maxNodes);
            && (r.BadDepth? <==> !(1 <= maxDepth <= 8))
            && (r.TooManyNodes? <==> 1 <= maxDepth <= 8 && |Reached(q, maxDepth)| > maxNodes)
            && (r.Walked? ==> forall row: Row :: row in r.rows <==>
                row.depth <= maxDepth && Distance(q, row.node, row.depth))
  {
    hide Rows, Nearest, Distance, Reached;
    if 1 <= maxDepth <= 8 {
      OneRowEach(q, maxDepth);
      forall row: Row
        ensures row in Nearest(Rows(q, maxDepth)) <==> row.depth <= maxDepth && Distance(q, row.node, row.depth)
      {
        WalkExact(q, maxDepth, row.node, row.depth);
      }
    }
  }
}
