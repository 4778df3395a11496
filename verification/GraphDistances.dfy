/** The walk of src/graph/view.ts told by the nodes it passes. */
module GraphDistances {
  import opened Text
  import opened GraphWalk

  // Two nodes are next to each other: an edge of the asked relation, or of any, runs between them in either direction.
  predicate NextTo(q: Query, m: Node, n: Node) {
    exists e <- q.edges ::
      && ((e.from == m && e.to == n) || (e.from == n && e.to == m))
      && match q.rel { case None => true case Some(rel) => e.rel == rel }
  }

  // Nodes from the start on, each next to the one before.
  predicate Walk(q: Query, ns: seq<Node>) {
    ns != [] && ns[0] == q.start && forall i :: 0 < i < |ns| ==> NextTo(q, ns[i - 1], ns[i])
  }

  // A walk of d steps leads to n.
  ghost predicate LeadsTo(q: Query, n: Node, d: nat) {
    exists ns: seq<Node> :: |ns| == d + 1 && Walk(q, ns) && ns[d] == n
  }

  lemma JoinsNext(q: Query, e: Edge, m: Node)
    requires Joins(q, e, m)
    ensures NextTo(q, m, Across(e, m))
  {
  }

  lemma NextJoins(q: Query, m: Node, n: Node) returns (e: Edge)
    requires NextTo(q, m, n)
    ensures Joins(q, e, m) && Across(e, m) == n
  {
    e :| && e in q.edges && ((e.from == m && e.to == n) || (e.from == n && e.to == m))
         && match q.rel { case None => true case Some(rel) => e.rel == rel };
  }

  lemma LevelLeads(q: Query, n: Node, d: nat)
    ensures n in Level(q, d) <==> LeadsTo(q, n, d)
  {
    if n in Level(q, d) { LevelHasWalk(q, n, d); }
    if ns: seq<Node> :| |ns| == d + 1 && Walk(q, ns) && ns[d] == n { WalkInLevel(q, ns); }
  }

  lemma {:induction false} LevelHasWalk(q: Query, n: Node, d: nat)
    requires n in Level(q, d)
    ensures LeadsTo(q, n, d)
    decreases d
  {
    if d == 0 {
      assert Walk(q, [q.start]) && |[q.start]| == 1;
    } else {
      var m, e :| m in Level(q, d - 1) && e in q.edges && Joins(q, e, m) && n == Across(e, m);
      JoinsNext(q, e, m);
      LevelHasWalk(q, m, d - 1);
      hide NextTo, Joins, Across, Level, Walk;
      var ns: seq<Node> :| |ns| == d && Walk(q, ns) && ns[d - 1] == m;
      WalkOn(q, ns, n);
    }
  }

  lemma {:induction false} WalkInLevel(q: Query, ns: seq<Node>)
    requires Walk(q, ns)
    ensures ns[|ns| - 1] in Level(q, |ns| - 1)
    decreases |ns|
  {
    if |ns| > 1 {
      var d := |ns| - 1;
      assert NextTo(q, ns[d - 1], ns[d]);
      var e := NextJoins(q, ns[d - 1], ns[d]);
      hide NextTo;
      assert Walk(q, ns[..d]);
      WalkInLevel(q, ns[..d]);
      assert e in q.edges;
    }
  }

  lemma WalkOn(q: Query, ns: seq<Node>, n: Node)
    requires ns != [] && Walk(q, ns) && NextTo(q, ns[|ns| - 1], n)
    ensures Walk(q, ns + [n]) && LeadsTo(q, n, |ns|)
  {
    hide NextTo;
    var more := ns + [n];
    forall i | 0 < i < |more| ensures NextTo(q, more[i - 1], more[i]) { assert more[i - 1] == ns[i - 1]; }
    assert |more| == |ns| + 1 && more[|ns|] == n;
  }

  // The shortest walk to n has d steps.
  ghost predicate Shortest(q: Query, n: Node, d: nat) {
    LeadsTo(q, n, d) && forall k: nat :: k < d ==> !LeadsTo(q, n, k)
  }

  ghost predicate Near(q: Query, n: Node, maxDepth: nat) {
    exists d: nat :: d <= maxDepth && LeadsTo(q, n, d)
  }

  lemma NearestShortest(q: Query, maxDepth: nat, n: Node, d: nat)
    ensures Row(n, d) in Nearest(Rows(q, maxDepth)) <==> d <= maxDepth && Shortest(q, n, d)
  {
    forall k: nat ensures Row(n, k) in Rows(q, maxDepth) <==> k <= maxDepth && LeadsTo(q, n, k) {
      LevelLeads(q, n, k);
    }
    hide Rows, LeadsTo;
    if Row(n, d) in Nearest(Rows(q, maxDepth)) {
      forall k: nat | k < d ensures !LeadsTo(q, n, k) { assert Row(n, k) !in Rows(q, maxDepth); }
    }
  }

  // The call fails exactly for a depth outside 1 to 8 or for more nodes near the start than allowed. Else it reports
  // exactly the nodes near the start, each at the number of steps of its shortest walk.
  lemma NeighborsByWalks(q: Query, maxDepth: int, maxNodes: int, near: set<Node>)
    requires 1 <= maxDepth <= 8 ==> forall n :: n in near <==> Near(q, n, maxDepth)
    ensures var r := Neighbors(q, maxDepth, maxNodes);
            && (r.BadDepth? <==> maxDepth < 1 || 8 < maxDepth)
            && (r.TooManyNodes? <==> 1 <= maxDepth <= 8 && |near| > maxNodes)
            && (r.Walked? ==> forall row: Row :: row in r.rows <==>
                  row.depth <= maxDepth && Shortest(q, row.node, row.depth))
  {
    hide Rows, Nearest, Shortest, Near;
    NeighborsExact(q, maxDepth, maxNodes);
    if 1 <= maxDepth <= 8 {
      NearReached(q, maxDepth, near);
      forall row: Row
        ensures row in Nearest(Rows(q, maxDepth)) <==> row.depth <= maxDepth && Shortest(q, row.node, row.depth)
      {
        NearestShortest(q, maxDepth, row.node, row.depth);
      }
    }
  }

  lemma NearReached(q: Query, maxDepth: nat, near: set<Node>)
    requires forall n :: n in near <==> Near(q, n, maxDepth)
    ensures near == Reached(q, maxDepth)
  {
    forall n ensures n in near <==> n in Reached(q, maxDepth) {
      ReachedExact(q, maxDepth, n);
      if Near(q, n, maxDepth) {
        var d: nat :| d <= maxDepth && LeadsTo(q, n, d);
        LevelLeads(q, n, d);
        var p := LevelHasPath(q, n, d);
        assert WithinHops(q, n, maxDepth);
      }
      if WithinHops(q, n, maxDepth) {
        var p: seq<Edge> :| |p| <= maxDepth && Path(q, q.start, p, n);
        PathReachesLevel(q, p, n);
        LevelLeads(q, n, |p|);
      }
    }
  }
}
