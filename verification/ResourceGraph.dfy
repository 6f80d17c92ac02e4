/** The resource graph: admission of edges and the bounded-radius neighbourhood. */
module ResourceGraph {
  import opened Text
  import EventKeys

  datatype Edge = Edge(from: string, to: string, relation: string, reason: string)

  /** Edges by identifier, as Go's `edgeByID`. */
  type Edges = map<string, Edge>

  // ---------------------------------------------------------------- admission of edges

  function EdgeId(e: Edge): string { e.from + "|" + e.relation + "|" + e.to + "|" + e.reason }

  predicate Admissible(nodes: set<string>, e: Edge) {
    e.from != "" && e.to != "" && e.from != e.to && e.from in nodes && e.to in nodes
  }

  /** Every edge joins two distinct known nodes and is filed under its own identifier. */
  ghost predicate Closed(nodes: set<string>, edges: Edges) {
    forall id :: id in edges ==> Admissible(nodes, edges[id]) && EdgeId(edges[id]) == id
  }

  /** Both ends of every edge are known nodes. */
  ghost predicate Known(nodes: set<string>, edges: Edges) {
    forall id :: id in edges ==> edges[id].from in nodes && edges[id].to in nodes
  }

  predicate Admits(nodes: set<string>, e: Edge, id: string) { Admissible(nodes, e) && EdgeId(e) == id }

  /** The `i`-th proposal is the first one admitted under this identifier. */
  predicate FirstAdmitted(nodes: set<string>, proposals: seq<Edge>, i: int, id: string) {
    0 <= i < |proposals| && Admits(nodes, proposals[i], id) && forall j :: 0 <= j < i ==> !Admits(nodes, proposals[j], id)
  }

  /** Adding the proposed edges one by one keeps the graph closed and admits exactly the
      admissible ones; of proposals with one identifier the first stays. */
  method AddEdges(nodes: set<string>, proposals: seq<Edge>) returns (edges: Edges)
    ensures Closed(nodes, edges) && Known(nodes, edges)
    ensures forall id :: id in edges <==> exists i :: FirstAdmitted(nodes, proposals, i, id)
    ensures forall id, i :: FirstAdmitted(nodes, proposals, i, id) ==> edges[id] == proposals[i]
  {
    edges := map[];
    for k := 0 to |proposals|
      invariant Closed(nodes, edges)
      invariant forall id :: id in edges <==> exists i :: i < k && FirstAdmitted(nodes, proposals, i, id)
      invariant forall id, i :: i < k && FirstAdmitted(nodes, proposals, i, id) ==> edges[id] == proposals[i]
    {
      var e := proposals[k];
      if Admissible(nodes, e) && EdgeId(e) !in edges {
        assert FirstAdmitted(nodes, proposals, k, EdgeId(e)) by { NoneAdmitted(nodes, proposals, k, EdgeId(e)); }
        edges := edges[EdgeId(e) := e];
      }
      forall id, i | i < k && FirstAdmitted(nodes, proposals, i, id) ensures !FirstAdmitted(nodes, proposals, k, id) {
        assert Admits(nodes, proposals[i], id);
      }
    }
  }

  lemma {:induction false} NoneAdmitted(nodes: set<string>, proposals: seq<Edge>, k: nat, id: string)
    requires k <= |proposals| && forall i :: i < k ==> !FirstAdmitted(nodes, proposals, i, id)
    ensures forall j :: 0 <= j < k ==> !Admits(nodes, proposals[j], id)
  {
    if k > 0 {
      NoneAdmitted(nodes, proposals, k - 1, id);
      assert !FirstAdmitted(nodes, proposals, k - 1, id);
    }
  }

  // ---------------------------------------------------------------- undirected distance

  predicate Joins(e: Edge, x: string, y: string) { (e.from == x && e.to == y) || (e.from == y && e.to == x) }

  predicate Adjacent(edges: Edges, x: string, y: string) {
    exists id :: id in edges && Joins(edges[id], x, y)
  }

  ghost predicate IsPath(edges: Edges, p: seq<string>) {
    p != [] && forall i :: 0 <= i < |p| - 1 ==> Adjacent(edges, p[i], p[i + 1])
  }

  /** Some walk along edges, in either direction, of at most `r` steps. */
  ghost predicate Within(edges: Edges, focus: string, n: string, r: nat) {
    exists p :: IsPath(edges, p) && p[0] == focus && p[|p| - 1] == n && |p| <= r + 1
  }

  ghost function Neighbours(edges: Edges, s: set<string>): set<string> {
    (set id | id in edges && edges[id].from in s :: edges[id].to) + (set id | id in edges && edges[id].to in s :: edges[id].from)
  }

  ghost function Ball(edges: Edges, focus: string, r: nat): set<string> {
    if r == 0 then {focus} else Ball(edges, focus, r - 1) + Neighbours(edges, Ball(edges, focus, r - 1))
  }

  lemma {:induction false} NeighboursAreAdjacent(edges: Edges, s: set<string>, y: string)
    ensures y in Neighbours(edges, s) <==> exists x :: x in s && Adjacent(edges, x, y)
  {
    if y in Neighbours(edges, s) {
      var id :| id in edges && ((edges[id].from in s && edges[id].to == y) || (edges[id].to in s && edges[id].from == y));
      var x := if edges[id].from in s && edges[id].to == y then edges[id].from else edges[id].to;
      assert Joins(edges[id], x, y);
    }
    if x :| x in s && Adjacent(edges, x, y) {
      var id :| id in edges && Joins(edges[id], x, y);
    }
  }

  /** The balls are exactly the nodes at that distance or less. */
  lemma {:induction false} BallIsDistance(edges: Edges, focus: string, n: string, r: nat)
    ensures n in Ball(edges, focus, r) <==> Within(edges, focus, n, r)
    decreases r, 1
  {
    if r == 0 {
      if n == focus { assert IsPath(edges, [focus]); }
    } else {
      if n in Ball(edges, focus, r) { PathFromBall(edges, focus, n, r); }
      if Within(edges, focus, n, r) { PathIntoBall(edges, focus, n, r); }
    }
  }

  lemma {:induction false} PathFromBall(edges: Edges, focus: string, n: string, r: nat)
    requires r > 0 && n in Ball(edges, focus, r)
    ensures Within(edges, focus, n, r)
    decreases r, 0
  {
    if n in Ball(edges, focus, r - 1) {
      BallIsDistance(edges, focus, n, r - 1);
    } else {
      NeighboursAreAdjacent(edges, Ball(edges, focus, r - 1), n);
      var x :| x in Ball(edges, focus, r - 1) && Adjacent(edges, x, n);
      BallIsDistance(edges, focus, x, r - 1);
      OneStepFurther(edges, focus, x, n, r - 1);
    }
  }

  lemma {:induction false} OneStepFurther(edges: Edges, focus: string, x: string, n: string, r: nat)
    requires Within(edges, focus, x, r) && Adjacent(edges, x, n)
    ensures Within(edges, focus, n, r + 1)
  {
    var p :| IsPath(edges, p) && p[0] == focus && p[|p| - 1] == x && |p| <= r + 1;
    var q := p + [n];
    assert IsPath(edges, q) && q[0] == focus && q[|q| - 1] == n;
  }

  lemma {:induction false} PathIntoBall(edges: Edges, focus: string, n: string, r: nat)
    requires r > 0 && Within(edges, focus, n, r)
    ensures n in Ball(edges, focus, r)
    decreases r, 0
  {
    var p :| IsPath(edges, p) && p[0] == focus && p[|p| - 1] == n && |p| <= r + 1;
    if |p| == 1 {
      FocusInBall(edges, focus, r);
    } else {
      var k := |p| - 1;
      var q := p[..k];
      assert IsPath(edges, q) && q[|q| - 1] == p[k - 1];
      BallIsDistance(edges, focus, p[k - 1], r - 1);
      NeighboursAreAdjacent(edges, Ball(edges, focus, r - 1), n);
      assert Adjacent(edges, p[k - 1], p[k - 1 + 1]);
    }
  }

  lemma {:induction false} FocusInBall(edges: Edges, focus: string, r: nat)
    ensures focus in Ball(edges, focus, r)
  {
    if r > 0 { FocusInBall(edges, focus, r - 1); }
  }

  // ---------------------------------------------------------------- the search

  /** One round: everything next to the frontier joins, in whatever order edges are visited. */
  method Expand(edges: Edges, included: set<string>, frontier: set<string>) returns (grown: set<string>, next: set<string>)
    ensures grown == included + Neighbours(edges, frontier)
    ensures next == grown - included
  {
    grown, next := included, {};
    var todo := edges.Keys;
    ghost var done: Edges := map[];
    while todo != {}
      invariant todo <= edges.Keys
      invariant done.Keys == edges.Keys - todo && forall id :: id in done ==> done[id] == edges[id]
      invariant grown == included + Neighbours(done, frontier) && next == grown - included
      decreases todo
    {
      var id :| id in todo;
      var e := edges[id];
      ghost var before := grown;
      if e.from in frontier && e.to !in grown {
        grown, next := grown + {e.to}, next + {e.to};
      }
      if e.to in frontier && e.from !in grown {
        grown, next := grown + {e.from}, next + {e.from};
      }
      NeighboursOfMore(done, id, e, frontier);
      done := done[id := e];
      todo := todo - {id};
    }
    assert done == edges;
  }

  ghost function EdgeNeighbours(e: Edge, s: set<string>): set<string> {
    (if e.from in s then {e.to} else {}) + (if e.to in s then {e.from} else {})
  }

  lemma {:induction false} NeighboursOfMore(edges: Edges, id: string, e: Edge, s: set<string>)
    requires id !in edges
    ensures Neighbours(edges[id := e], s) == Neighbours(edges, s) + EdgeNeighbours(e, s)
  {
    var more := edges[id := e];
    forall y ensures y in Neighbours(more, s) <==> y in Neighbours(edges, s) + EdgeNeighbours(e, s) {
      if y in Neighbours(edges, s) {
        var k :| k in edges && ((edges[k].from in s && edges[k].to == y) || (edges[k].to in s && edges[k].from == y));
        assert k in more && more[k] == edges[k];
      }
      if y in EdgeNeighbours(e, s) { assert id in more && more[id] == e; }
      if y in Neighbours(more, s) {
        var k :| k in more && ((more[k].from in s && more[k].to == y) || (more[k].to in s && more[k].from == y));
        if k != id { assert k in edges && edges[k] == more[k]; }
      }
    }
  }

  /** The nodes at distance exactly `r`. */
  ghost function Layer(edges: Edges, focus: string, r: nat): set<string> {
    if r == 0 then {focus} else Ball(edges, focus, r) - Ball(edges, focus, r - 1)
  }

  /** Only the newest layer can lead out of a ball. */
  lemma {:induction false} LayerSuffices(edges: Edges, focus: string, r: nat)
    ensures Ball(edges, focus, r) + Neighbours(edges, Layer(edges, focus, r)) == Ball(edges, focus, r + 1)
  {
    if r > 0 {
      var inner, layer := Ball(edges, focus, r - 1), Layer(edges, focus, r);
      assert Ball(edges, focus, r) == inner + layer;
    }
  }

  lemma {:induction false} SameGrowth(edges: Edges, focus: string, i: nat, j: nat)
    requires Ball(edges, focus, i) == Ball(edges, focus, j)
    ensures Ball(edges, focus, i + 1) == Ball(edges, focus, j + 1)
  {
    BallGrows(edges, focus, i, Ball(edges, focus, i));
    BallGrows(edges, focus, j, Ball(edges, focus, j));
  }

  /** A ball that stops growing has reached everything it ever will. */
  lemma {:induction false} BallStabilizes(edges: Edges, focus: string, k: nat, r: nat)
    requires k <= r && Ball(edges, focus, k) == Ball(edges, focus, k + 1)
    ensures Ball(edges, focus, r) == Ball(edges, focus, k)
  {
    if k < r {
      BallStabilizes(edges, focus, k, r - 1);
      SameGrowth(edges, focus, r - 1, k);
    }
  }

  lemma {:induction false} BallGrows(edges: Edges, focus: string, r: nat, ball: set<string>)
    requires ball == Ball(edges, focus, r)
    ensures Ball(edges, focus, r + 1) == ball + Neighbours(edges, ball)
  {}

  /** The focused branch of `materializeGraph`. */
  method Search(edges: Edges, focus: string, radius: int) returns (included: set<string>)
    ensures included == Ball(edges, focus, if radius < 0 then 0 else radius)
  {
    included := {focus};
    var frontier := {focus};
    var step := 0;
    while step < radius
      invariant 0 <= step && (radius >= 0 ==> step <= radius) && (radius < 0 ==> step == 0)
      invariant included == Ball(edges, focus, step) && frontier == Layer(edges, focus, step)
    {
      LayerSuffices(edges, focus, step);
      included, frontier := Expand(edges, included, frontier);
      if frontier == {} {
        EmptyLayer(edges, focus, step, radius);
        break;
      }
      step := step + 1;
    }
  }

  lemma {:induction false} EmptyLayer(edges: Edges, focus: string, step: nat, radius: nat)
    requires step < radius && Ball(edges, focus, step + 1) - Ball(edges, focus, step) == {}
    ensures Ball(edges, focus, step + 1) == Ball(edges, focus, radius)
  {
    var inner, outer := Ball(edges, focus, step), Ball(edges, focus, step + 1);
    assert inner <= outer;
    forall n | n in outer ensures n in inner { assert n !in outer - inner; }
    assert inner == outer;
    BallStabilizes(edges, focus, step, radius);
  }

  predicate Touches(e: Edge, n: string) { e.from == n || e.to == n }

  predicate Attached(edges: Edges, n: string) { exists id :: id in edges && Touches(edges[id], n) }

  method Endpoints(edges: Edges) returns (included: set<string>)
    ensures forall n :: n in included <==> Attached(edges, n)
  {
    included := {};
    var todo := edges.Keys;
    while todo != {}
      invariant todo <= edges.Keys
      invariant forall n :: n in included <==> exists id :: id in edges.Keys - todo && Touches(edges[id], n)
      decreases todo
    {
      var id :| id in todo;
      included := included + {edges[id].from, edges[id].to};
      todo := todo - {id};
    }
  }

  method FocusedNodes(nodes: set<string>, edges: Edges, focus: string, radius: int) returns (included: set<string>)
    requires Known(nodes, edges)
    ensures focus in nodes ==> forall n :: n in included <==> Within(edges, focus, n, if radius < 0 then 0 else radius)
    ensures focus !in nodes ==> included == {}
    ensures included <= nodes
  {
    included := {};
    if focus in nodes {
      included := Search(edges, focus, radius);
      ghost var r: nat := if radius < 0 then 0 else radius;
      BallWithinNodes(nodes, edges, focus, r);
      forall n ensures n in included <==> Within(edges, focus, n, r) { BallIsDistance(edges, focus, n, r); }
    }
  }

  method OverviewNodes(nodes: set<string>, edges: Edges) returns (included: set<string>)
    requires Known(nodes, edges)
    ensures edges != map[] ==> forall n :: n in included <==> Attached(edges, n)
    ensures edges == map[] ==> included == nodes
    ensures included <= nodes
  {
    included := Endpoints(edges);
    forall id | id in edges ensures edges[id].from in included { assert Attached(edges, edges[id].from); }
    if included == {} {
      assert edges.Keys == {};
      included := nodes;
    }
  }

  /** `materializeGraph`, up to display order: with a known focus exactly the nodes within the
      radius, with an unknown one nothing, and without one the connected nodes (or all nodes
      when there are no edges); always exactly the edges with both ends included. */
  method MaterializeGraph(nodes: set<string>, edges: Edges, focus: string, radius: int)
    returns (outNodes: set<string>, outEdges: set<string>)
    requires Known(nodes, edges)
    ensures focus != "" && focus in nodes ==>
              forall n :: n in outNodes <==> Within(edges, focus, n, if radius < 0 then 0 else radius)
    ensures focus != "" && focus !in nodes ==> outNodes == {}
    ensures focus == "" && edges != map[] ==> forall n :: n in outNodes <==> Attached(edges, n)
    ensures focus == "" && edges == map[] ==> outNodes == nodes
    ensures outNodes <= nodes
    ensures forall id :: id in outEdges <==> id in edges && edges[id].from in outNodes && edges[id].to in outNodes
  {
    if focus != "" {
      outNodes := FocusedNodes(nodes, edges, focus, radius);
    } else {
      outNodes := OverviewNodes(nodes, edges);
    }
    outEdges := set id | id in edges && edges[id].from in outNodes && edges[id].to in outNodes;
  }

  lemma {:induction false} BallWithinNodes(nodes: set<string>, edges: Edges, focus: string, r: nat)
    requires Known(nodes, edges) && focus in nodes
    ensures Ball(edges, focus, r) <= nodes
  {
    if r > 0 { BallWithinNodes(nodes, edges, focus, r - 1); }
  }

  // ---------------------------------------------------------------- parallel edges

  /** `graphNodeID`. */
  function NodeId(cluster: string, kind: string, namespace: string, name: string): string {
    cluster + "|" + kind + "|" + namespace + "|" + name
  }

  lemma {:induction false} NodeIdIsJoin(parts: seq<string>)
    requires |parts| == 4
    ensures NodeId(parts[0], parts[1], parts[2], parts[3]) == Join(parts, "|")
  {
    var a, b, c, d := parts[0], parts[1], parts[2], parts[3];
    assert parts[1..] == [b, c, d] && [b, c, d][1..] == [c, d] && [c, d][1..] == [d];
    assert Join([c, d], "|") == c + "|" + d;
    EventKeys.BarMoves(b, c, d);
    EventKeys.BarMoves(a, b, c + "|" + d);
    ConcatAssociative(a + "|" + b + "|" + c, "|", d);
    ConcatAssociative(a + "|" + b + "|", c, "|" + d);
    ConcatAssociative(c, "|", d);
  }

  /** The parts of a node identifier. */
  predicate NodeParts(parts: seq<string>) { |parts| == 4 && forall i :: 0 <= i < 4 ==> EventKeys.BarFree(parts[i]) }

  function EdgeParts(from: seq<string>, relation: string, to: seq<string>, reason: string): seq<string> {
    from + ([relation] + (to + [reason]))
  }

  lemma {:induction false} EdgeIdIsJoin(from: seq<string>, relation: string, to: seq<string>, reason: string)
    requires |from| == 4 && |to| == 4
    ensures EdgeId(Edge(Join(from, "|"), Join(to, "|"), relation, reason)) == Join(EdgeParts(from, relation, to, reason), "|")
  {
    var f, t := Join(from, "|"), Join(to, "|");
    JoinConcat(to, [reason], "|");
    JoinConcat([relation], to + [reason], "|");
    JoinConcat(from, [relation] + (to + [reason]), "|");
    EventKeys.BarMoves(relation, t, reason);
    EventKeys.BarMoves(f, relation, t + "|" + reason);
    EventKeys.BarMoves(f + "|" + relation, t, reason);
  }

  /** Edges between nodes with bar-free parts share an identifier only if they agree in both ends,
      in their relation and in their reason, so parallel edges with other evidence are kept. */
  lemma {:induction false} ParallelEdgesAreKept(from: seq<string>, rel: string, to: seq<string>, reason: string,
                                                from': seq<string>, rel': string, to': seq<string>, reason': string)
    requires NodeParts(from) && NodeParts(to) && NodeParts(from') && NodeParts(to') && EventKeys.BarFree(rel) && EventKeys.BarFree(rel')
    requires EdgeId(Edge(Join(from, "|"), Join(to, "|"), rel, reason)) == EdgeId(Edge(Join(from', "|"), Join(to', "|"), rel', reason'))
    ensures from == from' && rel == rel' && to == to' && reason == reason'
  {
    EdgeIdIsJoin(from, rel, to, reason);
    EdgeIdIsJoin(from', rel', to', reason');
    var p, q := EdgeParts(from, rel, to, reason), EdgeParts(from', rel', to', reason');
    EventKeys.JoinSeparates(p, q);
    assert from == p[..4] && from' == q[..4] && rel == p[4] && rel' == q[4] && to == p[5..9] && to' == q[5..9] && reason == p[9] && reason' == q[9];
  }
}
