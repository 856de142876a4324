/** The bounded graph walk around an asset (server/assets/api.py,
    `get_asset_graph`): links are followed in both directions, layer by layer. */
module AssetGraphs {

  type AssetId = nat
  datatype Asset = Asset(id: AssetId, kind: nat, owner: nat, category: nat, modulePath: nat)
  datatype Link = Link(linkId: nat, src: AssetId, dst: AssetId, kind: nat)
  datatype Edge = Edge(src: AssetId, dst: AssetId, kind: nat)

  datatype Graph = Graph(nodes: seq<Asset>, edges: seq<Edge>)
  datatype Response = NotFound | Found(graph: Graph)

  function EdgeOf(l: Link): Edge {
    Edge(l.src, l.dst, l.kind)
  }

  // ----- Reference definition: walks -----

  predicate Linked(links: seq<Link>, x: AssetId, y: AssetId) {
    exists l :: l in links && ((l.src == x && l.dst == y) || (l.dst == x && l.src == y))
  }

  // There is a walk of exactly n hops from root to x, links taken either way.
  ghost predicate Walk(links: seq<Link>, root: AssetId, x: AssetId, n: nat)
    decreases n
  {
    if n == 0 then x == root
    else exists y :: Walk(links, root, y, n - 1) && Linked(links, y, x)
  }

  ghost predicate WithinHops(links: seq<Link>, root: AssetId, x: AssetId, d: nat) {
    exists n: nat :: n <= d && Walk(links, root, x, n)
  }

  // The link runs from the edge's source to its destination.
  predicate Joins(l: Link, e: Edge) {
    l.src == e.src && l.dst == e.dst && l.kind == e.kind
  }

  // The edge of some link with an end within one hop less than `depth`.
  ghost predicate EdgeInHops(links: seq<Link>, root: AssetId, depth: nat, e: Edge) {
    depth > 0 &&
    exists l :: l in links && Joins(l, e) && LinkWithin(links, root, l, depth - 1)
  }

  ghost predicate LinkWithin(links: seq<Link>, root: AssetId, l: Link, d: nat) {
    WithinHops(links, root, l.src, d) || WithinHops(links, root, l.dst, d)
  }

  // ----- Layers -----

  function Neighbours(links: seq<Link>, s: set<AssetId>): set<AssetId> {
    (set l | l in links && l.src in s :: l.dst) + (set l | l in links && l.dst in s :: l.src)
  }

  function Incident(links: seq<Link>, s: set<AssetId>): set<Edge> {
    set l | l in links && (l.src in s || l.dst in s) :: EdgeOf(l)
  }

  function Ball(links: seq<Link>, root: AssetId, d: nat): set<AssetId> {
    if d == 0 then {root} else Ball(links, root, d - 1) + Neighbours(links, Ball(links, root, d - 1))
  }

  // What was inside before the last hop: nothing before the first.
  function Inner(links: seq<Link>, root: AssetId, d: nat): set<AssetId> {
    if d == 0 then {} else Ball(links, root, d - 1)
  }

  lemma NeighboursAreLinked(links: seq<Link>, s: set<AssetId>, x: AssetId)
    ensures x in Neighbours(links, s) <==> exists y :: y in s && Linked(links, y, x)
  {
    if x in Neighbours(links, s) {
      var l :| l in links && ((l.src in s && l.dst == x) || (l.dst in s && l.src == x));
      var y := if l.src in s && l.dst == x then l.src else l.dst;
      assert Linked(links, y, x);
    }
  }

  lemma {:induction false} BallHasWalk(links: seq<Link>, root: AssetId, x: AssetId, d: nat)
    requires x in Ball(links, root, d)
    ensures WithinHops(links, root, x, d)
    decreases d
  {
    if d == 0 {
      assert Walk(links, root, root, 0);
    } else if x in Ball(links, root, d - 1) {
      BallHasWalk(links, root, x, d - 1);
    } else {
      NeighboursAreLinked(links, Ball(links, root, d - 1), x);
      var y :| y in Ball(links, root, d - 1) && Linked(links, y, x);
      BallHasWalk(links, root, y, d - 1);
      var n: nat :| n <= d - 1 && Walk(links, root, y, n);
      assert Walk(links, root, x, n + 1);
    }
  }

  lemma {:induction false} WalkStaysInBall(links: seq<Link>, root: AssetId, x: AssetId, n: nat, d: nat)
    requires Walk(links, root, x, n) && n <= d
    ensures x in Ball(links, root, d)
    decreases d
  {
    hide Neighbours, Linked;
    if n < d {
      WalkStaysInBall(links, root, x, n, d - 1);
    } else if n > 0 {
      var y :| Walk(links, root, y, n - 1) && Linked(links, y, x);
      WalkStaysInBall(links, root, y, n - 1, d - 1);
      NeighboursAreLinked(links, Ball(links, root, d - 1), x);
    }
  }

  /** The layered ball is the set of assets within so many hops. */
  lemma BallIsWithinHops(links: seq<Link>, root: AssetId, x: AssetId, d: nat)
    ensures x in Ball(links, root, d) <==> WithinHops(links, root, x, d)
  {
    if x in Ball(links, root, d) {
      BallHasWalk(links, root, x, d);
    }
    if WithinHops(links, root, x, d) {
      var n: nat :| n <= d && Walk(links, root, x, n);
      WalkStaysInBall(links, root, x, n, d);
    }
  }

  // ----- The walk -----

  ghost predicate Distinct<T>(s: seq<T>) {
    forall i, j :: 0 <= i < j < |s| ==> s[i] != s[j]
  }

  // Edges listed so far, each once, and the lookup set for them.
  ghost predicate EdgesAre(edges: seq<Edge>, seen: set<Edge>) {
    Distinct(edges) && forall e :: e in edges <==> e in seen
  }

  predicate At(l: Link, x: AssetId, outgoing: bool) {
    if outgoing then l.src == x else l.dst == x
  }

  function Other(l: Link, outgoing: bool): AssetId {
    if outgoing then l.dst else l.src
  }

  ghost predicate ReachedBy(links: seq<Link>, x: AssetId, outgoing: bool, y: AssetId) {
    exists l :: l in links && At(l, x, outgoing) && Other(l, outgoing) == y
  }

  ghost predicate EdgeAt(links: seq<Link>, x: AssetId, outgoing: bool, e: Edge) {
    exists l :: l in links && At(l, x, outgoing) && EdgeOf(l) == e
  }

  /** The links leaving (or entering) one asset: their edges are listed once, their
      far ends join the visited set and, when new, the next layer. */
  method ScanLinks(
    links: seq<Link>, x: AssetId, outgoing: bool, visited0: set<AssetId>, next0: set<AssetId>,
    edges0: seq<Edge>, seen0: set<Edge>)
    returns (visited: set<AssetId>, next: set<AssetId>, edges: seq<Edge>, seen: set<Edge>)
    requires EdgesAre(edges0, seen0)
    ensures EdgesAre(edges, seen)
    ensures forall e :: e in seen <==> e in seen0 || EdgeAt(links, x, outgoing, e)
    ensures forall y :: y in visited <==> y in visited0 || ReachedBy(links, x, outgoing, y)
    ensures next == next0 + (visited - visited0)
  {
    visited, next, edges, seen := visited0, next0, edges0, seen0;
    for i := 0 to |links|
      invariant EdgesAre(edges, seen)
      invariant seen0 <= seen && visited0 <= visited
      invariant forall e :: e in seen ==> e in seen0 || EdgeAt(links, x, outgoing, e)
      invariant forall y :: y in visited ==> y in visited0 || ReachedBy(links, x, outgoing, y)
      invariant forall j :: 0 <= j < i && At(links[j], x, outgoing) ==>
                  EdgeOf(links[j]) in seen && Other(links[j], outgoing) in visited
      invariant next == next0 + (visited - visited0)
    {
      var l := links[i];
      if At(l, x, outgoing) {
        assert EdgeAt(links, x, outgoing, EdgeOf(l)) && ReachedBy(links, x, outgoing, Other(l, outgoing));
        if EdgeOf(l) !in seen {
          seen := seen + {EdgeOf(l)};
          edges := edges + [EdgeOf(l)];
        }
        if Other(l, outgoing) !in visited {
          visited := visited + {Other(l, outgoing)};
          next := next + {Other(l, outgoing)};
        }
      }
    }
  }

  /** One layer: every asset of it is scanned both ways, in any order. */
  method ExpandLayer(links: seq<Link>, layer: set<AssetId>, visited0: set<AssetId>, edges0: seq<Edge>, seen0: set<Edge>)
    returns (visited: set<AssetId>, next: set<AssetId>, edges: seq<Edge>, seen: set<Edge>)
    requires EdgesAre(edges0, seen0)
    ensures EdgesAre(edges, seen) && seen == seen0 + Incident(links, layer)
    ensures visited == visited0 + Neighbours(links, layer) && next == visited - visited0
  {
    visited, next, edges, seen := visited0, {}, edges0, seen0;
    var todo := layer;
    while todo != {}
      invariant todo <= layer
      invariant EdgesAre(edges, seen) && seen == seen0 + Incident(links, layer - todo)
      invariant visited == visited0 + Neighbours(links, layer - todo) && next == visited - visited0
      decreases todo
    {
      var x :| x in todo;
      ghost var done := layer - todo;
      var v, n, es, s := ScanLinks(links, x, true, visited, next, edges, seen);
      v, n, es, s := ScanLinks(links, x, false, v, n, es, s);
      OneMore(links, done, x);
      todo := todo - {x};
      assert layer - todo == done + {x};
      visited, next, edges, seen := v, n, es, s;
    }
    assert layer - todo == layer;
  }

  lemma OneMore(links: seq<Link>, done: set<AssetId>, x: AssetId)
    ensures forall y :: y in Neighbours(links, done + {x}) <==>
      y in Neighbours(links, done) || ReachedBy(links, x, true, y) || ReachedBy(links, x, false, y)
    ensures forall e :: e in Incident(links, done + {x}) <==>
      e in Incident(links, done) || EdgeAt(links, x, true, e) || EdgeAt(links, x, false, e)
  {
    forall y ensures y in Neighbours(links, done + {x}) <==>
      y in Neighbours(links, done) || ReachedBy(links, x, true, y) || ReachedBy(links, x, false, y)
    {
      if ReachedBy(links, x, true, y) {
        var l :| l in links && l.src == x && l.dst == y;
        assert l.src in done + {x};
      }
      if ReachedBy(links, x, false, y) {
        var l :| l in links && l.dst == x && l.src == y;
        assert l.dst in done + {x};
      }
    }
    forall e ensures e in Incident(links, done + {x}) <==>
      e in Incident(links, done) || EdgeAt(links, x, true, e) || EdgeAt(links, x, false, e)
    {
      if EdgeAt(links, x, true, e) {
        var l :| l in links && l.src == x && EdgeOf(l) == e;
        assert l.src in done + {x};
      }
      if EdgeAt(links, x, false, e) {
        var l :| l in links && l.dst == x && EdgeOf(l) == e;
        assert l.dst in done + {x};
      }
    }
  }

  // The nodes are the existing assets among the given ids, each once.
  ghost predicate NodesAre(assets: map<AssetId, Asset>, nodes: seq<Asset>, ids: set<AssetId>) {
    && Distinct(nodes)
    && forall a :: a in nodes <==> a.id in ids && a.id in assets && assets[a.id] == a
  }

  method LoadNodes(
    assets: map<AssetId, Asset>, nodes0: seq<Asset>, ids0: set<AssetId>, fresh_: set<AssetId>)
    returns (nodes: seq<Asset>)
    requires forall id :: id in assets ==> assets[id].id == id
    requires NodesAre(assets, nodes0, ids0) && ids0 !! fresh_
    ensures NodesAre(assets, nodes, ids0 + fresh_)
  {
    nodes := nodes0;
    var todo := fresh_;
    while todo != {}
      invariant todo <= fresh_
      invariant NodesAre(assets, nodes, ids0 + (fresh_ - todo))
      decreases todo
    {
      var id :| id in todo;
      if id in assets {
        assert assets[id] !in nodes;
        nodes := nodes + [assets[id]];
      }
      todo := todo - {id};
    }
    assert ids0 + (fresh_ - todo) == ids0 + fresh_;
  }

  // What one layer adds, in terms of balls.
  lemma LayerStep(links: seq<Link>, root: AssetId, d: nat)
    ensures var layer := Ball(links, root, d) - Inner(links, root, d);
      && Ball(links, root, d) + Neighbours(links, layer) == Ball(links, root, d + 1)
      && Incident(links, Inner(links, root, d)) + Incident(links, layer) == Incident(links, Ball(links, root, d))
      && Inner(links, root, d) <= Ball(links, root, d)
  {
    var ball, inner := Ball(links, root, d), Inner(links, root, d);
    var layer := ball - inner;
    assert Neighbours(links, inner) <= ball;
    NeighboursUnion(links, inner, layer);
    assert inner + layer == ball;
  }

  lemma NeighboursUnion(links: seq<Link>, a: set<AssetId>, b: set<AssetId>)
    ensures Neighbours(links, a + b) == Neighbours(links, a) + Neighbours(links, b)
    ensures Incident(links, a + b) == Incident(links, a) + Incident(links, b)
  {}

  /** For any depth: the nodes are exactly the existing assets within `depth` hops
      of the root, the edges exactly those of links with an end within one hop
      less, and nothing is listed twice. Links to assets that no longer exist are
      still walked through. Only the root is checked for visibility, so the graph shows
      an asset the member may not view exactly when one lies within the depth. */
  method GetAssetGraph(
    assets: map<AssetId, Asset>, links: seq<Link>, root: AssetId, depth: nat, canView: AssetId -> bool)
    returns (r: Response)
    requires forall id :: id in assets ==> assets[id].id == id
    ensures r == NotFound <==> root !in assets || !canView(root)
    ensures r.Found? ==> Distinct(r.graph.nodes) && Distinct(r.graph.edges)
    ensures r.Found? ==> forall a :: a in r.graph.nodes <==>
              a.id in assets && assets[a.id] == a && WithinHops(links, root, a.id, depth)
    ensures r.Found? ==> forall e :: e in r.graph.edges <==> EdgeInHops(links, root, depth, e)
    ensures r.Found? ==> (ShowsHidden(canView, r.graph.nodes) <==> HiddenInReach(assets, links, root, depth, canView))
  {
    if root !in assets || !canView(root) {
      return NotFound;
    }
    var visited, layer := {root}, {root};
    var nodes, edges, seen := [assets[root]], [], {};
    for d := 0 to depth
      invariant visited == Ball(links, root, d)
      invariant layer == Ball(links, root, d) - Inner(links, root, d)
      invariant NodesAre(assets, nodes, visited)
      invariant EdgesAre(edges, seen) && seen == Incident(links, Inner(links, root, d))
    {
      LayerStep(links, root, d);
      var v, next, es, s := ExpandLayer(links, layer, visited, edges, seen);
      nodes := LoadNodes(assets, nodes, visited, next);
      assert visited + next == v;
      visited, layer, edges, seen := v, next, es, s;
    }
    r := Found(Graph(nodes, edges));
    NodesInHops(assets, links, root, depth, nodes);
    EdgesInHops(links, root, depth, edges);
    HiddenShownIff(assets, links, root, depth, nodes, canView);
  }

  ghost predicate ShowsHidden(canView: AssetId -> bool, nodes: seq<Asset>) {
    exists a :: a in nodes && !canView(a.id)
  }

  ghost predicate HiddenInReach(
    assets: map<AssetId, Asset>, links: seq<Link>, root: AssetId, depth: nat, canView: AssetId -> bool)
  {
    exists id :: id in assets && !canView(id) && WithinHops(links, root, id, depth)
  }

  lemma HiddenShownIff(
    assets: map<AssetId, Asset>, links: seq<Link>, root: AssetId, depth: nat, nodes: seq<Asset>,
    canView: AssetId -> bool)
    requires forall id :: id in assets ==> assets[id].id == id
    requires forall a :: a in nodes <==> a.id in assets && assets[a.id] == a && WithinHops(links, root, a.id, depth)
    ensures ShowsHidden(canView, nodes) <==> HiddenInReach(assets, links, root, depth, canView)
  {
    if HiddenInReach(assets, links, root, depth, canView) {
      var id :| id in assets && !canView(id) && WithinHops(links, root, id, depth);
      assert assets[id] in nodes && !canView(assets[id].id);
    }
  }

  // One link from a visible asset to a hidden one is enough.
  lemma HiddenNeighbourIsInReach(root: AssetId, other: AssetId, link: Link, assets: map<AssetId, Asset>)
    requires link.src == root && link.dst == other && root != other && root in assets && other in assets
    ensures HiddenInReach(assets, [link], root, 1, (id: AssetId) => id == root)
  {
    assert Linked([link], root, other);
    assert Walk([link], root, root, 0);
    assert Walk([link], root, other, 1);
  }

  lemma NodesInHops(assets: map<AssetId, Asset>, links: seq<Link>, root: AssetId, depth: nat, nodes: seq<Asset>)
    requires NodesAre(assets, nodes, Ball(links, root, depth))
    ensures forall a :: a in nodes <==> a.id in assets && assets[a.id] == a && WithinHops(links, root, a.id, depth)
  {
    forall a ensures a in nodes <==> a.id in assets && assets[a.id] == a && WithinHops(links, root, a.id, depth) {
      BallIsWithinHops(links, root, a.id, depth);
    }
  }

  lemma EdgesInHops(links: seq<Link>, root: AssetId, depth: nat, edges: seq<Edge>)
    requires EdgesAre(edges, Incident(links, Inner(links, root, depth)))
    ensures forall e :: e in edges <==> EdgeInHops(links, root, depth, e)
  {
    hide Ball, WithinHops;
    if depth > 0 {
      forall l | l in links ensures LinkWithin(links, root, l, depth - 1) <==>
        l.src in Ball(links, root, depth - 1) || l.dst in Ball(links, root, depth - 1)
      {
        BallIsWithinHops(links, root, l.src, depth - 1);
        BallIsWithinHops(links, root, l.dst, depth - 1);
      }
    }
  }

  /** Both ends of every listed edge were visited. */
  lemma EdgeEndsAreVisited(links: seq<Link>, root: AssetId, depth: nat, e: Edge)
    requires EdgeInHops(links, root, depth, e)
    ensures WithinHops(links, root, e.src, depth) && WithinHops(links, root, e.dst, depth)
  {
    var l :| l in links && Joins(l, e) && LinkWithin(links, root, l, depth - 1);
    var near, far := l.src, l.dst;
    if !WithinHops(links, root, near, depth - 1) {
      near, far := l.dst, l.src;
    }
    BallIsWithinHops(links, root, near, depth - 1);
    assert Linked(links, near, far);
    NeighboursAreLinked(links, Ball(links, root, depth - 1), far);
    BallIsWithinHops(links, root, near, depth);
    BallIsWithinHops(links, root, far, depth);
  }

  /** A deeper walk only adds: every node and edge of a shallower one stays. */
  lemma DeeperKeeps(links: seq<Link>, root: AssetId, x: AssetId, e: Edge, d: nat, deeper: nat)
    requires d <= deeper
    ensures WithinHops(links, root, x, d) ==> WithinHops(links, root, x, deeper)
    ensures EdgeInHops(links, root, d, e) ==> EdgeInHops(links, root, deeper, e)
  {
    if EdgeInHops(links, root, d, e) {
      var l :| l in links && Joins(l, e) && LinkWithin(links, root, l, d - 1);
      assert LinkWithin(links, root, l, deeper - 1);
    }
  }
}
