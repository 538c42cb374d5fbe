/** The same snapshot is always drawn the same way (grapharc/observe/layout.py). */
module SameLayout {
  import opened Options
  import opened Digraph
  import opened Seqs
  import opened Geometry
  import opened Scope
  import opened Placement
  import opened Layout

  // ---- One scope -----------------------------------------------------------------------

  /** Two drawings of one scope: same nodes and edges by id, same sizes, whatever else differs. */
  ghost predicate SameTopology(nodes: seq<NodeView>, edges: seq<EdgeView>, nodes': seq<NodeView>, edges': seq<EdgeView>) {
    Ids(nodes) == Ids(nodes') && Arrows(edges) == Arrows(edges') && SizesOf(nodes) == SizesOf(nodes')
  }

  /** Scopes with the same ids, sizes and edges are drawn alike: every node stands in the same place and every
      edge takes the same route. */
  lemma SameTopologySameGeometry(nodes: seq<NodeView>, edges: seq<EdgeView>, plan: Plan,
                                 nodes': seq<NodeView>, edges': seq<EdgeView>, plan': Plan, dx: real, dy: real)
    requires SameTopology(nodes, edges, nodes', edges')
    requires ScopeLaid(nodes, edges, plan, dx, dy) && ScopeLaid(nodes', edges', plan', dx, dy)
    ensures plan == plan'
    ensures forall k :: 0 <= k < |nodes| ==> nodes[k].Shape() == nodes'[k].Shape()
    ensures forall k :: 0 <= k < |edges| && edges[k].source in Ids(nodes) && edges[k].target in Ids(nodes) ==>
      edges[k].points == edges'[k].points
  {
    hide ScopeLaid, SameTopology;
    SamePlan(nodes, edges, plan, nodes', edges', plan', dx, dy);
    forall k | 0 <= k < |nodes| ensures nodes[k].Shape() == nodes'[k].Shape() {
      SameShape(nodes, edges, nodes', edges', plan, dx, dy, k);
    }
    forall k | 0 <= k < |edges| && edges[k].source in Ids(nodes) && edges[k].target in Ids(nodes)
      ensures edges[k].points == edges'[k].points
    {
      SameRoute(nodes, edges, nodes', edges', plan, dx, dy, k);
    }
  }

  lemma SamePlan(nodes: seq<NodeView>, edges: seq<EdgeView>, plan: Plan,
                 nodes': seq<NodeView>, edges': seq<EdgeView>, plan': Plan, dx: real, dy: real)
    requires SameTopology(nodes, edges, nodes', edges')
    requires ScopeLaid(nodes, edges, plan, dx, dy) && ScopeLaid(nodes', edges', plan', dx, dy)
    ensures plan == plan' && |nodes| == |nodes'| && |edges| == |edges'|
  {
    hide IsPlan, Located, Distinct, NodesLaid, EdgesLaid;
    PlanIsDetermined(Ids(nodes), Pairs(nodes, edges), plan, plan');
    assert |Ids(nodes)| == |nodes| && |Arrows(edges)| == |edges|;
  }

  /** Nodes with the same id stand in the same place in scopes of the same topology. */
  lemma SameShapeById(nodes: seq<NodeView>, edges: seq<EdgeView>, nodes': seq<NodeView>, edges': seq<EdgeView>,
                      plan: Plan, dx: real, dy: real, n: NodeView, n': NodeView)
    requires SameTopology(nodes, edges, nodes', edges') && n in nodes && n' in nodes' && n.id == n'.id
    requires ScopeLaid(nodes, edges, plan, dx, dy) && ScopeLaid(nodes', edges', plan, dx, dy)
    ensures n.Shape() == n'.Shape()
  {
    hide IsPlan, Located, Distinct, EdgesLaid, ShiftBox, BoxFor;
  }

  lemma SameShape(nodes: seq<NodeView>, edges: seq<EdgeView>, nodes': seq<NodeView>, edges': seq<EdgeView>,
                  plan: Plan, dx: real, dy: real, k: nat)
    requires SameTopology(nodes, edges, nodes', edges') && k < |nodes|
    requires ScopeLaid(nodes, edges, plan, dx, dy) && ScopeLaid(nodes', edges', plan, dx, dy)
    ensures k < |nodes'| && nodes[k].Shape() == nodes'[k].Shape()
  {
    hide ScopeLaid;
    assert |Ids(nodes)| == |nodes| && Ids(nodes)[k] == Ids(nodes')[k];
    assert nodes[k] in nodes && nodes'[k] in nodes';
    SameShapeById(nodes, edges, nodes', edges', plan, dx, dy, nodes[k], nodes'[k]);
  }

  lemma SameRoute(nodes: seq<NodeView>, edges: seq<EdgeView>, nodes': seq<NodeView>, edges': seq<EdgeView>,
                  plan: Plan, dx: real, dy: real, k: nat)
    requires SameTopology(nodes, edges, nodes', edges') && k < |edges|
    requires edges[k].source in Ids(nodes) && edges[k].target in Ids(nodes)
    requires ScopeLaid(nodes, edges, plan, dx, dy) && ScopeLaid(nodes', edges', plan, dx, dy)
    ensures k < |edges'| && edges[k].points == edges'[k].points
  {
    hide ScopeLaid;
    assert |Arrows(edges)| == |edges| && Arrows(edges)[k] == Arrows(edges')[k];
    assert edges[k] in edges && edges'[k] in edges';
    SameRouteByEnds(nodes, edges, nodes', edges', plan, dx, dy, edges[k], edges'[k]);
  }

  // ---- A whole snapshot ----------------------------------------------------------------

  /** The same id, cluster and size. */
  function NodesAlike(): (NodeView, NodeView) -> bool {
    (n: NodeView, n': NodeView) => n.id == n'.id && n.cluster == n'.cluster && SizeOf(n) == SizeOf(n')
  }

  ghost predicate SameNodes(nodes: seq<NodeView>, nodes': seq<NodeView>) {
    Alike(NodesAlike(), nodes, nodes')
  }

  /** The same ends and kind. */
  function EdgesAlike(): (EdgeView, EdgeView) -> bool {
    (e: EdgeView, e': EdgeView) => e.source == e'.source && e.target == e'.target && e.kind == e'.kind
  }

  ghost predicate SameEdges(edges: seq<EdgeView>, edges': seq<EdgeView>) {
    Alike(EdgesAlike(), edges, edges')
  }

  lemma {:induction false} SameNodesSameSizes(nodes: seq<NodeView>, nodes': seq<NodeView>)
    requires SameNodes(nodes, nodes')
    ensures Ids(nodes) == Ids(nodes') && SizesOf(nodes) == SizesOf(nodes')
  {
    if nodes != [] {
      var n := |nodes| - 1;
      SameNodesSameSizes(nodes[..n], nodes'[..n]);
    }
  }

  lemma SameEdgesSameArrows(edges: seq<EdgeView>, edges': seq<EdgeView>)
    requires SameEdges(edges, edges')
    ensures Arrows(edges) == Arrows(edges')
  {
  }

  lemma SameMembers(nodes: seq<NodeView>, nodes': seq<NodeView>, cluster: Id)
    requires SameNodes(nodes, nodes')
    ensures SameNodes(Members(nodes, cluster), Members(nodes', cluster))
  {
    hide SizeOf;
    FilterAlike(InCluster(cluster), NodesAlike(), nodes, nodes');
  }

  lemma SameScoped(edges: seq<EdgeView>, edges': seq<EdgeView>, ids: seq<Id>)
    requires SameEdges(edges, edges')
    ensures SameEdges(Scoped(edges, ids), Scoped(edges', ids))
  {
    FilterAlike(InScope(ids), EdgesAlike(), edges, edges');
  }

  /** The scope of a cluster has the same topology in both snapshots. */
  lemma SameClusterTopology(nodes: seq<NodeView>, edges: seq<EdgeView>, nodes': seq<NodeView>, edges': seq<EdgeView>, cluster: Id)
    requires SameNodes(nodes, nodes') && SameEdges(edges, edges')
    ensures SameTopology(Members(nodes, cluster), ScopedEdges(nodes, edges, cluster),
                         Members(nodes', cluster), ScopedEdges(nodes', edges', cluster))
  {
    hide Members, Scoped, SameNodes, SameEdges;
    SameMembers(nodes, nodes', cluster);
    SameNodesSameSizes(Members(nodes, cluster), Members(nodes', cluster));
    SameScoped(edges, edges', Ids(Members(nodes, cluster)));
    SameEdgesSameArrows(ScopedEdges(nodes, edges, cluster), ScopedEdges(nodes', edges', cluster));
  }

  // ---- Frames and canvas ---------------------------------------------------------------

  ghost predicate StackedFromTop(frames: seq<Box>) {
    forall j :: 0 <= j < |frames| ==> frames[j].x == MARGIN && frames[j].y == Top(frames, j)
  }

  /** Stacks of frames of the same sizes are the same stack. */
  lemma {:induction false} SameStack(frames: seq<Box>, frames': seq<Box>, n: nat)
    requires StackedFromTop(frames) && StackedFromTop(frames') && n <= |frames| == |frames'|
    requires forall j :: 0 <= j < n ==> frames[j].w == frames'[j].w && frames[j].h == frames'[j].h
    ensures forall j :: 0 <= j < n ==> frames[j] == frames'[j]
    ensures Top(frames, n) == Top(frames', n)
  {
    if n > 0 {
      SameStack(frames, frames', n - 1);
    }
  }

  lemma SameWidest(frames: seq<Box>, width: real, width': real)
    requires IsWidest(frames, width) && IsWidest(frames, width')
    ensures width == width'
  {
  }

  /** Two drawings of one cluster have the same plan and the same size. */
  lemma SameClusterSize(nodes: seq<NodeView>, edges: seq<EdgeView>, c: ClusterView, plan: Plan,
                        nodes': seq<NodeView>, edges': seq<EdgeView>, c': ClusterView, plan': Plan)
    requires SameNodes(nodes, nodes') && SameEdges(edges, edges') && c.id == c'.id
    requires ClusterDrawn(nodes, edges, c, plan) && ClusterDrawn(nodes', edges', c', plan')
    ensures plan == plan' && c.w == c'.w && c.h == c'.h
  {
    hide SameNodes, SameEdges, Members, ScopedEdges, IsPlan, NodesLaid, EdgesLaid, NodesDrawn, EdgesDrawn, Located, Distinct;
    SameClusterTopology(nodes, edges, nodes', edges', c.id);
    PlanIsDetermined(Ids(Members(nodes, c.id)), Pairs(Members(nodes, c.id), ScopedEdges(nodes, edges, c.id)), plan, plan');
  }

  lemma SameLength(clusters: seq<ClusterView>, clusters': seq<ClusterView>)
    requires ClusterIds(clusters) == ClusterIds(clusters')
    ensures |clusters| == |clusters'|
  {
    assert |ClusterIds(clusters)| == |clusters|;
  }

  lemma SameClusterId(clusters: seq<ClusterView>, clusters': seq<ClusterView>, j: nat)
    requires ClusterIds(clusters) == ClusterIds(clusters') && j < |clusters| == |clusters'|
    ensures clusters[j].id == clusters'[j].id
  {
    assert ClusterIds(clusters)[j] == ClusterIds(clusters')[j];
  }

  /** Clusters of the same sizes, stacked, have the same frames and need the same canvas. */
  lemma SameCanvas(clusters: seq<ClusterView>, width: real, height: real, clusters': seq<ClusterView>, width': real, height': real)
    requires |clusters| == |clusters'| && CanvasFits(clusters, width, height) && CanvasFits(clusters', width', height')
    requires forall j :: 0 <= j < |clusters| ==> clusters[j].w == clusters'[j].w && clusters[j].h == clusters'[j].h
    ensures width == width' && height == height'
    ensures forall j :: 0 <= j < |clusters| ==> clusters[j].Frame() == clusters'[j].Frame()
  {
    hide Stacked;
    var frames: seq<Box> :| |frames| == |clusters| && HasFrames(clusters, frames)
                  && Stacked(frames, height + CLUSTER_GAP - MARGIN, width - 2.0 * MARGIN - 56.0);
    var frames': seq<Box> :| |frames'| == |clusters'| && HasFrames(clusters', frames')
                   && Stacked(frames', height' + CLUSTER_GAP - MARGIN, width' - 2.0 * MARGIN - 56.0);
    SameFrameStack(frames, height + CLUSTER_GAP - MARGIN, width - 2.0 * MARGIN - 56.0,
                   frames', height' + CLUSTER_GAP - MARGIN, width' - 2.0 * MARGIN - 56.0);
  }

  lemma SameFrameStack(frames: seq<Box>, bottom: real, width: real, frames': seq<Box>, bottom': real, width': real)
    requires Stacked(frames, bottom, width) && Stacked(frames', bottom', width') && |frames| == |frames'|
    requires forall j :: 0 <= j < |frames| ==> frames[j].w == frames'[j].w && frames[j].h == frames'[j].h
    ensures frames == frames' && bottom == bottom' && width == width'
  {
    hide IsWidest, Top;
    SameStack(frames, frames', |frames|);
    assert frames == frames';
    SameWidest(frames, width, width');
  }

  // ---- What stands in the frames -------------------------------------------------------

  lemma SameMemberShape(nodes: seq<NodeView>, edges: seq<EdgeView>, c: ClusterView, plan: Plan,
                        nodes': seq<NodeView>, edges': seq<EdgeView>, c': ClusterView, k: nat)
    requires SameNodes(nodes, nodes') && SameEdges(edges, edges') && c.id == c'.id && c.Frame() == c'.Frame()
    requires ClusterDrawn(nodes, edges, c, plan) && ClusterDrawn(nodes', edges', c', plan)
    requires k < |nodes| && nodes[k].cluster == Some(c.id)
    ensures k < |nodes'| && nodes[k].Shape() == nodes'[k].Shape()
  {
    hide SameNodes, SameEdges, SameTopology, ScopeLaid, ClusterDrawn, ScopedEdges, Members;
    MemberAlike(nodes, nodes', c.id, k);
    SameClusterTopology(nodes, edges, nodes', edges', c.id);
    DrawnScope(nodes, edges, c, plan);
    DrawnScope(nodes', edges', c', plan);
    SameShapeById(Members(nodes, c.id), ScopedEdges(nodes, edges, c.id), Members(nodes', c.id), ScopedEdges(nodes', edges', c.id),
                  plan, Inner(c).x, Inner(c).y, nodes[k], nodes'[k]);
  }

  lemma MemberAlike(nodes: seq<NodeView>, nodes': seq<NodeView>, cluster: Id, k: nat)
    requires SameNodes(nodes, nodes') && k < |nodes| && nodes[k].cluster == Some(cluster)
    ensures k < |nodes'| && nodes[k] in Members(nodes, cluster) && nodes'[k] in Members(nodes', cluster)
    ensures nodes[k].id == nodes'[k].id
  {
    hide SizeOf;
    assert InCluster(cluster)(nodes[k]) && InCluster(cluster)(nodes'[k]);
    assert nodes[k] in nodes && nodes'[k] in nodes';
  }

  lemma SameScopedRoute(nodes: seq<NodeView>, edges: seq<EdgeView>, c: ClusterView, plan: Plan,
                        nodes': seq<NodeView>, edges': seq<EdgeView>, c': ClusterView, k: nat)
    requires SameNodes(nodes, nodes') && SameEdges(edges, edges') && c.id == c'.id && c.Frame() == c'.Frame()
    requires ClusterDrawn(nodes, edges, c, plan) && ClusterDrawn(nodes', edges', c', plan)
    requires k < |edges| && edges[k] in ScopedEdges(nodes, edges, c.id)
    ensures k < |edges'| && edges[k].points == edges'[k].points
  {
    hide SameNodes, SameEdges, SameTopology, ScopeLaid, ClusterDrawn, ScopedEdges, Members, Ids;
    ScopedAlike(nodes, edges, nodes', edges', c.id, k);
    SameClusterTopology(nodes, edges, nodes', edges', c.id);
    DrawnScope(nodes, edges, c, plan);
    DrawnScope(nodes', edges', c', plan);
    SameRouteByEnds(Members(nodes, c.id), ScopedEdges(nodes, edges, c.id), Members(nodes', c.id), ScopedEdges(nodes', edges', c.id),
                    plan, Inner(c).x, Inner(c).y, edges[k], edges'[k]);
  }

  lemma DrawnScope(nodes: seq<NodeView>, edges: seq<EdgeView>, c: ClusterView, plan: Plan)
    requires ClusterDrawn(nodes, edges, c, plan)
    ensures ScopeLaid(Members(nodes, c.id), ScopedEdges(nodes, edges, c.id), plan, Inner(c).x, Inner(c).y)
  {
  }

  lemma ScopedAlike(nodes: seq<NodeView>, edges: seq<EdgeView>, nodes': seq<NodeView>, edges': seq<EdgeView>, cluster: Id, k: nat)
    requires SameNodes(nodes, nodes') && SameEdges(edges, edges')
    requires k < |edges| && edges[k] in ScopedEdges(nodes, edges, cluster)
    ensures k < |edges'| && edges'[k] in ScopedEdges(nodes', edges', cluster)
    ensures edges[k].source == edges'[k].source && edges[k].target == edges'[k].target
    ensures edges[k].source in Ids(Members(nodes, cluster)) && edges[k].target in Ids(Members(nodes, cluster))
  {
    hide Members, SameNodes;
    SameMembers(nodes, nodes', cluster);
    SameNodesSameSizes(Members(nodes, cluster), Members(nodes', cluster));
    assert edges'[k] in edges';
  }

  /** Edges with the same ends take the same route in scopes of the same topology. */
  lemma SameRouteByEnds(nodes: seq<NodeView>, edges: seq<EdgeView>, nodes': seq<NodeView>, edges': seq<EdgeView>,
                        plan: Plan, dx: real, dy: real, e: EdgeView, e': EdgeView)
    requires SameTopology(nodes, edges, nodes', edges') && e in edges && e' in edges'
    requires e.source == e'.source && e.target == e'.target && e.source in Ids(nodes) && e.target in Ids(nodes)
    requires ScopeLaid(nodes, edges, plan, dx, dy) && ScopeLaid(nodes', edges', plan, dx, dy)
    ensures e.points == e'.points
  {
    hide IsPlan, Located, Distinct, NodesLaid, EdgePoints;
  }

  lemma SameStateRoute(clusters: seq<ClusterView>, clusters': seq<ClusterView>, e: EdgeView, e': EdgeView, i: nat, j: nat)
    requires ClusterIds(clusters) == ClusterIds(clusters') && i < |clusters| == |clusters'| && j < |clusters|
    requires forall j :: 0 <= j < |clusters| ==> clusters[j].Frame() == clusters'[j].Frame()
    requires StateEdgeDrawn(clusters, e) && StateEdgeDrawn(clusters', e')
    requires e.source == e'.source == clusters[i].id && e.target == e'.target == clusters[j].id
    ensures e.points == e'.points
  {
    SameClusterId(clusters, clusters', i);
    SameClusterId(clusters, clusters', j);
    assert clusters[i] in clusters && clusters[j] in clusters && clusters'[i] in clusters' && clusters'[j] in clusters';
    assert LinksFrames(e.points, clusters[i].Frame(), clusters[j].Frame());
    assert LinksFrames(e'.points, clusters'[i].Frame(), clusters'[j].Frame());
  }

  // ---- Two snapshots -------------------------------------------------------------------

  /** The same ids, sizes, edges with kinds, and clusters; statuses and all else may differ. */
  ghost predicate SameSnapshot(g: GraphSnapshot, g': GraphSnapshot) {
    SameNodes(g.nodes, g'.nodes) && SameEdges(g.edges, g'.edges) && ClusterIds(g.clusters) == ClusterIds(g'.clusters)
  }

  /** No object of one snapshot is part of the other. */
  ghost predicate Separate(g: GraphSnapshot, g': GraphSnapshot) {
    && g != g'
    && (forall n :: n in g.nodes ==> n !in g'.nodes)
    && (forall e :: e in g.edges ==> e !in g'.edges)
    && (forall c :: c in g.clusters ==> c !in g'.clusters)
  }

  /** Every node the layout places stands in the same place. */
  ghost predicate SameBoxes(g: GraphSnapshot, g': GraphSnapshot)
    requires |g.nodes| == |g'.nodes|
    reads g.nodes, g'.nodes
  {
    forall k :: 0 <= k < |g.nodes| && (g.clusters == [] || !Loose(g.clusters, g.nodes[k])) ==>
      g.nodes[k].Shape() == g'.nodes[k].Shape()
  }

  /** The edge joins nodes of one scope, or, as a state edge, two frames. */
  ghost predicate IsRouted(g: GraphSnapshot, e: EdgeView) {
    if g.clusters == [] then e.source in Ids(g.nodes) && e.target in Ids(g.nodes)
    else if e.kind == State then e.source in ClusterIds(g.clusters) && e.target in ClusterIds(g.clusters)
    else !Stray(g.nodes, g.edges, g.clusters, e)
  }

  /** Every edge the layout routes takes the same route. */
  ghost predicate SameRoutes(g: GraphSnapshot, g': GraphSnapshot)
    requires |g.edges| == |g'.edges|
    reads g.edges, g'.edges
  {
    forall k :: 0 <= k < |g.edges| && IsRouted(g, g.edges[k]) ==> g.edges[k].points == g'.edges[k].points
  }

  ghost predicate SameFrameBoxes(g: GraphSnapshot, g': GraphSnapshot)
    requires |g.clusters| == |g'.clusters|
    reads g.clusters, g'.clusters
  {
    forall j :: 0 <= j < |g.clusters| ==> g.clusters[j].Frame() == g'.clusters[j].Frame()
  }

  /** Their frames and the canvas are the same. */
  lemma SameFrames(g: GraphSnapshot, plans: seq<Plan>, g': GraphSnapshot, plans': seq<Plan>)
    requires SameSnapshot(g, g') && |plans| == |g.clusters| && |plans'| == |g'.clusters|
    requires CanvasFits(g.clusters, g.width, g.height) && CanvasFits(g'.clusters, g'.width, g'.height)
    requires forall j :: 0 <= j < |plans| ==> ClusterDrawn(g.nodes, g.edges, g.clusters[j], plans[j])
    requires forall j :: 0 <= j < |plans'| ==> ClusterDrawn(g'.nodes, g'.edges, g'.clusters[j], plans'[j])
    ensures plans == plans' && g.width == g'.width && g.height == g'.height
    ensures |g.clusters| == |g'.clusters| && SameFrameBoxes(g, g')
  {
    hide SameNodes, SameEdges, ClusterDrawn, CanvasFits, ClusterIds;
    SameLength(g.clusters, g'.clusters);
    forall j | 0 <= j < |g.clusters|
      ensures plans[j] == plans'[j] && g.clusters[j].w == g'.clusters[j].w && g.clusters[j].h == g'.clusters[j].h
    {
      SameClusterId(g.clusters, g'.clusters, j);
      SameClusterSize(g.nodes, g.edges, g.clusters[j], plans[j], g'.nodes, g'.edges, g'.clusters[j], plans'[j]);
    }
    SameCanvas(g.clusters, g.width, g.height, g'.clusters, g'.width, g'.height);
  }

  lemma SameSingle(g: GraphSnapshot, plan: Plan, g': GraphSnapshot, plan': Plan)
    requires SameSnapshot(g, g') && g.clusters == [] == g'.clusters
    requires ScopeLaid(g.nodes, g.edges, plan, MARGIN, MARGIN) && ScopeLaid(g'.nodes, g'.edges, plan', MARGIN, MARGIN)
    requires BlockIs(g.nodes, plan, g.width - 2.0 * MARGIN - 56.0, g.height - 2.0 * MARGIN)
    requires BlockIs(g'.nodes, plan', g'.width - 2.0 * MARGIN - 56.0, g'.height - 2.0 * MARGIN)
    ensures g.width == g'.width && g.height == g'.height && SameBoxes(g, g') && SameRoutes(g, g')
  {
    hide SameNodes, SameEdges, ScopeLaid;
    SameNodesSameSizes(g.nodes, g'.nodes);
    SameEdgesSameArrows(g.edges, g'.edges);
    assert SameTopology(g.nodes, g.edges, g'.nodes, g'.edges);
    SameTopologySameGeometry(g.nodes, g.edges, plan, g'.nodes, g'.edges, plan', MARGIN, MARGIN);
  }

  lemma SameClusters(g: GraphSnapshot, plans: seq<Plan>, g': GraphSnapshot, plans': seq<Plan>)
    requires SameSnapshot(g, g') && g.clusters != [] && |plans| == |g.clusters| && |plans'| == |g'.clusters|
    requires CanvasFits(g.clusters, g.width, g.height) && CanvasFits(g'.clusters, g'.width, g'.height)
    requires forall j :: 0 <= j < |plans| ==> ClusterDrawn(g.nodes, g.edges, g.clusters[j], plans[j])
    requires forall j :: 0 <= j < |plans'| ==> ClusterDrawn(g'.nodes, g'.edges, g'.clusters[j], plans'[j])
    requires forall e :: e in g.edges && e.kind == State ==> StateEdgeDrawn(g.clusters, e)
    requires forall e :: e in g'.edges && e.kind == State ==> StateEdgeDrawn(g'.clusters, e)
    ensures |g.nodes| == |g'.nodes| && |g.edges| == |g'.edges| && |g.clusters| == |g'.clusters|
    ensures g.width == g'.width && g.height == g'.height
    ensures SameFrameBoxes(g, g') && SameBoxes(g, g') && SameRoutes(g, g')
  {
    hide ClusterDrawn, CanvasFits, StateEdgeDrawn, ScopedSet, ScopedEdges, Members, SizeOf;
    SameFrames(g, plans, g', plans');
    forall k | 0 <= k < |g.nodes| && !Loose(g.clusters, g.nodes[k]) ensures g.nodes[k].Shape() == g'.nodes[k].Shape() {
      var j :| 0 <= j < |g.clusters| && g.nodes[k].cluster == Some(g.clusters[j].id);
      SameClusterId(g.clusters, g'.clusters, j);
      SameMemberShape(g.nodes, g.edges, g.clusters[j], plans[j], g'.nodes, g'.edges, g'.clusters[j], k);
    }
    forall k | 0 <= k < |g.edges| && IsRouted(g, g.edges[k]) ensures g.edges[k].points == g'.edges[k].points {
      SameClusterRoute(g, plans, g', k);
    }
  }

  lemma SameClusterRoute(g: GraphSnapshot, plans: seq<Plan>, g': GraphSnapshot, k: nat)
    requires SameSnapshot(g, g') && g.clusters != [] && |plans| == |g.clusters| == |g'.clusters|
    requires SameFrameBoxes(g, g')
    requires forall j :: 0 <= j < |plans| ==> ClusterDrawn(g.nodes, g.edges, g.clusters[j], plans[j])
    requires forall j :: 0 <= j < |plans| ==> ClusterDrawn(g'.nodes, g'.edges, g'.clusters[j], plans[j])
    requires forall e :: e in g.edges && e.kind == State ==> StateEdgeDrawn(g.clusters, e)
    requires forall e :: e in g'.edges && e.kind == State ==> StateEdgeDrawn(g'.clusters, e)
    requires k < |g.edges| && IsRouted(g, g.edges[k])
    ensures k < |g'.edges| && g.edges[k].points == g'.edges[k].points
  {
    hide ClusterDrawn, StateEdgeDrawn, ScopedEdges, SizeOf;
    var e, e' := g.edges[k], g'.edges[k];
    assert e in g.edges && e' in g'.edges;
    if e.kind == State {
      var i :| 0 <= i < |g.clusters| && g.clusters[i].id == e.source;
      var j :| 0 <= j < |g.clusters| && g.clusters[j].id == e.target;
      SameStateRoute(g.clusters, g'.clusters, e, e', i, j);
    } else {
      var c :| c in g.clusters && e in ScopedSet(g.nodes, g.edges, c.id);
      var j :| 0 <= j < |g.clusters| && g.clusters[j] == c;
      SameClusterId(g.clusters, g'.clusters, j);
      SameScopedRoute(g.nodes, g.edges, c, plans[j], g'.nodes, g'.edges, g'.clusters[j], k);
    }
  }

  /** Snapshots of the same topology end with identical geometry: boxes, routes, frames and canvas. */
  method LayoutBoth(g: GraphSnapshot, g': GraphSnapshot)
    requires g.Valid() && g'.Valid() && SameSnapshot(g, g') && Separate(g, g')
    modifies g, g.nodes, g.edges, g.clusters, g', g'.nodes, g'.edges, g'.clusters
    ensures |g.nodes| == |g'.nodes| && |g.edges| == |g'.edges| && |g.clusters| == |g'.clusters|
    ensures g.width == g'.width && g.height == g'.height
    ensures g.nodes != [] ==> SameFrameBoxes(g, g') && SameBoxes(g, g') && SameRoutes(g, g')
  {
    hide Distinct, ClusterDrawn, CanvasFits, FramesOnCanvas, StateEdgeDrawn, ScopeLaid, BlockIs, ScopeOnCanvas, NodesDrawn, EdgesDrawn;
    hide OnCanvas, JoinsFrames, Loose, Stray, SameFrameBoxes, SameBoxes, SameRoutes, SameNodes, SameEdges;
    SameCounts(g, g');
    ghost var plans := LayoutGraph(g);
    label first:
    ghost var plans' := LayoutGraph(g');
    assert unchanged@first(g) && unchanged@first(set n | n in g.nodes) && unchanged@first(set e | e in g.edges);
    assert unchanged@first(set c | c in g.clusters);
    if g.nodes != [] && g.clusters == [] {
      SameSingle(g, plans[0], g', plans'[0]);
      NoFrameToCompare(g, g');
    } else if g.nodes != [] {
      forall j | 0 <= j < |plans| ensures ClusterDrawn(g.nodes, g.edges, g.clusters[j], plans[j]) {
        PartsOf(g.nodes, g.edges, g.clusters[j].id);
        assert g.clusters[j] in g.clusters;
        assert unchanged@first(g.clusters[j]);
        assert unchanged@first(MemberSet(g.nodes, g.clusters[j].id));
        assert unchanged@first(ScopedSet(g.nodes, g.edges, g.clusters[j].id));
        assert old@first(ClusterDrawn(g.nodes, g.edges, g.clusters[j], plans[j]));
      }
      SameClusters(g, plans, g', plans');
    }
  }

  lemma SameCounts(g: GraphSnapshot, g': GraphSnapshot)
    requires SameSnapshot(g, g')
    ensures |g.nodes| == |g'.nodes| && |g.edges| == |g'.edges| && |g.clusters| == |g'.clusters|
  {
    SameLength(g.clusters, g'.clusters);
  }

  lemma NoFrameToCompare(g: GraphSnapshot, g': GraphSnapshot)
    requires g.clusters == [] == g'.clusters
    ensures SameFrameBoxes(g, g')
  {
  }
}
