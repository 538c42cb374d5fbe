/** The whole snapshot: one scope, or clusters stacked in frames (grapharc/observe/layout.py). */
module Layout {
  import opened Options
  import opened Digraph
  import opened Seqs
  import opened Geometry
  import opened Scope
  import opened Placement

  class ClusterView {
    const id: Id
    var x: real
    var y: real
    var w: real
    var h: real

    constructor (id: Id)
      ensures this.id == id
    {
      this.id := id;
      x, y, w, h := 0.0, 0.0, 0.0, 0.0;
    }

    ghost function Frame(): Box
      reads this
    {
      Box(x, y, w, h)
    }
  }

  class GraphSnapshot {
    const nodes: seq<NodeView>
    const edges: seq<EdgeView>
    const clusters: seq<ClusterView>
    var width: real
    var height: real

    constructor (nodes: seq<NodeView>, edges: seq<EdgeView>, clusters: seq<ClusterView>)
      ensures this.nodes == nodes && this.edges == edges && this.clusters == clusters
    {
      this.nodes, this.edges, this.clusters := nodes, edges, clusters;
      width, height := 0.0, 0.0;
    }

    /** Ids are unique and no edge object is listed twice, as the snapshot builder makes them. */
    ghost predicate Valid() {
      && Distinct(Ids(nodes))
      && Distinct(edges)
      && Distinct(ClusterIds(clusters))
    }
  }

  function ClusterIds(clusters: seq<ClusterView>): seq<Id> {
    seq(|clusters|, i requires 0 <= i < |clusters| => clusters[i].id)
  }

  // ---- What a reader of the picture can rely on ----------------------------------------

  ghost predicate InFrame(b: Box, frame: Box) {
    && frame.x <= b.x && b.x + b.w <= frame.x + frame.w
    && frame.y <= b.y && b.y + b.h <= frame.y + frame.h
  }

  ghost predicate NearFrame(points: seq<Point>, frame: Box) {
    forall p :: p in points ==>
      frame.x <= p.x <= frame.x + frame.w + 48.0 && frame.y - 8.0 <= p.y <= frame.y + frame.h + 8.0
  }

  ghost predicate NodesDrawn(nodes: seq<NodeView>, frame: Box)
    reads nodes
  {
    && (forall a, b :: a in nodes && b in nodes && a != b ==> Apart(a.Shape(), b.Shape()))
    && (forall n :: n in nodes ==> InFrame(n.Shape(), frame))
  }

  /** At least 48 to the right of every node. */
  ghost predicate RightOf(x: real, nodes: seq<NodeView>)
    reads nodes
  {
    forall n :: n in nodes ==> n.x + n.w + 48.0 <= x
  }

  /** Edges between `nodes` stay near the frame. A self-loop bulges out of its node, every other back edge
      runs from its source around the right of all nodes to its target, and all others run down. */
  ghost predicate EdgesDrawn(nodes: seq<NodeView>, edges: seq<EdgeView>, back: set<Arrow>, frame: Box)
    reads nodes, edges
  {
    forall e, s, t :: e in edges && s in nodes && t in nodes && s.id == e.source && t.id == e.target ==>
      && NearFrame(e.points, frame)
      && (e.source == e.target ==> Bulges(e.points, s.Shape()))
      && (e.source != e.target && Arrow(e.source, e.target) in back ==>
            ArcsBack(e.points, s.Shape(), t.Shape()) && RightOf(e.points[1].x, nodes))
      && (Arrow(e.source, e.target) !in back ==> RunsDown(e.points, s.Shape(), t.Shape()))
  }

  lemma LaidNodesAreDrawn(nodes: seq<NodeView>, edges: seq<EdgeView>, plan: Plan, dx: real, dy: real)
    requires ScopePlan(nodes, edges, plan) && NodesLaid(nodes, edges, plan, dx, dy) && Sized(plan.rows, SizesOf(nodes))
    ensures NodesDrawn(nodes, Box(dx, dy, BlockWidth(plan.rows, SizesOf(nodes)), BlockHeight(plan.rows, SizesOf(nodes))))
  {
    hide IsPlan, Located, Sized;
    var size := SizesOf(nodes);
    forall a, b | a in nodes && b in nodes && a != b ensures Apart(a.Shape(), b.Shape()) {
      ByIdNode(nodes, a);
      ByIdNode(nodes, b);
      BoxesForApart(plan, size, a.id, b.id);
      ShiftApart(BoxFor(plan, size, a.id), BoxFor(plan, size, b.id), dx, dy);
    }
    forall n | n in nodes
      ensures InFrame(n.Shape(), Box(dx, dy, BlockWidth(plan.rows, size), BlockHeight(plan.rows, size)))
    {
      BoxForInside(plan, size, n.id);
    }
  }

  lemma ShiftApart(a: Box, b: Box, dx: real, dy: real)
    requires Apart(a, b)
    ensures Apart(ShiftBox(a, dx, dy), ShiftBox(b, dx, dy))
  {
  }

  lemma LaidEdgesAreDrawn(nodes: seq<NodeView>, edges: seq<EdgeView>, plan: Plan, dx: real, dy: real)
    requires ScopePlan(nodes, edges, plan) && Sized(plan.rows, SizesOf(nodes))
    requires NodesLaid(nodes, edges, plan, dx, dy) && EdgesLaid(nodes, edges, plan, dx, dy)
    ensures EdgesDrawn(nodes, edges, plan.back,
                       Box(dx, dy, BlockWidth(plan.rows, SizesOf(nodes)), BlockHeight(plan.rows, SizesOf(nodes))))
  {
    hide NearFrame, Bulges, RightOf, RunsDown, NodesLaid, EdgesLaid, ScopePlan, Sized;
    var frame := Box(dx, dy, BlockWidth(plan.rows, SizesOf(nodes)), BlockHeight(plan.rows, SizesOf(nodes)));
    forall e, s, t | e in edges && s in nodes && t in nodes && s.id == e.source && t.id == e.target
      ensures NearFrame(e.points, frame)
      ensures e.source == e.target ==> Bulges(e.points, s.Shape())
      ensures e.source != e.target && Arrow(e.source, e.target) in plan.back ==>
        ArcsBack(e.points, s.Shape(), t.Shape()) && RightOf(e.points[1].x, nodes)
      ensures Arrow(e.source, e.target) !in plan.back ==> RunsDown(e.points, s.Shape(), t.Shape())
    {
      LaidEdgeIsDrawn(nodes, edges, plan, dx, dy, e, s, t);
      LaidBackEdgeIsDrawn(nodes, edges, plan, dx, dy, e, s, t);
    }
  }

  lemma EdgeIsPair(nodes: seq<NodeView>, edges: seq<EdgeView>, e: EdgeView)
    requires e in edges && e.source in Ids(nodes) && e.target in Ids(nodes)
    ensures Arrow(e.source, e.target) in Pairs(nodes, edges)
  {
    var i :| 0 <= i < |edges| && edges[i] == e;
    assert Arrows(edges)[i] == Arrow(e.source, e.target);
  }

  lemma LaidEdgeIsDrawn(nodes: seq<NodeView>, edges: seq<EdgeView>, plan: Plan, dx: real, dy: real,
                        e: EdgeView, s: NodeView, t: NodeView)
    requires ScopePlan(nodes, edges, plan) && Sized(plan.rows, SizesOf(nodes))
    requires NodesLaid(nodes, edges, plan, dx, dy) && EdgesLaid(nodes, edges, plan, dx, dy)
    requires e in edges && s in nodes && t in nodes && s.id == e.source && t.id == e.target
    ensures NearFrame(e.points,
                      Box(dx, dy, BlockWidth(plan.rows, SizesOf(nodes)), BlockHeight(plan.rows, SizesOf(nodes))))
    ensures Arrow(e.source, e.target) !in plan.back ==> RunsDown(e.points, s.Shape(), t.Shape())
  {
    hide IsPlan, Located, Sized;
    var size, arrow := SizesOf(nodes), Arrow(e.source, e.target);
    EdgeIsPair(nodes, edges, e);
    EdgeIsNear(Ids(nodes), Pairs(nodes, edges), plan, size, arrow);
    ShiftNear(PlannedPoints(nodes, edges, plan, e), BlockWidth(plan.rows, size), BlockHeight(plan.rows, size), dx, dy);
    if arrow !in plan.back {
      ForwardEdgeDescends(Ids(nodes), Pairs(nodes, edges), plan, size, arrow);
      ForwardRunsDown(BoxFor(plan, size, e.source), BoxFor(plan, size, e.target));
      ShiftRunsDown(PlannedPoints(nodes, edges, plan, e), BoxFor(plan, size, e.source), BoxFor(plan, size, e.target), dx, dy);
    }
  }

  lemma LaidBackEdgeIsDrawn(nodes: seq<NodeView>, edges: seq<EdgeView>, plan: Plan, dx: real, dy: real,
                            e: EdgeView, s: NodeView, t: NodeView)
    requires ScopePlan(nodes, edges, plan) && Sized(plan.rows, SizesOf(nodes))
    requires NodesLaid(nodes, edges, plan, dx, dy) && EdgesLaid(nodes, edges, plan, dx, dy)
    requires e in edges && s in nodes && t in nodes && s.id == e.source && t.id == e.target
    ensures e.source == e.target ==> Bulges(e.points, s.Shape())
    ensures e.source != e.target && Arrow(e.source, e.target) in plan.back ==>
      ArcsBack(e.points, s.Shape(), t.Shape()) && RightOf(e.points[1].x, nodes)
  {
    hide IsPlan, Located, Sized, BoxFor, LoopPoints, BackPoints, ForwardPoints, Bulges, ArcsBack, RightOf;
    var size := SizesOf(nodes);
    var width := BlockWidth(plan.rows, size);
    var from, to := BoxFor(plan, size, e.source), BoxFor(plan, size, e.target);
    if e.source == e.target {
      LoopBulges(from);
      ShiftBulges(LoopPoints(from), from, dx, dy);
    } else if Arrow(e.source, e.target) in plan.back {
      BackArcsBack(from, to, width);
      ShiftArcsBack(BackPoints(from, to, width), from, to, dx, dy);
      RightOfBlock(nodes, edges, plan, dx, dy);
    }
  }

  lemma RightOfBlock(nodes: seq<NodeView>, edges: seq<EdgeView>, plan: Plan, dx: real, dy: real)
    requires ScopePlan(nodes, edges, plan) && NodesLaid(nodes, edges, plan, dx, dy) && Sized(plan.rows, SizesOf(nodes))
    ensures RightOf(BlockWidth(plan.rows, SizesOf(nodes)) + 48.0 + dx, nodes)
  {
    hide NodesDrawn, NodesLaid, ScopePlan, Sized;
    LaidNodesAreDrawn(nodes, edges, plan, dx, dy);
    InFrameLeftOf(nodes, Box(dx, dy, BlockWidth(plan.rows, SizesOf(nodes)), BlockHeight(plan.rows, SizesOf(nodes))));
  }

  lemma InFrameLeftOf(nodes: seq<NodeView>, frame: Box)
    requires NodesDrawn(nodes, frame)
    ensures RightOf(frame.x + frame.w + 48.0, nodes)
  {
    hide Apart;
    forall n | n in nodes ensures n.x + n.w + 48.0 <= frame.x + frame.w + 48.0 {
      assert InFrame(n.Shape(), frame);
    }
  }

  lemma ShiftBulges(points: seq<Point>, s: Box, dx: real, dy: real)
    requires Bulges(points, s)
    ensures Bulges(ShiftPoints(points, dx, dy), ShiftBox(s, dx, dy))
  {
  }

  lemma ShiftArcsBack(points: seq<Point>, s: Box, t: Box, dx: real, dy: real)
    requires ArcsBack(points, s, t)
    ensures ArcsBack(ShiftPoints(points, dx, dy), ShiftBox(s, dx, dy), ShiftBox(t, dx, dy))
    ensures ShiftPoints(points, dx, dy)[1].x == points[1].x + dx
  {
  }

  lemma ShiftNear(points: seq<Point>, width: real, height: real, dx: real, dy: real)
    requires Near(points, width, height)
    ensures NearFrame(ShiftPoints(points, dx, dy), Box(dx, dy, width, height))
  {
    var shifted := ShiftPoints(points, dx, dy);
    forall p | p in shifted
      ensures dx <= p.x <= dx + width + 48.0 && dy - 8.0 <= p.y <= dy + height + 8.0
    {
      var i :| 0 <= i < |shifted| && shifted[i] == p;
      assert points[i] in points;
    }
  }

  lemma ShiftRunsDown(points: seq<Point>, s: Box, t: Box, dx: real, dy: real)
    requires RunsDown(points, s, t)
    ensures RunsDown(ShiftPoints(points, dx, dy), ShiftBox(s, dx, dy), ShiftBox(t, dx, dy))
  {
  }

  // ---- Moving a scope to its place -----------------------------------------------------

  method ShiftNodes(nodes: seq<NodeView>, dx: real, dy: real)
    requires Distinct(Ids(nodes))
    modifies nodes`x, nodes`y
    ensures forall n :: n in nodes ==> n.Shape() == ShiftBox(old(n.Shape()), dx, dy)
  {
    for i := 0 to |nodes|
      invariant forall j :: 0 <= j < i ==> nodes[j].Shape() == ShiftBox(old(nodes[j].Shape()), dx, dy)
      invariant forall j :: i <= j < |nodes| ==> nodes[j].Shape() == old(nodes[j].Shape())
    {
      forall j | 0 <= j < |nodes| && j != i ensures nodes[j] != nodes[i] {
        assert Ids(nodes)[j] != Ids(nodes)[i];
      }
      nodes[i].x := nodes[i].x + dx;
      nodes[i].y := nodes[i].y + dy;
    }
  }

  method ShiftEdges(edges: seq<EdgeView>, dx: real, dy: real)
    requires Distinct(edges)
    modifies edges
    ensures forall e :: e in edges ==> e.points == ShiftPoints(old(e.points), dx, dy)
  {
    for i := 0 to |edges|
      invariant forall j :: 0 <= j < i ==> edges[j].points == ShiftPoints(old(edges[j].points), dx, dy)
      invariant forall j :: i <= j < |edges| ==> edges[j].points == old(edges[j].points)
    {
      edges[i].points := ShiftPoints(edges[i].points, dx, dy);
    }
  }

  method MoveNodes(nodes: seq<NodeView>, ghost edges: seq<EdgeView>, ghost plan: Plan, dx: real, dy: real)
    requires ScopePlan(nodes, edges, plan) && NodesLaid(nodes, edges, plan, 0.0, 0.0)
    modifies nodes`x, nodes`y
    ensures NodesLaid(nodes, edges, plan, dx, dy)
  {
    hide IsPlan, Located, Distinct;
    ShiftNodes(nodes, dx, dy);
  }

  method MoveEdges(ghost nodes: seq<NodeView>, edges: seq<EdgeView>, ghost plan: Plan, dx: real, dy: real)
    requires ScopePlan(nodes, edges, plan) && Distinct(edges) && EdgesLaid(nodes, edges, plan, 0.0, 0.0)
    modifies edges
    ensures EdgesLaid(nodes, edges, plan, dx, dy)
    ensures forall e :: e in edges ==> e.points == ShiftPoints(old(e.points), dx, dy)
  {
    hide IsPlan, Located, Distinct, EdgePoints;
    ShiftEdges(edges, dx, dy);
    forall e | e in edges && e.source in Ids(nodes) && e.target in Ids(nodes)
      ensures e.points == ShiftPoints(PlannedPoints(nodes, edges, plan, e), dx, dy)
    {
      ShiftTwice(PlannedPoints(nodes, edges, plan, e), dx, dy);
    }
  }

  lemma ShiftTwice(points: seq<Point>, dx: real, dy: real)
    ensures ShiftPoints(ShiftPoints(points, 0.0, 0.0), dx, dy) == ShiftPoints(points, dx, dy)
  {
  }

  /** Lay a scope out with its top left corner at `(dx, dy)`. */
  method DrawScope(nodes: seq<NodeView>, edges: seq<EdgeView>, dx: real, dy: real)
    returns (width: real, height: real, ghost plan: Plan)
    requires Distinct(Ids(nodes)) && Distinct(edges)
    modifies nodes, edges
    ensures ScopePlan(nodes, edges, plan) && Sized(plan.rows, SizesOf(nodes))
    ensures width == BlockWidth(plan.rows, SizesOf(nodes)) && height == BlockHeight(plan.rows, SizesOf(nodes))
    ensures NodesLaid(nodes, edges, plan, dx, dy) && EdgesLaid(nodes, edges, plan, dx, dy)
    ensures NodesDrawn(nodes, Box(dx, dy, width, height))
    ensures EdgesDrawn(nodes, edges, plan.back, Box(dx, dy, width, height))
    ensures forall e :: e in edges && !(e.source in Ids(nodes) && e.target in Ids(nodes)) ==>
      e.points == ShiftPoints(old(e.points), dx, dy)
  {
    hide Distinct, IsPlan, NodesDrawn, EdgesDrawn, NodesLaid, EdgesLaid, Located;
    width, height, plan := PlaceScope(nodes, edges);
    PlanIsScopePlan(nodes, edges, plan);
    MoveNodes(nodes, edges, plan, dx, dy);
    MoveEdges(nodes, edges, plan, dx, dy);
    LaidNodesAreDrawn(nodes, edges, plan, dx, dy);
    LaidEdgesAreDrawn(nodes, edges, plan, dx, dy);
  }

  // ---- Clusters ------------------------------------------------------------------------

  function InCluster(cluster: Id): NodeView -> bool {
    (n: NodeView) => n.cluster == Some(cluster)
  }

  function Members(nodes: seq<NodeView>, cluster: Id): seq<NodeView> {
    Filter(InCluster(cluster), nodes)
  }

  /** Not a state edge, and both ends among `ids`. */
  function InScope(ids: seq<Id>): EdgeView -> bool {
    (e: EdgeView) => e.kind != State && e.source in ids && e.target in ids
  }

  function Scoped(edges: seq<EdgeView>, ids: seq<Id>): seq<EdgeView> {
    Filter(InScope(ids), edges)
  }

  function ScopedEdges(nodes: seq<NodeView>, edges: seq<EdgeView>, cluster: Id): seq<EdgeView> {
    Scoped(edges, Ids(Members(nodes, cluster)))
  }

  lemma {:induction false} MembersDistinct(nodes: seq<NodeView>, cluster: Id)
    requires Distinct(Ids(nodes))
    ensures Distinct(Ids(Members(nodes, cluster)))
  {
    if nodes != [] {
      var n := |nodes| - 1;
      assert Ids(nodes[..n]) == Ids(nodes)[..n];
      MembersDistinct(nodes[..n], cluster);
      var front := Members(nodes[..n], cluster);
      if nodes[n].cluster == Some(cluster) {
        assert Ids(Members(nodes, cluster)) == Ids(front) + [nodes[n].id];
        forall i | 0 <= i < |front| ensures front[i].id != nodes[n].id {
          assert front[i] in nodes[..n];
          var j :| 0 <= j < n && nodes[..n][j] == front[i];
          assert Ids(nodes)[j] != Ids(nodes)[n];
        }
      }
    }
  }

  lemma SameIdSameNode(nodes: seq<NodeView>, a: NodeView, b: NodeView)
    requires Distinct(Ids(nodes)) && a in nodes && b in nodes && a.id == b.id
    ensures a == b
  {
    var i :| 0 <= i < |nodes| && nodes[i] == a;
    var j :| 0 <= j < |nodes| && nodes[j] == b;
    assert Ids(nodes)[i] == Ids(nodes)[j];
  }

  lemma NoSharedEdge(nodes: seq<NodeView>, edges: seq<EdgeView>, c: Id, d: Id, e: EdgeView)
    requires Distinct(Ids(nodes)) && c != d && e in ScopedEdges(nodes, edges, c)
    ensures e !in ScopedEdges(nodes, edges, d)
  {
    if e in ScopedEdges(nodes, edges, d) {
      var ms, ns := Members(nodes, c), Members(nodes, d);
      var i :| 0 <= i < |ms| && ms[i].id == e.source;
      var j :| 0 <= j < |ns| && ns[j].id == e.source;
      assert ms[i] in ms && ns[j] in ns;
      SameIdSameNode(nodes, ms[i], ns[j]);
    }
  }

  ghost function MemberSet(nodes: seq<NodeView>, cluster: Id): set<NodeView> {
    set n | n in Members(nodes, cluster)
  }

  ghost function ScopedSet(nodes: seq<NodeView>, edges: seq<EdgeView>, cluster: Id): set<EdgeView> {
    set e | e in ScopedEdges(nodes, edges, cluster)
  }

  lemma ListsAreSets(nodes: seq<NodeView>, edges: seq<EdgeView>, cluster: Id)
    ensures var ms := Members(nodes, cluster); forall i :: 0 <= i < |ms| ==> ms[i] in MemberSet(nodes, cluster)
    ensures var es := ScopedEdges(nodes, edges, cluster);
      forall i :: 0 <= i < |es| ==> es[i] in ScopedSet(nodes, edges, cluster)
  {
  }

  /** Two clusters share neither nodes nor scoped edges. */
  lemma PartsDisjoint(nodes: seq<NodeView>, edges: seq<EdgeView>, c: Id, d: Id)
    requires Distinct(Ids(nodes)) && c != d
    ensures forall n :: n in MemberSet(nodes, c) ==> n !in MemberSet(nodes, d)
    ensures forall e :: e in ScopedSet(nodes, edges, c) ==> e !in ScopedSet(nodes, edges, d)
  {
    forall e | e in ScopedEdges(nodes, edges, c) ensures e !in ScopedEdges(nodes, edges, d) {
      NoSharedEdge(nodes, edges, c, d, e);
    }
  }

  /** The space inside a cluster's padding. */
  ghost function Inner(c: ClusterView): Box
    reads c
  {
    Box(c.x + CLUSTER_PAD, c.y + CLUSTER_PAD, c.w - 2.0 * CLUSTER_PAD, c.h - 2.0 * CLUSTER_PAD)
  }

  /** A scope stands exactly where its plan puts it, with its top left corner at `(dx, dy)`. */
  ghost predicate ScopeLaid(nodes: seq<NodeView>, edges: seq<EdgeView>, plan: Plan, dx: real, dy: real)
    reads nodes, edges
  {
    ScopePlan(nodes, edges, plan) && NodesLaid(nodes, edges, plan, dx, dy) && EdgesLaid(nodes, edges, plan, dx, dy)
  }

  /** The block a plan needs is this wide and this high. */
  ghost predicate BlockIs(nodes: seq<NodeView>, plan: Plan, width: real, height: real) {
    Sized(plan.rows, SizesOf(nodes))
    && width == BlockWidth(plan.rows, SizesOf(nodes)) && height == BlockHeight(plan.rows, SizesOf(nodes))
  }

  /** A cluster's members fill the inside of its frame, where their plan puts them. */
  ghost predicate ClusterDrawn(nodes: seq<NodeView>, edges: seq<EdgeView>, c: ClusterView, plan: Plan)
    reads c, MemberSet(nodes, c.id), ScopedSet(nodes, edges, c.id)
  {
    ListsAreSets(nodes, edges, c.id);
    && ScopeLaid(Members(nodes, c.id), ScopedEdges(nodes, edges, c.id), plan, Inner(c).x, Inner(c).y)
    && BlockIs(Members(nodes, c.id), plan, Inner(c).w, Inner(c).h)
    && NodesDrawn(Members(nodes, c.id), Inner(c))
    && EdgesDrawn(Members(nodes, c.id), ScopedEdges(nodes, edges, c.id), plan.back, Inner(c))
    && Inner(c).w >= 0.0 && Inner(c).h >= 0.0
  }

  method DrawCluster(nodes: seq<NodeView>, edges: seq<EdgeView>, c: ClusterView, y: real) returns (ghost plan: Plan)
    requires Distinct(Ids(nodes)) && Distinct(edges)
    modifies c, MemberSet(nodes, c.id), ScopedSet(nodes, edges, c.id)
    ensures ClusterDrawn(nodes, edges, c, plan)
    ensures c.x == MARGIN && c.y == y
  {
    hide Members, ScopedEdges, ClusterDrawn, ScopePlan, NodesDrawn, EdgesDrawn, Distinct, NodesLaid, EdgesLaid, Sized;
    var members, scoped := Members(nodes, c.id), ScopedEdges(nodes, edges, c.id);
    PartsDistinct(nodes, edges, c.id);
    ListsAreSets(nodes, edges, c.id);
    var width, height;
    width, height, plan := DrawScope(members, scoped, MARGIN + CLUSTER_PAD, y + CLUSTER_PAD);
    c.x, c.y := MARGIN, y;
    c.w, c.h := width + 2.0 * CLUSTER_PAD, height + 2.0 * CLUSTER_PAD;
    FrameAroundScope(nodes, edges, c, plan, width, height);
  }

  /** Every member of a drawn cluster stands at least 20 inside its frame. */
  lemma MembersArePadded(nodes: seq<NodeView>, edges: seq<EdgeView>, c: ClusterView, plan: Plan, n: NodeView)
    requires ClusterDrawn(nodes, edges, c, plan) && n in nodes && n.cluster == Some(c.id)
    ensures c.x + 20.0 <= n.x && n.x + n.w <= c.x + c.w - 20.0
    ensures c.y + 20.0 <= n.y && n.y + n.h <= c.y + c.h - 20.0
  {
    hide ScopeLaid, BlockIs, EdgesDrawn, Apart;
    assert InCluster(c.id)(n) && n in Members(nodes, c.id);
    assert InFrame(n.Shape(), Inner(c));
  }

  lemma PartsDistinct(nodes: seq<NodeView>, edges: seq<EdgeView>, cluster: Id)
    requires Distinct(Ids(nodes)) && Distinct(edges)
    ensures Distinct(Ids(Members(nodes, cluster))) && Distinct(ScopedEdges(nodes, edges, cluster))
  {
    MembersDistinct(nodes, cluster);
    FilterDistinct(InScope(Ids(Members(nodes, cluster))), edges);
  }

  /** A frame with the padding around a drawn scope is a drawn cluster. */
  lemma FrameAroundScope(nodes: seq<NodeView>, edges: seq<EdgeView>, c: ClusterView, plan: Plan, width: real, height: real)
    requires c.w == width + 2.0 * CLUSTER_PAD && c.h == height + 2.0 * CLUSTER_PAD
    requires ScopeLaid(Members(nodes, c.id), ScopedEdges(nodes, edges, c.id), plan, c.x + CLUSTER_PAD, c.y + CLUSTER_PAD)
    requires BlockIs(Members(nodes, c.id), plan, width, height) && width >= 0.0 && height >= 0.0
    requires NodesDrawn(Members(nodes, c.id), Box(c.x + CLUSTER_PAD, c.y + CLUSTER_PAD, width, height))
    requires EdgesDrawn(Members(nodes, c.id), ScopedEdges(nodes, edges, c.id), plan.back,
                        Box(c.x + CLUSTER_PAD, c.y + CLUSTER_PAD, width, height))
    ensures ClusterDrawn(nodes, edges, c, plan)
  {
    hide Members, ScopedEdges, ScopeLaid, BlockIs, NodesDrawn, EdgesDrawn;
    assert Inner(c) == Box(c.x + CLUSTER_PAD, c.y + CLUSTER_PAD, width, height);
  }

  /** Frames stand below one another from the top margin on, exactly one gap apart; `bottom` is one gap
      below the last of them, and `width` is that of the widest. */
  ghost predicate Stacked(frames: seq<Box>, bottom: real, width: real) {
    && (forall j :: 0 <= j < |frames| ==> frames[j].x == 24.0 && frames[j].y == Top(frames, j))
    && bottom == Top(frames, |frames|)
    && (forall j :: 0 <= j < |frames| ==> MARGIN <= frames[j].y && frames[j].y + frames[j].h + CLUSTER_GAP <= bottom)
    && (forall j, k :: 0 <= j < k < |frames| ==> AboveBox(frames[j], frames[k], CLUSTER_GAP))
    && IsWidest(frames, width)
  }

  /** Where the j-th frame starts. */
  ghost function Top(frames: seq<Box>, j: nat): real
    requires j <= |frames|
  {
    if j == 0 then 24.0 else frames[j - 1].y + frames[j - 1].h + 40.0
  }

  ghost predicate IsWidest(frames: seq<Box>, width: real) {
    && (forall j :: 0 <= j < |frames| ==> frames[j].w <= width)
    && if frames == [] then width == 0.0 else exists j :: 0 <= j < |frames| && frames[j].w == width
  }

  lemma FrameBelow(frames: seq<Box>, frame: Box, bottom: real, width: real)
    requires Stacked(frames, bottom, width) && frame.x == MARGIN && frame.y == bottom >= MARGIN && frame.h >= 0.0 && frame.w >= 0.0
    ensures Stacked(frames + [frame], bottom + frame.h + CLUSTER_GAP, Max(width, frame.w))
  {
    hide Top, IsWidest;
    var all := frames + [frame];
    assert all[|frames|] == frame && forall j :: 0 <= j < |frames| ==> all[j] == frames[j];
    SameTops(frames, frame);
    WidestSoFar(frames, frame, width);
  }

  lemma SameTops(frames: seq<Box>, frame: Box)
    ensures forall j :: 0 <= j <= |frames| ==> Top(frames + [frame], j) == Top(frames, j)
    ensures Top(frames + [frame], |frames| + 1) == frame.y + frame.h + CLUSTER_GAP
  {
  }

  /** What the drawing of one frame needs to know of the stack. */
  lemma FrameInStack(frames: seq<Box>, bottom: real, width: real, j: nat)
    requires Stacked(frames, bottom, width) && j < |frames|
    ensures frames[j].x == MARGIN && MARGIN <= frames[j].y && frames[j].w <= width
    ensures frames[j].y + frames[j].h + CLUSTER_GAP <= bottom
    ensures forall k :: j < k < |frames| ==> AboveBox(frames[j], frames[k], CLUSTER_GAP)
  {
  }

  lemma WidestSoFar(frames: seq<Box>, frame: Box, width: real)
    requires IsWidest(frames, width) && frame.w >= 0.0
    ensures IsWidest(frames + [frame], Max(width, frame.w))
  {
    var all := frames + [frame];
    if frame.w >= width {
      assert all[|frames|].w == Max(width, frame.w);
    } else {
      var j :| 0 <= j < |frames| && frames[j].w == width;
      assert all[j].w == Max(width, frame.w);
    }
  }

  ghost predicate HasFrames(clusters: seq<ClusterView>, frames: seq<Box>)
    reads clusters
  {
    |frames| <= |clusters| && forall j :: 0 <= j < |frames| ==> clusters[j].Frame() == frames[j]
  }

  /** In no listed cluster. */
  ghost predicate Loose(clusters: seq<ClusterView>, n: NodeView) {
    forall c :: c in clusters ==> n.cluster != Some(c.id)
  }

  /** In no cluster's scope. */
  ghost predicate Stray(nodes: seq<NodeView>, edges: seq<EdgeView>, clusters: seq<ClusterView>, e: EdgeView) {
    forall c :: c in clusters ==> e !in ScopedSet(nodes, edges, c.id)
  }

  method StackClusters(nodes: seq<NodeView>, edges: seq<EdgeView>, clusters: seq<ClusterView>)
    returns (bottom: real, maxWidth: real, ghost plans: seq<Plan>, ghost frames: seq<Box>)
    requires Distinct(Ids(nodes)) && Distinct(edges) && Distinct(ClusterIds(clusters))
    modifies clusters, nodes, edges
    ensures |plans| == |clusters| && forall j :: 0 <= j < |clusters| ==> ClusterDrawn(nodes, edges, clusters[j], plans[j])
    ensures |frames| == |clusters| && HasFrames(clusters, frames) && Stacked(frames, bottom, maxWidth)
    ensures forall e :: e in edges && (e.kind == State || Stray(nodes, edges, clusters, e)) ==> e.points == old(e.points)
    ensures forall n :: n in nodes && Loose(clusters, n) ==> n.Shape() == old(n.Shape())
  {
    hide Distinct, ClusterDrawn, Stacked, MemberSet, ScopedSet, Loose, Stray;
    bottom, maxWidth, plans, frames := MARGIN, 0.0, [], [];
    assert Stacked([], MARGIN, 0.0) by { NoFrames(); }
    for i := 0 to |clusters|
      invariant |plans| == i && forall j :: 0 <= j < i ==> ClusterDrawn(nodes, edges, clusters[j], plans[j])
      invariant |frames| == i && forall j :: 0 <= j < i ==> clusters[j].Frame() == frames[j]
      invariant Stacked(frames, bottom, maxWidth) && bottom >= MARGIN
      invariant forall e :: e in edges && (e.kind == State || Stray(nodes, edges, clusters, e)) ==> e.points == old(e.points)
      invariant forall n :: n in nodes && Loose(clusters, n) ==> n.Shape() == old(n.Shape())
    {
      var c := clusters[i];
      PartsOf(nodes, edges, c.id);
      OutsideScope(nodes, edges, clusters, c);
      label undrawn:
      ghost var plan := DrawCluster(nodes, edges, c, bottom);
      forall j | 0 <= j < i ensures clusters[j] != c && ClusterDrawn(nodes, edges, clusters[j], plans[j]) {
        EachOwnsItsParts(nodes, edges, clusters, j, i);
        assert unchanged@undrawn(clusters[j]);
        assert unchanged@undrawn(MemberSet(nodes, clusters[j].id));
        assert unchanged@undrawn(ScopedSet(nodes, edges, clusters[j].id));
        assert old@undrawn(ClusterDrawn(nodes, edges, clusters[j], plans[j]));
      }
      plans := plans + [plan];
      FrameHeight(nodes, edges, c, plan);
      FrameBelow(frames, c.Frame(), bottom, maxWidth);
      frames := frames + [c.Frame()];
      maxWidth := Max(maxWidth, c.w);
      bottom := bottom + c.h + CLUSTER_GAP;
    }
  }

  /** Two clusters share nothing that drawing one of them changes. */
  ghost predicate OwnParts(nodes: seq<NodeView>, edges: seq<EdgeView>, a: ClusterView, c: ClusterView) {
    && a != c
    && (forall n :: n in MemberSet(nodes, a.id) ==> n in nodes && n !in MemberSet(nodes, c.id))
    && (forall e :: e in ScopedSet(nodes, edges, a.id) ==> e in edges && e !in ScopedSet(nodes, edges, c.id))
  }

  lemma EachOwnsItsParts(nodes: seq<NodeView>, edges: seq<EdgeView>, clusters: seq<ClusterView>, j: nat, i: nat)
    requires Distinct(Ids(nodes)) && Distinct(ClusterIds(clusters)) && j < i < |clusters|
    ensures OwnParts(nodes, edges, clusters[j], clusters[i])
  {
    hide MemberSet, ScopedSet;
    ClusterIdsDiffer(clusters, i, j);
    PartsOf(nodes, edges, clusters[j].id);
    PartsDisjoint(nodes, edges, clusters[j].id, clusters[i].id);
  }

  lemma OutsideScope(nodes: seq<NodeView>, edges: seq<EdgeView>, clusters: seq<ClusterView>, c: ClusterView)
    requires c in clusters
    ensures forall n :: Loose(clusters, n) ==> n !in MemberSet(nodes, c.id)
    ensures forall e :: e in edges && (e.kind == State || Stray(nodes, edges, clusters, e)) ==> e !in ScopedSet(nodes, edges, c.id)
  {
    hide MemberSet, ScopedSet;
    PartsOf(nodes, edges, c.id);
  }

  lemma NoFrames()
    ensures Stacked([], MARGIN, 0.0)
  {
  }

  lemma PartsOf(nodes: seq<NodeView>, edges: seq<EdgeView>, c: Id)
    ensures forall n :: n in MemberSet(nodes, c) ==> n in nodes && n.cluster == Some(c)
    ensures forall e :: e in ScopedSet(nodes, edges, c) ==> e in edges && e.kind != State
  {
  }

  lemma FrameHeight(nodes: seq<NodeView>, edges: seq<EdgeView>, c: ClusterView, plan: Plan)
    requires ClusterDrawn(nodes, edges, c, plan)
    ensures c.h >= 0.0 && c.w >= 0.0
  {
  }

  lemma ClusterIdsDiffer(clusters: seq<ClusterView>, i: nat, j: nat)
    requires Distinct(ClusterIds(clusters)) && i < |clusters| && j < |clusters| && i != j
    ensures clusters[i].id != clusters[j].id
  {
    assert ClusterIds(clusters)[i] != ClusterIds(clusters)[j];
  }

  // ---- Edges between clusters ----------------------------------------------------------

  function ClusterMap(clusters: seq<ClusterView>): (m: map<Id, ClusterView>)
    ensures forall v :: v in m ==> m[v].id == v && m[v] in clusters
    ensures forall c :: c in clusters ==> c.id in m
  {
    if clusters == [] then map[]
    else
      var n := |clusters| - 1;
      assert clusters == clusters[..n] + [clusters[n]];
      ClusterMap(clusters[..n])[clusters[n].id := clusters[n]]
  }

  ghost function StateSet(edges: seq<EdgeView>): set<EdgeView> {
    set e | e in edges && e.kind == State
  }

  /** From the middle of `s`'s bottom, 16 straight down, and from 16 above straight down to the middle of
      `t`'s top. */
  ghost predicate LinksFrames(points: seq<Point>, s: Box, t: Box) {
    && |points| == 4
    && points[0] == Point(s.x + s.w / 2.0, s.y + s.h) && points[1] == Point(points[0].x, points[0].y + 16.0)
    && points[3] == Point(t.x + t.w / 2.0, t.y) && points[2] == Point(points[3].x, points[3].y - 16.0)
  }

  /** A state edge joins the frames it names. */
  ghost predicate StateEdgeDrawn(clusters: seq<ClusterView>, e: EdgeView)
    reads e, clusters
  {
    forall s, t :: s in clusters && t in clusters && s.id == e.source && t.id == e.target ==>
      LinksFrames(e.points, s.Frame(), t.Frame())
  }

  ghost predicate JoinsClusters(clusters: seq<ClusterView>, e: EdgeView) {
    e.source in ClusterIds(clusters) && e.target in ClusterIds(clusters)
  }

  /** A state edge that joins no two clusters, or any other edge in no cluster's scope. */
  ghost predicate Unrouted(nodes: seq<NodeView>, edges: seq<EdgeView>, clusters: seq<ClusterView>, e: EdgeView) {
    if e.kind == State then !JoinsClusters(clusters, e) else Stray(nodes, edges, clusters, e)
  }

  method DrawStateEdge(edge: EdgeView, s: ClusterView, t: ClusterView)
    modifies edge
    ensures LinksFrames(edge.points, s.Frame(), t.Frame())
  {
    var sx, sy := s.x + s.w / 2.0, s.y + s.h;
    var tx, ty := t.x + t.w / 2.0, t.y;
    edge.points := [Point(sx, sy), Point(sx, sy + 16.0), Point(tx, ty - 16.0), Point(tx, ty)];
  }

  method DrawStateEdges(edges: seq<EdgeView>, clusters: seq<ClusterView>)
    requires Distinct(ClusterIds(clusters))
    modifies StateSet(edges)
    ensures forall e :: e in edges && e.kind == State ==> StateEdgeDrawn(clusters, e)
    ensures forall e :: e in edges && e.kind == State && !JoinsClusters(clusters, e) ==> e.points == old(e.points)
  {
    hide Distinct, LinksFrames, StateEdgeDrawn, JoinsClusters, ClusterMap, ClusterIds;
    var frames := ClusterMap(clusters);
    for i := 0 to |edges|
      invariant forall j :: 0 <= j < i && edges[j].kind == State ==> StateEdgeDrawn(clusters, edges[j])
      invariant forall e :: e in edges && e.kind == State && !JoinsClusters(clusters, e) ==> e.points == old(e.points)
    {
      var edge := edges[i];
      assert edge in edges;
      label undrawn:
      if edge.kind == State && edge.source in frames && edge.target in frames {
        DrawStateEdge(edge, frames[edge.source], frames[edge.target]);
        EdgeNowDrawn(clusters, edge, frames[edge.source], frames[edge.target]);
      } else if edge.kind == State {
        NothingToDraw(clusters, edge);
      }
      forall j | 0 <= j < i && edges[j].kind == State ensures StateEdgeDrawn(clusters, edges[j]) {
        if edges[j] != edge {
          assert unchanged@undrawn(edges[j]);
          assert old@undrawn(StateEdgeDrawn(clusters, edges[j]));
        }
      }
    }
  }

  lemma EdgeNowDrawn(clusters: seq<ClusterView>, e: EdgeView, s: ClusterView, t: ClusterView)
    requires Distinct(ClusterIds(clusters)) && s in clusters && t in clusters && s.id == e.source && t.id == e.target
    requires LinksFrames(e.points, s.Frame(), t.Frame())
    ensures StateEdgeDrawn(clusters, e) && JoinsClusters(clusters, e)
  {
    hide Distinct, LinksFrames, ClusterIds;
    SameIdSameCluster(clusters, s);
    SameIdSameCluster(clusters, t);
    ClusterIdListed(clusters, s);
    ClusterIdListed(clusters, t);
  }

  lemma NothingToDraw(clusters: seq<ClusterView>, e: EdgeView)
    requires e.source !in ClusterMap(clusters) || e.target !in ClusterMap(clusters)
    ensures StateEdgeDrawn(clusters, e)
  {
  }

  lemma ClusterIdListed(clusters: seq<ClusterView>, c: ClusterView)
    requires c in clusters
    ensures c.id in ClusterIds(clusters)
  {
    var i :| 0 <= i < |clusters| && clusters[i] == c;
    assert ClusterIds(clusters)[i] == c.id;
  }

  lemma SameIdSameCluster(clusters: seq<ClusterView>, c: ClusterView)
    requires Distinct(ClusterIds(clusters)) && c in clusters
    ensures forall d :: d in clusters && d.id == c.id ==> d == c
  {
    forall d | d in clusters && d.id == c.id ensures d == c {
      var i :| 0 <= i < |clusters| && clusters[i] == c;
      var j :| 0 <= j < |clusters| && clusters[j] == d;
      assert ClusterIds(clusters)[i] == ClusterIds(clusters)[j];
    }
  }

  // ---- The canvas ----------------------------------------------------------------------

  ghost predicate OnCanvas(points: seq<Point>, width: real, height: real) {
    forall p :: p in points ==> 0.0 <= p.x <= width && 0.0 <= p.y <= height
  }

  /** Everything drawn for these nodes and the edges between them lies on the canvas. */
  ghost predicate ScopeOnCanvas(nodes: seq<NodeView>, edges: seq<EdgeView>, width: real, height: real)
    reads nodes, edges
  {
    && (forall n :: n in nodes ==> Within(n.Shape(), width, height))
    && (forall e, s, t :: e in edges && s in nodes && t in nodes && s.id == e.source && t.id == e.target ==>
          OnCanvas(e.points, width, height))
  }

  /** A margin around the frame, and the room kept for back-edge arcs, are enough. */
  lemma DrawnIsOnCanvas(nodes: seq<NodeView>, edges: seq<EdgeView>, back: set<Arrow>, frame: Box, width: real, height: real)
    requires NodesDrawn(nodes, frame) && EdgesDrawn(nodes, edges, back, frame)
    requires 8.0 <= frame.x && frame.x + frame.w + 48.0 <= width && 8.0 <= frame.y && frame.y + frame.h + 8.0 <= height
    ensures ScopeOnCanvas(nodes, edges, width, height)
  {
    forall e, s, t | e in edges && s in nodes && t in nodes && s.id == e.source && t.id == e.target
      ensures OnCanvas(e.points, width, height)
    {
      assert NearFrame(e.points, frame);
    }
  }

  // ---- The whole layout ----------------------------------------------------------------

  /** The whole snapshot is one scope inside the margins, and all of it is on the canvas. */
  ghost predicate SingleLaid(g: GraphSnapshot, plan: Plan)
    reads g, g.nodes, g.edges
  {
    var frame := Box(24.0, 24.0, g.width - 48.0 - 56.0, g.height - 48.0);
    && ScopeLaid(g.nodes, g.edges, plan, MARGIN, MARGIN) && BlockIs(g.nodes, plan, frame.w, frame.h)
    && NodesDrawn(g.nodes, frame) && EdgesDrawn(g.nodes, g.edges, plan.back, frame)
    && ScopeOnCanvas(g.nodes, g.edges, g.width, g.height)
  }

  method LayoutSingle(g: GraphSnapshot) returns (ghost plan: Plan)
    requires g.Valid()
    modifies g, g.nodes, g.edges
    ensures SingleLaid(g, plan)
    ensures forall e :: e in g.edges && !(e.source in Ids(g.nodes) && e.target in Ids(g.nodes)) ==>
      e.points == ShiftPoints(old(e.points), MARGIN, MARGIN)
  {
    hide Distinct, ScopePlan, NodesDrawn, EdgesDrawn, NodesLaid, EdgesLaid, Sized, ScopeOnCanvas;
    var width, height;
    width, height, plan := DrawScope(g.nodes, g.edges, MARGIN, MARGIN);
    g.width := width + 2.0 * MARGIN + 56.0;
    g.height := height + 2.0 * MARGIN;
    DrawnIsOnCanvas(g.nodes, g.edges, plan.back, Box(MARGIN, MARGIN, width, height), g.width, g.height);
  }

  lemma ClusterOnCanvas(nodes: seq<NodeView>, edges: seq<EdgeView>, c: ClusterView, plan: Plan,
                        bottom: real, maxWidth: real)
    requires ClusterDrawn(nodes, edges, c, plan)
    requires c.x == MARGIN && MARGIN <= c.y && c.w <= maxWidth && c.y + c.h + CLUSTER_GAP <= bottom
    ensures var width, height := maxWidth + 2.0 * MARGIN + 56.0, bottom - CLUSTER_GAP + MARGIN;
      && FrameOnCanvas(c.Frame(), width, height)
      && ScopeOnCanvas(Members(nodes, c.id), ScopedEdges(nodes, edges, c.id), width, height)
  {
    hide NodesDrawn, EdgesDrawn, ScopeOnCanvas, ScopePlan;
    DrawnIsOnCanvas(Members(nodes, c.id), ScopedEdges(nodes, edges, c.id), plan.back, Inner(c),
                    maxWidth + 2.0 * MARGIN + 56.0, bottom - CLUSTER_GAP + MARGIN);
  }

  /** A frame lies on the canvas with a margin above and below it. */
  ghost predicate FrameOnCanvas(frame: Box, width: real, height: real) {
    frame.w >= 0.0 && frame.h >= 0.0 && MARGIN <= frame.y && Within(frame, width, height - MARGIN)
  }

  /** A state edge needs no more room than the frames it joins and the margins around them. */
  lemma StateEdgeOnCanvas(points: seq<Point>, s: Box, t: Box, width: real, height: real)
    requires LinksFrames(points, s, t) && FrameOnCanvas(s, width, height) && FrameOnCanvas(t, width, height)
    ensures OnCanvas(points, width, height)
  {
  }

  lemma StateEdgeStaysOnCanvas(clusters: seq<ClusterView>, e: EdgeView, s: ClusterView, t: ClusterView,
                               width: real, height: real)
    requires s in clusters && t in clusters && s.id == e.source && t.id == e.target && StateEdgeDrawn(clusters, e)
    requires forall j :: 0 <= j < |clusters| ==> FrameOnCanvas(clusters[j].Frame(), width, height)
    ensures OnCanvas(e.points, width, height)
  {
    StateEdgeOnCanvas(e.points, s.Frame(), t.Frame(), width, height);
  }

  /** The frames as they stand, stacked, and the canvas around them. */
  ghost predicate CanvasFits(clusters: seq<ClusterView>, width: real, height: real)
    reads clusters
  {
    exists frames :: |frames| == |clusters| && HasFrames(clusters, frames)
                     && Stacked(frames, height + 40.0 - 24.0, width - 48.0 - 56.0)
  }

  lemma PartsListed(nodes: seq<NodeView>, edges: seq<EdgeView>, cluster: Id)
    ensures var ms := Members(nodes, cluster); forall i :: 0 <= i < |ms| ==> ms[i] in nodes
    ensures var es := ScopedEdges(nodes, edges, cluster); forall i :: 0 <= i < |es| ==> es[i] in edges
  {
  }

  /** Frames keep their distance, and they and all that is drawn for their members are on the canvas. */
  ghost predicate FramesOnCanvas(nodes: seq<NodeView>, edges: seq<EdgeView>, clusters: seq<ClusterView>, width: real, height: real)
    reads nodes, edges, clusters
  {
    && (forall j :: 0 <= j < |clusters| ==>
          (PartsListed(nodes, edges, clusters[j].id);
           FrameOnCanvas(clusters[j].Frame(), width, height)
           && ScopeOnCanvas(Members(nodes, clusters[j].id), ScopedEdges(nodes, edges, clusters[j].id), width, height)))
    && (forall j, k :: 0 <= j < k < |clusters| ==> AboveBox(clusters[j].Frame(), clusters[k].Frame(), CLUSTER_GAP))
  }

  lemma AllOnCanvas(nodes: seq<NodeView>, edges: seq<EdgeView>, clusters: seq<ClusterView>, plans: seq<Plan>,
                    frames: seq<Box>, bottom: real, maxWidth: real)
    requires |plans| == |frames| == |clusters| && HasFrames(clusters, frames) && Stacked(frames, bottom, maxWidth)
    requires forall j :: 0 <= j < |plans| ==> ClusterDrawn(nodes, edges, clusters[j], plans[j])
    ensures var width, height := maxWidth + 2.0 * MARGIN + 56.0, bottom - CLUSTER_GAP + MARGIN;
      CanvasFits(clusters, width, height) && FramesOnCanvas(nodes, edges, clusters, width, height)
  {
    hide ClusterDrawn, ScopeOnCanvas, FrameOnCanvas, Stacked, AboveBox, Members, ScopedEdges;
    var width, height := maxWidth + 2.0 * MARGIN + 56.0, bottom - CLUSTER_GAP + MARGIN;
    forall j | 0 <= j < |plans|
      ensures FrameOnCanvas(clusters[j].Frame(), width, height)
      ensures ScopeOnCanvas(Members(nodes, clusters[j].id), ScopedEdges(nodes, edges, clusters[j].id), width, height)
    {
      FrameInStack(frames, bottom, maxWidth, j);
      ClusterOnCanvas(nodes, edges, clusters[j], plans[j], bottom, maxWidth);
    }
    forall j, k | 0 <= j < k < |plans| ensures AboveBox(clusters[j].Frame(), clusters[k].Frame(), CLUSTER_GAP) {
      FrameInStack(frames, bottom, maxWidth, j);
    }
  }

  method LayoutClusters(g: GraphSnapshot) returns (ghost plans: seq<Plan>)
    requires g.Valid()
    modifies g, g.nodes, g.edges, g.clusters
    ensures |plans| == |g.clusters| && CanvasFits(g.clusters, g.width, g.height)
    ensures forall j :: 0 <= j < |plans| ==> ClusterDrawn(g.nodes, g.edges, g.clusters[j], plans[j])
    ensures FramesOnCanvas(g.nodes, g.edges, g.clusters, g.width, g.height)
    ensures forall e :: e in g.edges && e.kind == State ==> StateEdgeDrawn(g.clusters, e)
    ensures forall e :: e in g.edges && Unrouted(g.nodes, g.edges, g.clusters, e) ==> e.points == old(e.points)
    ensures forall n :: n in g.nodes && Loose(g.clusters, n) ==> n.Shape() == old(n.Shape())
  {
    hide Distinct, ClusterDrawn, CanvasFits, FramesOnCanvas, StateEdgeDrawn, MemberSet, ScopedSet, Stacked, AboveBox, Loose, Stray, JoinsClusters;
    var bottom, maxWidth;
    ghost var frames;
    bottom, maxWidth, plans, frames := StackClusters(g.nodes, g.edges, g.clusters);
    assert forall e :: e in StateSet(g.edges) ==> e.kind == State;
    label stacked:
    DrawStateEdges(g.edges, g.clusters);
    g.width := maxWidth + 2.0 * MARGIN + 56.0;
    g.height := bottom - CLUSTER_GAP + MARGIN;
    forall j | 0 <= j < |plans| ensures ClusterDrawn(g.nodes, g.edges, g.clusters[j], plans[j]) {
      PartsOf(g.nodes, g.edges, g.clusters[j].id);
      assert unchanged@stacked(g.clusters[j]);
      assert unchanged@stacked(MemberSet(g.nodes, g.clusters[j].id));
      assert unchanged@stacked(ScopedSet(g.nodes, g.edges, g.clusters[j].id));
      assert old@stacked(ClusterDrawn(g.nodes, g.edges, g.clusters[j], plans[j]));
    }
    assert HasFrames(g.clusters, frames);
    AllOnCanvas(g.nodes, g.edges, g.clusters, plans, frames, bottom, maxWidth);
  }

  ghost predicate JoinsFrames(g: GraphSnapshot, older e: EdgeView, older s: ClusterView, older t: ClusterView) {
    && e in g.edges && e.kind == State
    && s in g.clusters && s.id == e.source
    && t in g.clusters && t.id == e.target
  }

  /** The layout of a snapshot, in place. With clusters, every cluster is a scope of its own inside
      its frame; without, the whole snapshot is one scope. In every scope boxes keep their distance,
      the back edges are a minimal cut, all other edges run down, and all of it is on the canvas. */
  method LayoutGraph(g: GraphSnapshot) returns (ghost plans: seq<Plan>)
    requires g.Valid()
    modifies g, g.nodes, g.edges, g.clusters
    ensures g.nodes == [] ==>
      g.width == g.height == 0.0 && unchanged(set n | n in g.nodes) && unchanged(set e | e in g.edges)
    ensures g.nodes != [] && g.clusters == [] ==>
      && |plans| == 1 && SingleLaid(g, plans[0])
      && (forall e :: e in g.edges && !(e.source in Ids(g.nodes) && e.target in Ids(g.nodes)) ==>
            e.points == ShiftPoints(old(e.points), MARGIN, MARGIN))
    ensures g.nodes != [] && g.clusters != [] ==>
      && |plans| == |g.clusters| && CanvasFits(g.clusters, g.width, g.height)
      && (forall j :: 0 <= j < |plans| ==> ClusterDrawn(g.nodes, g.edges, g.clusters[j], plans[j]))
      && FramesOnCanvas(g.nodes, g.edges, g.clusters, g.width, g.height)
      && (forall e :: e in g.edges && e.kind == State ==> StateEdgeDrawn(g.clusters, e))
      && (forall e, s, t :: JoinsFrames(g, e, s, t) ==> OnCanvas(e.points, g.width, g.height))
      && (forall n :: n in g.nodes && Loose(g.clusters, n) ==> n.Shape() == old(n.Shape()))
      && (forall e :: e in g.edges && Unrouted(g.nodes, g.edges, g.clusters, e) ==> e.points == old(e.points))
  {
    hide Distinct, ClusterDrawn, ScopeOnCanvas, FrameOnCanvas, SingleLaid, StateEdgeDrawn, CanvasFits, OnCanvas, Loose, Unrouted;
    plans := [];
    if g.nodes == [] {
      g.width, g.height := 0.0, 0.0;
    } else if g.clusters != [] {
      plans := LayoutClusters(g);
      forall e, s, t | JoinsFrames(g, e, s, t) ensures OnCanvas(e.points, g.width, g.height) {
        StateEdgeStaysOnCanvas(g.clusters, e, s, t, g.width, g.height);
      }
    } else {
      ghost var plan := LayoutSingle(g);
      plans := [plan];
    }
  }
}
