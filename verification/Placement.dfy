/** Writing a plan's geometry into the nodes and edges of one scope (grapharc/observe/layout.py). */
module Placement {
  import opened Digraph
  import opened Ranking
  import opened RowOrder
  import opened Seqs
  import opened Geometry
  import opened Scope

  type NodeMap = map<Id, NodeView>

  ghost predicate Indexed(byId: NodeMap) {
    forall v :: v in byId ==> byId[v].id == v
  }

  ghost predicate Covers(byId: NodeMap, nodes: set<NodeView>) {
    forall v :: v in byId ==> byId[v].id == v && byId[v] in nodes
  }

  function ById(nodes: seq<NodeView>): (m: NodeMap)
    ensures Indexed(m) && forall v :: v in m ==> m[v] in nodes
    ensures forall v :: v in m <==> v in Ids(nodes)
  {
    if nodes == [] then map[]
    else
      var n := |nodes| - 1;
      assert nodes == nodes[..n] + [nodes[n]];
      assert Ids(nodes) == Ids(nodes[..n]) + [nodes[n].id];
      ById(nodes[..n])[nodes[n].id := nodes[n]]
  }

  lemma ByIdNode(nodes: seq<NodeView>, n: NodeView)
    requires Distinct(Ids(nodes)) && n in nodes
    ensures n.id in ById(nodes) && ById(nodes)[n.id] == n
  {
    var i :| 0 <= i < |nodes| && nodes[i] == n;
    assert Ids(nodes)[i] == n.id;
    var m := ById(nodes)[n.id];
    var j :| 0 <= j < |nodes| && nodes[j] == m;
    assert Ids(nodes)[j] == Ids(nodes)[i];
  }

  ghost predicate SizesSet(byId: NodeMap, nodes: set<NodeView>, size: Sizes)
    requires Covers(byId, nodes)
    reads nodes
  {
    forall v :: v in byId ==> v in size && byId[v].w == size[v].w && byId[v].h == size[v].h
  }

  /** Where the nodes are now. */
  ghost function Corners(byId: NodeMap, nodes: set<NodeView>): map<Id, Point>
    requires Covers(byId, nodes)
    reads nodes
  {
    map v | v in byId :: Point(byId[v].x, byId[v].y)
  }

  ghost predicate PlacedAt(n: NodeView, x: real, y: real)
    reads n
  {
    n.x == x && n.y == y
  }

  /** The top of a box of height `h` halfway down a row. */
  function Centred(top: real, height: real, h: real): real {
    top + (height - h) / 2.0
  }

  method PlaceNode(node: NodeView, x: real, y: real)
    modifies node`x, node`y
    ensures PlacedAt(node, x, y)
  {
    node.x, node.y := x, y;
  }

  /** One row, left to right; every other node stays where it is. */
  method PlaceRow(byId: NodeMap, ghost nodes: set<NodeView>, row: seq<Id>, size: Sizes, width: real, top: real, height: real)
    requires Covers(byId, nodes) && Distinct(row) && RowSized(row, size)
    requires SizesSet(byId, nodes, size) && forall v :: v in row ==> v in byId
    modifies nodes`x, nodes`y
    ensures forall j :: 0 <= j < |row| ==>
      PlacedAt(byId[row[j]], XAt(row, size, width, j), Centred(top, height, size[row[j]].h))
    ensures forall v :: v in byId && v !in row ==> PlacedAt(byId[v], old(byId[v].x), old(byId[v].y))
  {
    FirstX(row, size, width);
    hide XAt, Centred, Covers, Distinct;
    var x := RowStart(row, size, width);
    for j := 0 to |row|
      invariant x == XAt(row, size, width, j)
      invariant forall i :: 0 <= i < j ==>
        PlacedAt(byId[row[i]], XAt(row, size, width, i), Centred(top, height, size[row[i]].h))
      invariant forall v :: v in byId && v !in row ==> PlacedAt(byId[v], old(byId[v].x), old(byId[v].y))
    {
      var v := row[j];
      OthersDiffer(byId, nodes, row, j);
      NextX(row, size, width, j);
      PlaceNode(byId[v], x, Centred(top, height, byId[v].h));
      x := x + byId[v].w + GAP_X;
    }
  }

  lemma OthersDiffer(byId: NodeMap, nodes: set<NodeView>, row: seq<Id>, j: nat)
    requires Covers(byId, nodes) && Distinct(row) && j < |row| && forall v :: v in row ==> v in byId
    ensures row[j] in row && byId[row[j]] in nodes
    ensures forall i :: 0 <= i < |row| && i != j ==> row[i] in row && byId[row[i]] != byId[row[j]]
    ensures forall v :: v in byId && v !in row ==> byId[v] != byId[row[j]]
  {
  }

  lemma FirstX(row: seq<Id>, size: Sizes, width: real)
    requires RowSized(row, size)
    ensures XAt(row, size, width, 0) == RowStart(row, size, width)
  {
    assert row[..0] == [];
  }

  lemma NextX(row: seq<Id>, size: Sizes, width: real, j: nat)
    requires RowSized(row, size) && j < |row|
    ensures XAt(row, size, width, j + 1) == XAt(row, size, width, j) + size[row[j]].w + GAP_X
  {
    assert row[..j + 1][..j] == row[..j];
  }

  ghost predicate RowPlaced(corners: map<Id, Point>, rows: Rows, size: Sizes, k: nat)
    requires Sized(rows, size) && k < |rows|
  {
    forall j :: 0 <= j < |rows[k]| ==>
      rows[k][j] in corners && corners[rows[k][j]] == Point(BoxAt(rows, size, k, j).x, BoxAt(rows, size, k, j).y)
  }

  ghost predicate RowsDisjoint(rows: Rows) {
    && (forall k :: 0 <= k < |rows| ==> Distinct(rows[k]))
    && (forall k, m, v :: 0 <= k < m < |rows| && v in rows[k] ==> v !in rows[m])
  }

  /** The k-th row has just been placed. */
  lemma RowPlacedNow(corners: map<Id, Point>, rows: Rows, size: Sizes, k: nat)
    requires Sized(rows, size) && k < |rows| && forall v :: v in rows[k] ==> v in corners
    requires forall j :: 0 <= j < |rows[k]| ==>
      corners[rows[k][j]] == Point(XAt(rows[k], size, BlockWidth(rows, size), j),
                 Centred(RowTop(rows, size, k), RowHeight(rows[k], size), size[rows[k][j]].h))
    ensures RowPlaced(corners, rows, size, k)
  {
    hide XAt, RowTop, RowHeight, BlockWidth;
  }

  /** An earlier row stays placed while nothing outside the k-th row moves. */
  lemma EarlierRowPlaced(before: map<Id, Point>, after: map<Id, Point>, rows: Rows, size: Sizes, k: nat, m: nat)
    requires Sized(rows, size) && RowsDisjoint(rows) && m < k < |rows| && before.Keys == after.Keys
    requires RowPlaced(before, rows, size, m)
    requires forall v :: v in before && v !in rows[k] ==> after[v] == before[v]
    ensures RowPlaced(after, rows, size, m)
  {
    hide BoxAt, Sized, Distinct;
    forall j | 0 <= j < |rows[m]|
      ensures rows[m][j] in after && after[rows[m][j]] == Point(BoxAt(rows, size, m, j).x, BoxAt(rows, size, m, j).y)
    {
      assert rows[m][j] in rows[m];
    }
  }

  method PlaceRows(byId: NodeMap, ghost nodes: set<NodeView>, rows: Rows, size: Sizes, width: real)
    requires Covers(byId, nodes) && RowsDisjoint(rows) && Sized(rows, size) && SizesSet(byId, nodes, size)
    requires width == BlockWidth(rows, size)
    requires forall k, v :: 0 <= k < |rows| && v in rows[k] ==> v in byId
    modifies nodes`x, nodes`y
    ensures forall k :: 0 <= k < |rows| ==> RowPlaced(Corners(byId, nodes), rows, size, k)
  {
    hide RowPlaced, XAt, BlockWidth, Distinct;
    var y := 0.0;
    for k := 0 to |rows|
      invariant y == RowTop(rows, size, k)
      invariant forall m :: 0 <= m < k ==> RowPlaced(Corners(byId, nodes), rows, size, m)
    {
      ghost var before := Corners(byId, nodes);
      var height := RowHeight(rows[k], size);
      PlaceRow(byId, nodes, rows[k], size, width, y, height);
      RowPlacedNow(Corners(byId, nodes), rows, size, k);
      forall m | 0 <= m < k ensures RowPlaced(Corners(byId, nodes), rows, size, m) {
        EarlierRowPlaced(before, Corners(byId, nodes), rows, size, k, m);
      }
      y := y + height + GAP_Y;
    }
  }

  method SizeNodes(nodes: seq<NodeView>)
    requires Distinct(Ids(nodes))
    modifies nodes
    ensures forall n :: n in nodes ==> n.w == SizeOf(n).w && n.h == SizeOf(n).h
  {
    for i := 0 to |nodes|
      invariant forall j :: 0 <= j < i ==> nodes[j].w == SizeOf(nodes[j]).w && nodes[j].h == SizeOf(nodes[j]).h
    {
      nodes[i].w := NodeWidth(nodes[i].role, nodes[i].text);
      nodes[i].h := if nodes[i].role != Node then TERMINAL_SIZE else NODE_H;
    }
  }

  // ---- Routing edges -------------------------------------------------------------------

  ghost function EndBox(byId: NodeMap, nodes: set<NodeView>, v: Id): Box
    requires Covers(byId, nodes) && v in byId
    reads nodes
  {
    byId[v].Shape()
  }

  ghost predicate Routed(byId: NodeMap, nodes: set<NodeView>, back: set<Arrow>, width: real, e: EdgeView)
    requires Covers(byId, nodes) && e.source in byId && e.target in byId
    reads nodes, e
  {
    e.points == EdgePoints(Arrow(e.source, e.target), back, EndBox(byId, nodes, e.source),
                           EndBox(byId, nodes, e.target), width)
  }

  method RouteEdge(byId: NodeMap, ghost nodes: set<NodeView>, back: set<Arrow>, width: real, edge: EdgeView)
    requires Covers(byId, nodes) && edge.source in byId && edge.target in byId
    modifies edge
    ensures Routed(byId, nodes, back, width, edge)
  {
    var source, target := byId[edge.source], byId[edge.target];
    if edge.source == edge.target {
      // A self-loop leaves and re-enters on the right, 40 wide.
      var rx, cy := source.x + source.w, source.y + source.h / 2.0;
      edge.points := [Point(rx, cy - 8.0), Point(rx + 40.0, cy - 22.0), Point(rx + 40.0, cy + 22.0), Point(rx, cy + 8.0)];
    } else if Arrow(edge.source, edge.target) in back {
      // A back edge climbs outside the block, 48 clear of it.
      var sx, sy := source.x + source.w, source.y + source.h / 2.0;
      var tx, ty := target.x + target.w, target.y + target.h / 2.0;
      var arcX := width + 48.0;
      edge.points := [Point(sx, sy), Point(arcX, sy), Point(arcX, ty), Point(tx, ty)];
    } else {
      var sx, sy := source.x + source.w / 2.0, source.y + source.h;
      var tx, ty := target.x + target.w / 2.0, target.y;
      var bend := Min(GAP_Y / 2.0, Max(12.0, (ty - sy) / 2.0));
      edge.points := [Point(sx, sy), Point(sx, sy + bend), Point(tx, ty - bend), Point(tx, ty)];
    }
  }

  method RouteEdges(byId: NodeMap, ghost nodes: set<NodeView>, back: set<Arrow>, width: real, edges: seq<EdgeView>)
    requires Covers(byId, nodes)
    modifies edges
    ensures forall e :: e in edges && e.source in byId && e.target in byId ==> Routed(byId, nodes, back, width, e)
    ensures forall e :: e in edges && !(e.source in byId && e.target in byId) ==> e.points == old(e.points)
  {
    hide Routed;
    for i := 0 to |edges|
      invariant forall j :: 0 <= j < i && edges[j].source in byId && edges[j].target in byId ==>
        Routed(byId, nodes, back, width, edges[j])
      invariant forall j :: 0 <= j < |edges| && !(edges[j].source in byId && edges[j].target in byId) ==>
        edges[j].points == old(edges[j].points)
    {
      if edges[i].source in byId && edges[i].target in byId {
        RouteEdge(byId, nodes, back, width, edges[i]);
      }
    }
  }

  // ---- A whole scope -------------------------------------------------------------------

  function ShiftBox(b: Box, dx: real, dy: real): Box {
    Box(b.x + dx, b.y + dy, b.w, b.h)
  }

  function ShiftPoints(points: seq<Point>, dx: real, dy: real): seq<Point> {
    seq(|points|, i requires 0 <= i < |points| => Point(points[i].x + dx, points[i].y + dy))
  }

  ghost function NodeSet(nodes: seq<NodeView>): set<NodeView> {
    set n | n in nodes
  }

  function Pairs(nodes: seq<NodeView>, edges: seq<EdgeView>): seq<Arrow> {
    Inside(Ids(nodes), Arrows(edges))
  }

  ghost predicate ScopePlan(nodes: seq<NodeView>, edges: seq<EdgeView>, plan: Plan) {
    && Distinct(Ids(nodes))
    && IsPlan(Ids(nodes), Pairs(nodes, edges), plan)
    && forall v :: v in Ids(nodes) ==> Located(plan, SizesOf(nodes), v)
  }

  ghost predicate NodesLaid(nodes: seq<NodeView>, edges: seq<EdgeView>, plan: Plan, dx: real, dy: real)
    requires ScopePlan(nodes, edges, plan)
    reads nodes
  {
    forall n :: n in nodes ==>
      n.id in Ids(nodes) && n.Shape() == ShiftBox(BoxFor(plan, SizesOf(nodes), n.id), dx, dy)
  }

  ghost function PlannedPoints(nodes: seq<NodeView>, edges: seq<EdgeView>, plan: Plan, e: EdgeView): seq<Point>
    requires ScopePlan(nodes, edges, plan) && e.source in Ids(nodes) && e.target in Ids(nodes)
  {
    var size := SizesOf(nodes);
    EdgePoints(Arrow(e.source, e.target), plan.back, BoxFor(plan, size, e.source), BoxFor(plan, size, e.target),
               BlockWidth(plan.rows, size))
  }

  ghost predicate EdgesLaid(nodes: seq<NodeView>, edges: seq<EdgeView>, plan: Plan, dx: real, dy: real)
    requires ScopePlan(nodes, edges, plan)
    reads edges
  {
    forall e :: e in edges && e.source in Ids(nodes) && e.target in Ids(nodes) ==>
      e.points == ShiftPoints(PlannedPoints(nodes, edges, plan, e), dx, dy)
  }

  lemma PlanIsScopePlan(nodes: seq<NodeView>, edges: seq<EdgeView>, plan: Plan)
    requires Distinct(Ids(nodes)) && IsPlan(Ids(nodes), Pairs(nodes, edges), plan)
    ensures ScopePlan(nodes, edges, plan) && Sized(plan.rows, SizesOf(nodes)) && RowsDisjoint(plan.rows)
    ensures forall k, v :: 0 <= k < |plan.rows| && v in plan.rows[k] ==> v in Ids(nodes)
  {
    hide IsPlan;
    var ids, pairs := Ids(nodes), Pairs(nodes, edges);
    PlanSized(nodes, pairs, plan);
    forall v | v in ids ensures Located(plan, SizesOf(nodes), v) {
      assert v in plan.rank by { PlanRanks(ids, pairs, plan); }
      PlanRowOf(ids, pairs, plan, v);
    }
    forall k | 0 <= k < |plan.rows|
      ensures Distinct(plan.rows[k]) && forall v :: v in plan.rows[k] <==> v in ids && v in plan.rank && plan.rank[v] == k
    {
      PlanRanks(ids, pairs, plan);
      PlanRow(ids, pairs, plan, k);
    }
  }

  lemma PlanRanks(ids: seq<Id>, pairs: seq<Arrow>, plan: Plan)
    requires IsPlan(ids, pairs, plan)
    ensures forall v :: v in plan.rank <==> v in ids
  {
  }

  /** The node at its place in the rows is the node in its box. */
  lemma PlacedIsLaid(nodes: seq<NodeView>, edges: seq<EdgeView>, plan: Plan, corners: map<Id, Point>, v: Id)
    requires ScopePlan(nodes, edges, plan) && v in Ids(nodes) && v in corners
    requires forall k :: 0 <= k < |plan.rows| ==> RowPlaced(corners, plan.rows, SizesOf(nodes), k)
    ensures var b := BoxFor(plan, SizesOf(nodes), v);
      corners[v] == Point(b.x, b.y) && b.w == SizesOf(nodes)[v].w && b.h == SizesOf(nodes)[v].h
  {
    assert RowPlaced(corners, plan.rows, SizesOf(nodes), plan.rank[v]);
  }

  method PlaceScope(nodes: seq<NodeView>, edges: seq<EdgeView>)
    returns (width: real, height: real, ghost plan: Plan)
    requires Distinct(Ids(nodes))
    modifies nodes, edges
    ensures ScopePlan(nodes, edges, plan)
    ensures width == BlockWidth(plan.rows, SizesOf(nodes)) && height == BlockHeight(plan.rows, SizesOf(nodes))
    ensures NodesLaid(nodes, edges, plan, 0.0, 0.0) && EdgesLaid(nodes, edges, plan, 0.0, 0.0)
    ensures forall e :: e in edges && !(e.source in Ids(nodes) && e.target in Ids(nodes)) ==> e.points == old(e.points)
  {
    hide IsPlan, NodesLaid, EdgesLaid, ScopePlan, Routed, Distinct;
    var drawn := MakePlan(Ids(nodes), edges);
    plan := drawn;
    PlanIsScopePlan(nodes, edges, plan);
    width, height := PlaceNodes(nodes, edges, drawn);
    RouteEdges(ById(nodes), NodeSet(nodes), drawn.back, width, edges);
    RoutesArePlanned(nodes, edges, plan, width);
  }

  method PlaceNodes(nodes: seq<NodeView>, ghost edges: seq<EdgeView>, plan: Plan) returns (width: real, height: real)
    requires ScopePlan(nodes, edges, plan) && Sized(plan.rows, SizesOf(nodes)) && RowsDisjoint(plan.rows)
    requires forall k, v :: 0 <= k < |plan.rows| && v in plan.rows[k] ==> v in Ids(nodes)
    modifies nodes
    ensures width == BlockWidth(plan.rows, SizesOf(nodes)) && height == BlockHeight(plan.rows, SizesOf(nodes))
    ensures NodesLaid(nodes, edges, plan, 0.0, 0.0) && Covers(ById(nodes), NodeSet(nodes))
  {
    hide IsPlan, RowPlaced, RowsDisjoint, Distinct, BlockWidth, BlockHeight, NodesLaid, Located;
    var size := SizesOf(nodes);
    SizeNodes(nodes);
    SizesAreSet(nodes);
    width := BlockWidth(plan.rows, size);
    PlaceRows(ById(nodes), NodeSet(nodes), plan.rows, size, width);
    height := BlockHeight(plan.rows, size);
    CornersAreBoxes(nodes, edges, plan);
  }

  lemma SizesAreSet(nodes: seq<NodeView>)
    requires Distinct(Ids(nodes))
    requires forall n :: n in nodes ==> n.w == SizeOf(n).w && n.h == SizeOf(n).h
    ensures Covers(ById(nodes), NodeSet(nodes)) && SizesSet(ById(nodes), NodeSet(nodes), SizesOf(nodes))
  {
    var byId := ById(nodes);
    forall v | v in byId
      ensures v in SizesOf(nodes) && SizesOf(nodes)[v].w == byId[v].w && SizesOf(nodes)[v].h == byId[v].h
    {
      var i :| 0 <= i < |nodes| && nodes[i] == byId[v];
      SizesOfNode(nodes, i);
    }
  }

  lemma CornersAreBoxes(nodes: seq<NodeView>, edges: seq<EdgeView>, plan: Plan)
    requires ScopePlan(nodes, edges, plan)
    requires forall n :: n in nodes ==> n.w == SizeOf(n).w && n.h == SizeOf(n).h
    requires Covers(ById(nodes), NodeSet(nodes))
    requires forall k :: 0 <= k < |plan.rows| ==>
      Sized(plan.rows, SizesOf(nodes)) && RowPlaced(Corners(ById(nodes), NodeSet(nodes)), plan.rows, SizesOf(nodes), k)
    ensures NodesLaid(nodes, edges, plan, 0.0, 0.0)
  {
    var corners := Corners(ById(nodes), NodeSet(nodes));
    forall n | n in nodes ensures n.id in Ids(nodes) && n.Shape() == ShiftBox(BoxFor(plan, SizesOf(nodes), n.id), 0.0, 0.0) {
      var i :| 0 <= i < |nodes| && nodes[i] == n;
      assert Ids(nodes)[i] == n.id;
      ByIdNode(nodes, n);
      SizesOfNode(nodes, i);
      PlacedIsLaid(nodes, edges, plan, corners, n.id);
    }
  }

  lemma RoutesArePlanned(nodes: seq<NodeView>, edges: seq<EdgeView>, plan: Plan, width: real)
    requires ScopePlan(nodes, edges, plan) && Covers(ById(nodes), NodeSet(nodes))
    requires Sized(plan.rows, SizesOf(nodes)) && width == BlockWidth(plan.rows, SizesOf(nodes))
    requires NodesLaid(nodes, edges, plan, 0.0, 0.0)
    requires forall e :: e in edges && e.source in ById(nodes) && e.target in ById(nodes) ==>
      Routed(ById(nodes), NodeSet(nodes), plan.back, width, e)
    ensures EdgesLaid(nodes, edges, plan, 0.0, 0.0)
  {
    hide IsPlan, NodesLaid, Routed, Sized, Located;
    forall e | e in edges && e.source in Ids(nodes) && e.target in Ids(nodes)
      ensures e.points == ShiftPoints(PlannedPoints(nodes, edges, plan, e), 0.0, 0.0)
    {
      RouteIsPlanned(nodes, edges, plan, width, e);
    }
  }

  lemma RouteIsPlanned(nodes: seq<NodeView>, edges: seq<EdgeView>, plan: Plan, width: real, e: EdgeView)
    requires ScopePlan(nodes, edges, plan) && Covers(ById(nodes), NodeSet(nodes))
    requires Sized(plan.rows, SizesOf(nodes)) && width == BlockWidth(plan.rows, SizesOf(nodes))
    requires NodesLaid(nodes, edges, plan, 0.0, 0.0)
    requires e.source in Ids(nodes) && e.target in Ids(nodes)
    requires Routed(ById(nodes), NodeSet(nodes), plan.back, width, e)
    ensures e.points == ShiftPoints(PlannedPoints(nodes, edges, plan, e), 0.0, 0.0)
  {
    hide IsPlan, Located, Sized, Distinct;
    var s, t := ById(nodes)[e.source], ById(nodes)[e.target];
    assert s in nodes && t in nodes;
    assert s.Shape() == BoxFor(plan, SizesOf(nodes), e.source);
    assert t.Shape() == BoxFor(plan, SizesOf(nodes), e.target);
  }
}
