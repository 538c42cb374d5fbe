/** A scope laid out at the origin (grapharc/observe/layout.py). */
module Scope {
  import opened Options
  import opened Digraph
  import opened DepthFirst
  import opened Ranking
  import opened RowOrder
  import opened Seqs
  import opened Sorting
  import opened Geometry

  datatype Role = Node | Start | End

  datatype Kind = Static | Conditional | Fanout | State

  class NodeView {
    const id: Id
    const text: string
    const cluster: Option<Id>
    const role: Role
    var x: real
    var y: real
    var w: real
    var h: real

    constructor (id: Id, text: string, cluster: Option<Id>, role: Role)
      ensures this.id == id && this.text == text && this.cluster == cluster && this.role == role
    {
      this.id, this.text, this.cluster, this.role := id, text, cluster, role;
      x, y, w, h := 0.0, 0.0, 0.0, 0.0;
    }

    ghost function Shape(): Box
      reads this
    {
      Box(x, y, w, h)
    }
  }

  class EdgeView {
    const source: Id
    const target: Id
    const kind: Kind
    var points: seq<Point>

    constructor (source: Id, target: Id, kind: Kind)
      ensures this.source == source && this.target == target && this.kind == kind && points == []
    {
      this.source, this.target, this.kind, points := source, target, kind, [];
    }
  }

  function NodeWidth(role: Role, text: string): real {
    if role != Node then TERMINAL_SIZE
    else Min(NODE_W_MAX, Max(NODE_W_MIN, 24.0 + 7.5 * |text| as real))
  }

  /** Terminals are squares of 28; nodes are 52 high, and as wide as their label needs from 150 to 230. */
  function SizeOf(n: NodeView): (s: Size)
    ensures IsNodeSize(s)
    ensures n.role != Node ==> s == Size(28.0, 28.0)
    ensures n.role == Node ==> s.h == 52.0 && 150.0 <= s.w <= 230.0
    ensures n.role == Node && s.w > 150.0 ==> s.w <= 24.0 + 7.5 * |n.text| as real
    ensures n.role == Node && s.w < 230.0 ==> s.w >= 24.0 + 7.5 * |n.text| as real
  {
    Size(NodeWidth(n.role, n.text), if n.role != Node then TERMINAL_SIZE else NODE_H)
  }

  function Ids(nodes: seq<NodeView>): seq<Id> {
    seq(|nodes|, i requires 0 <= i < |nodes| => nodes[i].id)
  }

  function SizesOf(nodes: seq<NodeView>): Sizes {
    if nodes == [] then map[]
    else SizesOf(nodes[..|nodes| - 1])[nodes[|nodes| - 1].id := SizeOf(nodes[|nodes| - 1])]
  }

  function Arrows(edges: seq<EdgeView>): seq<Arrow> {
    seq(|edges|, i requires 0 <= i < |edges| => Arrow(edges[i].source, edges[i].target))
  }

  lemma {:induction false} SizesOfNode(nodes: seq<NodeView>, i: nat)
    requires Distinct(Ids(nodes)) && i < |nodes|
    ensures nodes[i].id in SizesOf(nodes) && SizesOf(nodes)[nodes[i].id] == SizeOf(nodes[i])
  {
    var n := |nodes| - 1;
    if i < n {
      assert Ids(nodes[..n]) == Ids(nodes)[..n];
      SizesOfNode(nodes[..n], i);
      assert Ids(nodes)[i] != Ids(nodes)[n];
    }
  }

  // ---- The combinatorial part of the layout --------------------------------------------

  datatype Plan = Plan(back: set<Arrow>, rank: map<Id, nat>, rows: Rows)

  /** The edges that are not removed. */
  function Kept(pairs: seq<Arrow>, back: set<Arrow>): seq<Arrow> {
    Filter((e: Arrow) => e !in back, pairs)
  }

  /** Back edges are what the search removes: they cut every cycle and nothing else. Ranks are longest
      paths over the rest, and the rows are the ranks, swept into order in three passes, each row settled
      against the one above it. */
  ghost predicate IsPlan(ids: seq<Id>, pairs: seq<Arrow>, plan: Plan) {
    && IsMinimalCut(ArrowSet(pairs), plan.back) && IsSearchCut(ids, AdjacencyOf(ids, pairs), plan.back)
    && (forall v :: v in plan.rank <==> v in ids)
    && Tight(Forward(ids, pairs, plan.back), plan.rank)
    && plan.rows == Ordered(Kept(pairs, plan.back), RankRows(ids, plan.rank, RowCount(ids, plan.rank)))
    && SameRows(RankRows(ids, plan.rank, RowCount(ids, plan.rank)), plan.rows)
    && SweptThrice(ids, plan.rank, Kept(pairs, plan.back), plan.rows)
    && forall k :: 1 <= k < |plan.rows| ==> Settled(Kept(pairs, plan.back), plan.rows[k - 1], plan.rows[k])
  }

  method MakePlan(ids: seq<Id>, edges: seq<EdgeView>) returns (plan: Plan)
    requires Distinct(ids)
    ensures IsPlan(ids, Inside(ids, Arrows(edges)), plan)
  {
    hide IsMinimalCut, IsSearchCut, Tight, IsLongestPathRank, SameRows, SweptThrice, Settled, Ordered, RankRows;
    var pairs := Inside(ids, Arrows(edges));
    InsideTwice(ids, Arrows(edges));
    var rank, back, _ := Ranks(ids, pairs);
    var rows := OrderedRows(ids, rank, Kept(pairs, back));
    plan := Plan(back, rank, rows);
  }

  lemma {:induction false} InsideTwice(ids: seq<Id>, edges: seq<Arrow>)
    ensures Inside(ids, Inside(ids, edges)) == Inside(ids, edges)
  {
    if edges != [] {
      var front, e := edges[..|edges| - 1], edges[|edges| - 1];
      InsideTwice(ids, front);
      if e.source in ids && e.target in ids {
        FilterLast((a: Arrow) => a.source in ids && a.target in ids, Inside(ids, front), e);
      }
    }
  }

  /** A graph has one plan: the layout of the same topology is always the same. */
  lemma PlanIsDetermined(ids: seq<Id>, pairs: seq<Arrow>, plan: Plan, plan': Plan)
    requires IsPlan(ids, pairs, plan) && IsPlan(ids, pairs, plan')
    ensures plan == plan'
  {
    hide IsMinimalCut, IsSearchCut, Tight, SameRows, SweptThrice, Settled, Ordered, RankRows;
    SearchCutIsUnique(ids, AdjacencyOf(ids, pairs), plan.back, plan'.back);
    RanksAreUnique(Forward(ids, pairs, plan.back), plan.rank, plan'.rank);
  }

  lemma PlanRow(ids: seq<Id>, pairs: seq<Arrow>, plan: Plan, k: nat)
    requires Distinct(ids) && IsPlan(ids, pairs, plan) && k < |plan.rows|
    ensures Distinct(plan.rows[k])
    ensures forall v :: v in plan.rows[k] <==> v in ids && plan.rank[v] == k
  {
    hide IsMinimalCut, Tight, Settled, SweptThrice;
    var filled := RankRows(ids, plan.rank, RowCount(ids, plan.rank));
    RankRowsDistinct(ids, plan.rank, RowCount(ids, plan.rank));
    PermutationDistinct(filled[k], plan.rows[k]);
    SameElements(filled[k], plan.rows[k]);
  }

  lemma PlanRowOf(ids: seq<Id>, pairs: seq<Arrow>, plan: Plan, v: Id)
    requires Distinct(ids) && IsPlan(ids, pairs, plan) && v in ids
    ensures plan.rank[v] < |plan.rows| && v in plan.rows[plan.rank[v]]
  {
    hide IsMinimalCut, Tight, Settled, SweptThrice;
    PlanRow(ids, pairs, plan, plan.rank[v]);
  }

  /** No row is empty, unless the scope is. */
  lemma PlanRowNotEmpty(ids: seq<Id>, pairs: seq<Arrow>, plan: Plan, k: nat)
    requires Distinct(ids) && IsPlan(ids, pairs, plan) && ids != [] && k < |plan.rows|
    ensures plan.rows[k] != []
  {
    var v := RowCountReached(ids, plan.rank);
    var u := NoRankSkipped(Forward(ids, pairs, plan.back), plan.rank, v, k);
    PlanRow(ids, pairs, plan, k);
  }

  lemma {:induction false} RowCountReached(ids: seq<Id>, rank: map<Id, nat>) returns (v: Id)
    requires ids != [] && forall v :: v in ids ==> v in rank
    ensures v in ids && RowCount(ids, rank) == rank[v] + 1
  {
    var n := |ids| - 1;
    v := ids[n];
    if n > 0 && RowCount(ids, rank) != rank[ids[n]] + 1 {
      v := RowCountReached(ids[..n], rank);
    }
  }

  lemma PlanSized(nodes: seq<NodeView>, pairs: seq<Arrow>, plan: Plan)
    requires Distinct(Ids(nodes)) && IsPlan(Ids(nodes), pairs, plan)
    ensures Sized(plan.rows, SizesOf(nodes))
  {
    hide IsPlan, IsNodeSize, SizesOf;
    forall k, v | 0 <= k < |plan.rows| && v in plan.rows[k] ensures v in SizesOf(nodes) && IsNodeSize(SizesOf(nodes)[v]) {
      PlanRow(Ids(nodes), pairs, plan, k);
      var i :| 0 <= i < |nodes| && nodes[i].id == v;
      SizesOfNode(nodes, i);
    }
  }

  // ---- Where the plan puts a node ------------------------------------------------------

  ghost function Column(row: seq<Id>, v: Id): (j: nat)
    requires v in row
    ensures j < |row| && row[j] == v
  {
    var j :| 0 <= j < |row| && row[j] == v;
    j
  }

  ghost predicate Located(plan: Plan, size: Sizes, v: Id) {
    && Sized(plan.rows, size)
    && v in plan.rank && plan.rank[v] < |plan.rows| && v in plan.rows[plan.rank[v]]
  }

  ghost function BoxFor(plan: Plan, size: Sizes, v: Id): Box
    requires Located(plan, size, v)
  {
    BoxAt(plan.rows, size, plan.rank[v], Column(plan.rows[plan.rank[v]], v))
  }

  function EdgePoints(edge: Arrow, back: set<Arrow>, s: Box, t: Box, width: real): seq<Point> {
    if edge.source == edge.target then LoopPoints(s)
    else if edge in back then BackPoints(s, t, width)
    else ForwardPoints(s, t)
  }

  lemma BoxesForApart(plan: Plan, size: Sizes, u: Id, v: Id)
    requires Located(plan, size, u) && Located(plan, size, v) && u != v
    ensures Apart(BoxFor(plan, size, u), BoxFor(plan, size, v))
  {
    BoxesApart(plan.rows, size, plan.rank[u], Column(plan.rows[plan.rank[u]], u),
               plan.rank[v], Column(plan.rows[plan.rank[v]], v));
  }

  lemma BoxForInside(plan: Plan, size: Sizes, v: Id)
    requires Located(plan, size, v)
    ensures Within(BoxFor(plan, size, v), BlockWidth(plan.rows, size), BlockHeight(plan.rows, size))
    ensures BoxFor(plan, size, v).w >= TERMINAL_SIZE && BoxFor(plan, size, v).h >= TERMINAL_SIZE
  {
    BoxInside(plan.rows, size, plan.rank[v], Column(plan.rows[plan.rank[v]], v));
  }

  /** An edge that is not a back edge goes to a lower row. */
  lemma ForwardEdgeDescends(ids: seq<Id>, pairs: seq<Arrow>, plan: Plan, size: Sizes, e: Arrow)
    requires IsPlan(ids, pairs, plan) && e in pairs && e !in plan.back && e.source in ids && e.target in ids
    requires Located(plan, size, e.source) && Located(plan, size, e.target)
    ensures e.source != e.target
    ensures AboveBox(BoxFor(plan, size, e.source), BoxFor(plan, size, e.target), GAP_Y)
  {
    assert e in Forward(ids, pairs, plan.back);
    LaterRowIsBelow(plan.rows, size, plan.rank[e.source], Column(plan.rows[plan.rank[e.source]], e.source),
                    plan.rank[e.target], Column(plan.rows[plan.rank[e.target]], e.target));
  }

  lemma EdgeIsNear(ids: seq<Id>, pairs: seq<Arrow>, plan: Plan, size: Sizes, e: Arrow)
    requires IsPlan(ids, pairs, plan) && e in pairs && e.source in ids && e.target in ids
    requires Located(plan, size, e.source) && Located(plan, size, e.target)
    ensures var width := BlockWidth(plan.rows, size);
      Near(EdgePoints(e, plan.back, BoxFor(plan, size, e.source), BoxFor(plan, size, e.target), width),
           width, BlockHeight(plan.rows, size))
  {
    var width, height := BlockWidth(plan.rows, size), BlockHeight(plan.rows, size);
    var s, t := BoxFor(plan, size, e.source), BoxFor(plan, size, e.target);
    BoxForInside(plan, size, e.source);
    BoxForInside(plan, size, e.target);
    if e.source == e.target {
      LoopIsNear(s, width, height);
    } else if e in plan.back {
      BackIsNear(s, t, width, height);
    } else {
      ForwardEdgeDescends(ids, pairs, plan, size, e);
      ForwardIsNear(s, t, width, height);
    }
  }
}
