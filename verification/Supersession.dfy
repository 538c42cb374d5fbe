/** Keeping the supersession edges of a property graph in step with the columns they repeat
    (grapharc/memory/ladybug_store.py). Edges are a list: a graph may hold the same edge twice. */
module Supersession {
  import opened Options
  import opened Seqs
  import opened Sorting
  import opened Texts
  import opened Claims
  import opened Tables

  datatype Link = Link(from: Id, to: Id)

  type Nodes = map<Id, Row>

  function Superseder(nodes: Nodes, i: Id): Option<Id> {
    if i in nodes then nodes[i].claim.supersededBy else None
  }

  /** An edge belongs when both ends are stored and the column of its source names its target. */
  ghost predicate Belongs(nodes: Nodes, l: Link) {
    l.from in nodes && l.to in nodes && Superseder(nodes, l.from) == Some(l.to)
  }

  /** The edges are exactly one for each stored pair that the columns link. */
  ghost predicate Agrees(nodes: Nodes, edges: seq<Link>) {
    forall l :: multiset(edges)[l] == if Belongs(nodes, l) then 1 else 0
  }

  // ---- The three statements of the reconciliation --------------------------------------

  /** `coalesce(c.superseded_by, '')` */
  function Coalesce(superseder: Option<Id>): Id {
    if superseder.Some? then superseder.value else Text("")
  }

  /** Drop the edges out of `i` that end elsewhere than its column says. */
  function DropStale(nodes: Nodes, edges: seq<Link>, i: Id): seq<Link> {
    Filter((l: Link) => !(l.from == i && l.to != Coalesce(Superseder(nodes, i))), edges)
  }

  /** MERGE: create the edge unless it is there. */
  function Merge(edges: seq<Link>, l: Link): seq<Link> {
    if l in edges then edges else edges + [l]
  }

  function MergeForward(nodes: Nodes, edges: seq<Link>, i: Id): seq<Link> {
    var s := Superseder(nodes, i);
    if s.Some? && s.value in nodes then Merge(edges, Link(i, s.value)) else edges
  }

  ghost predicate Claimed(nodes: Nodes, done: set<Id>, i: Id, l: Link) {
    l.to == i && l.from in done && Superseder(nodes, l.from) == Some(i)
  }

  /** One edge at least for each node in `done` whose column names `i`; all others as before. */
  ghost predicate MergedBackward(nodes: Nodes, before: seq<Link>, after: seq<Link>, i: Id, done: set<Id>) {
    forall l :: multiset(after)[l] ==
      (if Claimed(nodes, done, i, l) && multiset(before)[l] == 0 then 1 else multiset(before)[l])
  }

  /** Create the edges into `i` that its predecessors have been waiting for, in any order. */
  method MergeBackward(nodes: Nodes, edges0: seq<Link>, i: Id) returns (edges: seq<Link>)
    ensures MergedBackward(nodes, edges0, edges, i, nodes.Keys)
  {
    edges := edges0;
    var done: set<Id> := {};
    while done != nodes.Keys
      invariant done <= nodes.Keys && MergedBackward(nodes, edges0, edges, i, done)
      decreases nodes.Keys - done
    {
      var c :| c in nodes.Keys && c !in done;
      MergeOne(nodes, edges0, edges, i, done, c);
      if Superseder(nodes, c) == Some(i) {
        edges := Merge(edges, Link(c, i));
      }
      done := done + {c};
    }
  }

  lemma MergeCounts(edges: seq<Link>, l: Link, m: Link)
    ensures multiset(Merge(edges, l))[m] == if m == l && multiset(edges)[m] == 0 then 1 else multiset(edges)[m]
  {
    assert l in edges <==> l in multiset(edges);
  }

  lemma MergeOne(nodes: Nodes, before: seq<Link>, after: seq<Link>, i: Id, done: set<Id>, c: Id)
    requires MergedBackward(nodes, before, after, i, done) && c !in done
    ensures MergedBackward(nodes, before, if Superseder(nodes, c) == Some(i) then Merge(after, Link(c, i)) else after, i, done + {c})
  {
    forall l ensures multiset(if Superseder(nodes, c) == Some(i) then Merge(after, Link(c, i)) else after)[l]
      == (if Claimed(nodes, done + {c}, i, l) && multiset(before)[l] == 0 then 1 else multiset(before)[l]) {
      MergeCounts(after, Link(c, i), l);
      assert multiset(after)[l] == (if Claimed(nodes, done, i, l) && multiset(before)[l] == 0 then 1 else multiset(before)[l]);
    }
  }

  // ---- What a write leaves behind ------------------------------------------------------

  /** The edge a write would forget to drop: the column is cleared, and the old edge ends at the
      claim whose id is the empty text, which the statement cannot tell from "no superseder". */
  ghost predicate LeavesStaleEdge(nodes: Nodes, edges: seq<Link>, i: Id) {
    Superseder(nodes, i).None? && Link(i, Text("")) in edges
  }

  lemma StaleCounts(nodes: Nodes, edges: seq<Link>, i: Id, l: Link)
    ensures multiset(DropStale(nodes, edges, i))[l]
         == if l.from == i && l.to != Coalesce(Superseder(nodes, i)) then 0 else multiset(edges)[l]
  {
    CountFilter((l: Link) => !(l.from == i && l.to != Coalesce(Superseder(nodes, i))), edges, l);
  }

  lemma ForwardCounts(nodes: Nodes, edges: seq<Link>, i: Id, l: Link)
    ensures multiset(MergeForward(nodes, edges, i))[l]
         == if l.from == i && Superseder(nodes, i) == Some(l.to) && l.to in nodes && multiset(edges)[l] == 0 then 1
            else multiset(edges)[l]
  {
    var s := Superseder(nodes, i);
    if s.Some? {
      MergeCounts(edges, Link(i, s.value), l);
    }
  }

  /** One write, from agreeing edges: every link ends up counted as it should, but for the one stale
      edge. `nodes` already holds the written claim; `before` is the graph without the write. */
  lemma ReconciledCount(before: Nodes, edges: seq<Link>, nodes: Nodes, after: seq<Link>, i: Id, l: Link)
    requires Agrees(before, edges) && i in nodes && nodes.Keys == before.Keys + {i}
    requires forall j :: j in before && j != i ==> nodes[j] == before[j]
    requires MergedBackward(nodes, MergeForward(nodes, DropStale(nodes, edges, i), i), after, i, nodes.Keys)
    ensures multiset(after)[l]
         == if l == Link(i, Text("")) && LeavesStaleEdge(nodes, edges, i) then 1
            else if Belongs(nodes, l) then 1 else 0
  {
    StaleCounts(nodes, edges, i, l);
    ForwardCounts(nodes, DropStale(nodes, edges, i), i, l);
    assert multiset(edges)[l] == if Belongs(before, l) then 1 else 0;
    assert l in edges <==> multiset(edges)[l] > 0;
  }

  /** After a write the edges agree with the columns if and only if it leaves no stale edge. */
  lemma ReconciledAgrees(before: Nodes, edges: seq<Link>, nodes: Nodes, after: seq<Link>, i: Id)
    requires Agrees(before, edges) && i in nodes && nodes.Keys == before.Keys + {i}
    requires forall j :: j in before && j != i ==> nodes[j] == before[j]
    requires MergedBackward(nodes, MergeForward(nodes, DropStale(nodes, edges, i), i), after, i, nodes.Keys)
    ensures Agrees(nodes, after) <==> !LeavesStaleEdge(nodes, edges, i)
  {
    forall l ensures multiset(after)[l]
      == if l == Link(i, Text("")) && LeavesStaleEdge(nodes, edges, i) then 1 else if Belongs(nodes, l) then 1 else 0 {
      ReconciledCount(before, edges, nodes, after, i, l);
    }
    if LeavesStaleEdge(nodes, edges, i) {
      assert !Belongs(nodes, Link(i, Text("")));
      assert multiset(after)[Link(i, Text(""))] == 1;
    }
  }

  /** A stale edge does happen: a claim superseded by the claim whose id is empty, stored again as
      current, keeps its edge through the reconciliation. */
  lemma StaleEdgeHappens(c: Claim, e: Claim, after: seq<Link>)
    requires e.id == Text("") && c.id != Text("") && c.supersededBy == Some(Text("")) && e.supersededBy.None?
    requires var before: Nodes := map[e.id := RowFor(x => x, e, 0), c.id := RowFor(x => x, c, 1)];
      var nodes := before[c.id := RowFor(x => x, c.(supersededBy := None, supersededAt := None), 1)];
      MergedBackward(nodes, MergeForward(nodes, DropStale(nodes, [Link(c.id, e.id)], c.id), c.id), after, c.id, nodes.Keys)
    ensures var before: Nodes := map[e.id := RowFor(x => x, e, 0), c.id := RowFor(x => x, c, 1)];
      var nodes := before[c.id := RowFor(x => x, c.(supersededBy := None, supersededAt := None), 1)];
      Agrees(before, [Link(c.id, e.id)]) && Link(c.id, e.id) in after && !Agrees(nodes, after)
  {
    var before: Nodes := map[e.id := RowFor(x => x, e, 0), c.id := RowFor(x => x, c, 1)];
    var nodes := before[c.id := RowFor(x => x, c.(supersededBy := None, supersededAt := None), 1)];
    ReconciledAgrees(before, [Link(c.id, e.id)], nodes, after, c.id);
    ReconciledCount(before, [Link(c.id, e.id)], nodes, after, c.id, Link(c.id, e.id));
    assert Link(c.id, e.id) in multiset(after);
  }

  /** Where no stored id is empty there is never a stale edge. */
  lemma NoEmptyIdNoStaleEdge(before: Nodes, edges: seq<Link>, nodes: Nodes, i: Id)
    requires Agrees(before, edges) && Text("") !in before
    ensures !LeavesStaleEdge(nodes, edges, i)
  {
    var l := Link(i, Text(""));
    assert multiset(edges)[l] == 0;
  }

  /** A claim stored for the first time leaves no stale edge either, whatever the ids are. */
  lemma NewIdNoStaleEdge(before: Nodes, edges: seq<Link>, nodes: Nodes, i: Id)
    requires Agrees(before, edges) && i !in before
    ensures !LeavesStaleEdge(nodes, edges, i)
  {
    var l := Link(i, Text(""));
    assert multiset(edges)[l] == 0;
  }

  /** The explicit CREATE of `supersede` never duplicates an edge, and with the column set the edges
      agree again. */
  lemma CreateAgrees(before: Nodes, edges: seq<Link>, oldId: Id, newId: Id, nodes: Nodes)
    requires Agrees(before, edges) && oldId in before && newId in before && Superseder(before, oldId).None?
    requires nodes.Keys == before.Keys && Superseder(nodes, oldId) == Some(newId)
    requires forall j :: j in before && j != oldId ==> nodes[j] == before[j]
    ensures Link(oldId, newId) !in edges && Agrees(nodes, edges + [Link(oldId, newId)])
  {
    var created := Link(oldId, newId);
    assert multiset(edges)[created] == 0;
    forall l ensures multiset(edges + [created])[l] == if Belongs(nodes, l) then 1 else 0 {
      assert multiset(edges)[l] == if Belongs(before, l) then 1 else 0;
    }
  }

  /** Two graphs over the same claims have the same edges, however they came about. */
  lemma AgreementDetermines(nodes: Nodes, edges: seq<Link>, nodes': Nodes, edges': seq<Link>)
    requires Agrees(nodes, edges) && Agrees(nodes', edges')
    requires nodes.Keys == nodes'.Keys && forall i :: i in nodes ==> nodes[i].claim == nodes'[i].claim
    ensures multiset(edges) == multiset(edges')
  {
    forall l ensures multiset(edges)[l] == multiset(edges')[l] {
      assert Belongs(nodes, l) <==> Belongs(nodes', l);
    }
  }

  // ---- Opening an older database -------------------------------------------------------

  ghost predicate HasEdge(edges: seq<Link>, i: Id) {
    exists k :: 0 <= k < |edges| && edges[k].from == i
  }

  /** A claim without a superseder takes it from an edge, if it has one; the database may answer any. */
  ghost predicate IsFilled(row: Row, edges: seq<Link>, i: Id, filled: Row) {
    if row.claim.supersededBy.None? && HasEdge(edges, i)
    then exists l :: l in edges && l.from == i && filled == FilledFrom(row, l)
    else filled == row
  }

  function FilledFrom(row: Row, l: Link): Row {
    row.(claim := row.claim.(supersededBy := Some(l.to)))
  }

  ghost predicate IsBackfill(nodes: Nodes, edges: seq<Link>, filled: Nodes) {
    filled.Keys == nodes.Keys && forall i :: i in nodes ==> IsFilled(nodes[i], edges, i, filled[i])
  }

  method Backfill(nodes: Nodes, edges: seq<Link>) returns (filled: Nodes)
    ensures IsBackfill(nodes, edges, filled)
  {
    hide IsFilled;
    filled := nodes;
    forall i | i in nodes ensures IsFilled(nodes[i], edges[..0], i, filled[i]) {
      NothingFilled(nodes[i], i);
    }
    for k := 0 to |edges|
      invariant IsBackfill(nodes, edges[..k], filled)
    {
      var l := edges[k];
      ghost var before := filled;
      if l.from in nodes && nodes[l.from].claim.supersededBy.None? {
        filled := filled[l.from := FilledFrom(nodes[l.from], l)];
      }
      assert edges[..k + 1] == edges[..k] + [l];
      forall i | i in nodes ensures IsFilled(nodes[i], edges[..k + 1], i, filled[i]) {
        FilledByOneMore(nodes[i], edges[..k], l, i, before[i]);
      }
    }
    assert edges[..|edges|] == edges;
  }

  lemma NothingFilled(row: Row, i: Id)
    ensures IsFilled(row, [], i, row)
  {
  }

  lemma FilledByOneMore(row: Row, edges: seq<Link>, l: Link, i: Id, filled: Row)
    requires IsFilled(row, edges, i, filled)
    ensures l.from == i && row.claim.supersededBy.None? ==> IsFilled(row, edges + [l], i, FilledFrom(row, l))
    ensures !(l.from == i && row.claim.supersededBy.None?) ==> IsFilled(row, edges + [l], i, filled)
  {
    assert (edges + [l])[|edges|] == l;
    assert l.from != i ==> (HasEdge(edges + [l], i) <==> HasEdge(edges, i)) by {
      if HasEdge(edges, i) {
        var k :| 0 <= k < |edges| && edges[k].from == i;
        assert (edges + [l])[k].from == i;
      }
    }
  }

  /** Each claim has at most one edge, to what its column names if it names anything; and a column that
      names a stored claim has its edge. */
  ghost predicate Migratable(nodes: Nodes, edges: seq<Link>) {
    && Distinct(edges) && (forall l, m :: l in edges && m in edges && l.from == m.from ==> l == m)
    && (forall l :: l in edges && Superseder(nodes, l.from).Some? ==> Superseder(nodes, l.from) == Some(l.to))
    && forall i :: i in nodes && Superseder(nodes, i).Some? && Superseder(nodes, i).value in nodes ==>
         Link(i, Superseder(nodes, i).value) in edges
  }

  /** The backfill brings columns and edges into agreement if and only if the database is migratable. */
  lemma BackfillAgreesIff(nodes: Nodes, edges: seq<Link>, filled: Nodes)
    requires IsBackfill(nodes, edges, filled) && forall l :: l in edges ==> l.from in nodes && l.to in nodes
    ensures Agrees(filled, edges) <==> Migratable(nodes, edges)
  {
    hide IsFilled;
    if Migratable(nodes, edges) {
      forall l ensures multiset(edges)[l] == if Belongs(filled, l) then 1 else 0 {
        CountedOnce(edges, l);
        if l in edges {
          EdgeBelongs(nodes, edges, filled, l);
        } else if Belongs(filled, l) {
          BelongsIsEdge(nodes, edges, filled, l);
        }
      }
    }
    if Agrees(filled, edges) {
      AgreementIsMigratable(nodes, edges, filled);
    }
  }

  lemma EdgeBelongs(nodes: Nodes, edges: seq<Link>, filled: Nodes, l: Link)
    requires IsBackfill(nodes, edges, filled) && Migratable(nodes, edges)
    requires l in edges && l.from in nodes && l.to in nodes
    ensures Belongs(filled, l)
  {
    var k :| 0 <= k < |edges| && edges[k] == l;
    assert HasEdge(edges, l.from) && IsFilled(nodes[l.from], edges, l.from, filled[l.from]);
  }

  lemma BelongsIsEdge(nodes: Nodes, edges: seq<Link>, filled: Nodes, l: Link)
    requires IsBackfill(nodes, edges, filled) && Migratable(nodes, edges) && Belongs(filled, l)
    ensures l in edges
  {
    assert IsFilled(nodes[l.from], edges, l.from, filled[l.from]);
    if Superseder(nodes, l.from).Some? {
      assert l == Link(l.from, Superseder(nodes, l.from).value);
    }
  }

  /** A column that is already filled stays as it is. */
  lemma FilledStays(nodes: Nodes, edges: seq<Link>, filled: Nodes, i: Id)
    requires IsBackfill(nodes, edges, filled) && i in nodes && Superseder(nodes, i).Some?
    ensures filled[i] == nodes[i]
  {
    assert IsFilled(nodes[i], edges, i, filled[i]);
  }

  lemma AgreementIsMigratable(nodes: Nodes, edges: seq<Link>, filled: Nodes)
    requires IsBackfill(nodes, edges, filled) && Agrees(filled, edges)
    ensures Migratable(nodes, edges)
  {
    hide IsFilled;
    assert forall l :: multiset(edges)[l] <= 1;
    forall i, j | 0 <= i < j < |edges| ensures edges[i] != edges[j] {
      if edges[i] == edges[j] {
        TwiceCounts(edges, i, j);
      }
    }
    forall l | l in edges
      ensures Belongs(filled, l) && (Superseder(nodes, l.from).Some? ==> Superseder(nodes, l.from) == Some(l.to))
    {
      assert multiset(edges)[l] > 0;
      if Superseder(nodes, l.from).Some? {
        FilledStays(nodes, edges, filled, l.from);
      }
    }
    forall i | i in nodes && Superseder(nodes, i).Some? && Superseder(nodes, i).value in nodes
      ensures Link(i, Superseder(nodes, i).value) in edges
    {
      FilledStays(nodes, edges, filled, i);
      assert Belongs(filled, Link(i, Superseder(nodes, i).value));
      assert multiset(edges)[Link(i, Superseder(nodes, i).value)] == 1;
    }
  }

  /** A database that cannot be migrated: a column names a stored claim and no edge does, and the backfill
      adds no edge. */
  lemma ColumnWithoutEdge(a: Claim, b: Claim, filled: Nodes)
    requires a.id != b.id && a.supersededBy == Some(b.id)
    requires IsBackfill(map[a.id := RowFor(x => x, a, 0), b.id := RowFor(x => x, b, 1)], [], filled)
    ensures var nodes: Nodes := map[a.id := RowFor(x => x, a, 0), b.id := RowFor(x => x, b, 1)];
      !Migratable(nodes, []) && !Agrees(filled, [])
  {
    var nodes: Nodes := map[a.id := RowFor(x => x, a, 0), b.id := RowFor(x => x, b, 1)];
    assert a.id in nodes && Superseder(nodes, a.id) == Some(b.id);
    BackfillAgreesIff(nodes, [], filled);
  }
}
