/** Longest-path ranks by repeatedly dequeuing nodes without pending inputs (grapharc/observe/layout.py). */
module Ranking {
  import opened Digraph
  import opened DepthFirst
  import opened Seqs

  ghost function ArrowSet(edges: seq<Arrow>): set<Arrow> {
    set e | e in edges
  }

  // ---- What a rank is ------------------------------------------------------------------

  /** Each edge raises the rank, and a positive rank is witnessed by an edge that raises it by one. */
  ghost predicate Tight(forward: seq<Arrow>, rank: map<Id, nat>) {
    && (forall e :: e in forward ==> e.source in rank && e.target in rank && rank[e.source] < rank[e.target])
    && (forall v :: v in rank && rank[v] > 0 ==> HasTightInput(forward, rank, v))
  }

  ghost predicate HasTightInput(forward: seq<Arrow>, rank: map<Id, nat>, v: Id)
    requires v in rank
  {
    exists e :: e in forward && e.target == v && e.source in rank && rank[v] == rank[e.source] + 1
  }

  /** `rank[v]` is the number of edges on a longest path that ends in `v`. */
  ghost predicate IsLongestPathRank(forward: seq<Arrow>, rank: map<Id, nat>) {
    && (forall p: seq<Id> :: IsPath(ArrowSet(forward), p) && p[|p| - 1] in rank ==> |p| - 1 <= rank[p[|p| - 1]])
    && (forall v :: v in rank ==>
          exists p: seq<Id> :: IsPath(ArrowSet(forward), p) && p[|p| - 1] == v && |p| - 1 == rank[v])
  }

  lemma {:induction false} PathNoLongerThanRank(forward: seq<Arrow>, rank: map<Id, nat>, p: seq<Id>)
    requires Tight(forward, rank) && IsPath(ArrowSet(forward), p) && p[|p| - 1] in rank
    ensures |p| - 1 <= rank[p[|p| - 1]]
  {
    if |p| > 1 {
      var e := Arrow(p[|p| - 2], p[|p| - 1]);
      assert e in ArrowSet(forward);
      var q := p[..|p| - 1];
      assert IsPath(ArrowSet(forward), q);
      PathNoLongerThanRank(forward, rank, q);
    }
  }

  lemma {:induction false} PathOfRank(forward: seq<Arrow>, rank: map<Id, nat>, v: Id) returns (p: seq<Id>)
    requires Tight(forward, rank) && v in rank
    ensures IsPath(ArrowSet(forward), p) && p[|p| - 1] == v && |p| - 1 == rank[v]
    decreases rank[v]
  {
    if rank[v] == 0 {
      p := [v];
    } else {
      assert HasTightInput(forward, rank, v);
      var e :| e in forward && e.target == v && e.source in rank && rank[v] == rank[e.source] + 1;
      var q := PathOfRank(forward, rank, e.source);
      ExtendPath(ArrowSet(forward), q, v);
      p := q + [v];
    }
  }

  lemma TightIsLongest(forward: seq<Arrow>, rank: map<Id, nat>)
    requires Tight(forward, rank)
    ensures IsLongestPathRank(forward, rank)
  {
    forall p: seq<Id> | IsPath(ArrowSet(forward), p) && p[|p| - 1] in rank ensures |p| - 1 <= rank[p[|p| - 1]] {
      PathNoLongerThanRank(forward, rank, p);
    }
    forall v | v in rank
      ensures exists p: seq<Id> :: IsPath(ArrowSet(forward), p) && p[|p| - 1] == v && |p| - 1 == rank[v]
    {
      var p := PathOfRank(forward, rank, v);
    }
  }

  /** There is one longest-path rank. */
  lemma RanksAreUnique(forward: seq<Arrow>, rank: map<Id, nat>, rank': map<Id, nat>)
    requires Tight(forward, rank) && Tight(forward, rank') && forall v :: v in rank <==> v in rank'
    ensures rank == rank'
  {
    forall v | v in rank ensures rank[v] == rank'[v] {
      var p := PathOfRank(forward, rank, v);
      PathNoLongerThanRank(forward, rank', p);
      var q := PathOfRank(forward, rank', v);
      PathNoLongerThanRank(forward, rank, q);
    }
  }

  /** No rank between 0 and one in use is empty. */
  lemma {:induction false} NoRankSkipped(forward: seq<Arrow>, rank: map<Id, nat>, v: Id, k: nat) returns (u: Id)
    requires Tight(forward, rank) && v in rank && k <= rank[v]
    ensures u in rank && rank[u] == k
    decreases rank[v]
  {
    if k == rank[v] {
      u := v;
    } else {
      assert HasTightInput(forward, rank, v);
      var e :| e in forward && e.target == v && e.source in rank && rank[v] == rank[e.source] + 1;
      u := NoRankSkipped(forward, rank, e.source, k);
    }
  }

  // ---- Counting pending inputs ---------------------------------------------------------

  /** How many edges into `v` leave a node outside `done`. */
  ghost function Pending(forward: seq<Arrow>, done: set<Id>, v: Id): nat {
    if forward == [] then 0
    else (if forward[0].target == v && forward[0].source !in done then 1 else 0) + Pending(forward[1..], done, v)
  }

  lemma {:induction false} PendingAppend(forward: seq<Arrow>, e: Arrow, done: set<Id>, v: Id)
    ensures Pending(forward + [e], done, v)
         == Pending(forward, done, v) + if e.target == v && e.source !in done then 1 else 0
  {
    if forward == [] {
      assert [] + [e] == [e];
    } else {
      assert (forward + [e])[1..] == forward[1..] + [e];
      PendingAppend(forward[1..], e, done, v);
    }
  }

  lemma {:induction false} PendingWitness(forward: seq<Arrow>, done: set<Id>, v: Id)
    ensures Pending(forward, done, v) > 0 <==> exists e :: e in forward && e.target == v && e.source !in done
  {
    if forward != [] {
      PendingWitness(forward[1..], done, v);
      assert forward == [forward[0]] + forward[1..];
    }
  }

  /** The counter of `v` while the edges of `node` are being handled, the first `k` of `forward` so far. */
  ghost function Counter(forward: seq<Arrow>, done: set<Id>, node: Id, k: nat, v: Id): nat
    requires k <= |forward|
  {
    Pending(forward[..k], done + {node}, v) + Pending(forward[k..], done, v)
  }

  lemma CounterStep(forward: seq<Arrow>, done: set<Id>, node: Id, k: nat, v: Id)
    requires k < |forward| && node !in done
    ensures Counter(forward, done, node, k, v)
         == Counter(forward, done, node, k + 1, v) + if forward[k] == Arrow(node, v) then 1 else 0
  {
    assert forward[..k + 1] == forward[..k] + [forward[k]];
    PendingAppend(forward[..k], forward[k], done + {node}, v);
    assert forward[k..][1..] == forward[k + 1..];
  }

  // ---- The queue loop and its invariant ------------------------------------------------
  //
  // `order` lists every node that has been queued, dequeued nodes first; `done` holds the dequeued
  // nodes except `node`, the one whose edges are being handled, the first `k` of `forward` so far.

  ghost predicate Handled(forward: seq<Arrow>, done: set<Id>, node: Id, k: nat, j: nat)
    requires j < |forward|
  {
    forward[j].source in done || (forward[j].source == node && j < k)
  }

  ghost predicate HasHandledInput(forward: seq<Arrow>, done: set<Id>, node: Id, k: nat, rank: map<Id, nat>, v: Id)
    requires v in rank
  {
    exists j: nat :: j < |forward| && Handled(forward, done, node, k, j) && forward[j].target == v
                  && forward[j].source in rank && rank[v] == rank[forward[j].source] + 1
  }

  ghost predicate EndsRanked(forward: seq<Arrow>, rank: map<Id, nat>) {
    forall j: nat :: j < |forward| ==> forward[j].source in rank && forward[j].target in rank
  }

  ghost predicate HandledRaise(forward: seq<Arrow>, done: set<Id>, node: Id, k: nat, rank: map<Id, nat>)
    requires EndsRanked(forward, rank)
  {
    forall j: nat :: j < |forward| && Handled(forward, done, node, k, j) ==>
      rank[forward[j].source] < rank[forward[j].target]
  }

  ghost predicate RanksWitnessed(forward: seq<Arrow>, done: set<Id>, node: Id, k: nat, rank: map<Id, nat>) {
    forall v :: v in rank && rank[v] > 0 ==> HasHandledInput(forward, done, node, k, rank, v)
  }

  ghost predicate RankInv(forward: seq<Arrow>, done: set<Id>, node: Id, k: nat, rank: map<Id, nat>) {
    && EndsRanked(forward, rank)
    && HandledRaise(forward, done, node, k, rank)
    && RanksWitnessed(forward, done, node, k, rank)
  }

  ghost predicate CountInv(forward: seq<Arrow>, done: set<Id>, node: Id, k: nat, indegree: map<Id, nat>)
    requires k <= |forward|
  {
    forall v :: v in indegree ==> indegree[v] == Counter(forward, done, node, k, v)
  }

  ghost predicate OrderInv(order: seq<Id>, indegree: map<Id, nat>) {
    && Distinct(order)
    && (forall v :: v in order <==> v in indegree && indegree[v] == 0)
  }

  lemma RelaxRaises(forward: seq<Arrow>, done: set<Id>, node: Id, k: nat, rank: map<Id, nat>, raised: nat)
    requires EndsRanked(forward, rank) && HandledRaise(forward, done, node, k, rank)
    requires k < |forward| && forward[k].source == node
    requires forward[k].target !in done && forward[k].target != node
    requires raised >= rank[forward[k].target] && raised > rank[node]
    ensures EndsRanked(forward, rank[forward[k].target := raised])
    ensures HandledRaise(forward, done, node, k + 1, rank[forward[k].target := raised])
  {
    var rank' := rank[forward[k].target := raised];
    forall j: nat | j < |forward| && Handled(forward, done, node, k + 1, j)
      ensures rank'[forward[j].source] < rank'[forward[j].target]
    {
      assert j != k ==> Handled(forward, done, node, k, j);
    }
  }

  lemma RelaxWitnesses(forward: seq<Arrow>, done: set<Id>, node: Id, k: nat, rank: map<Id, nat>, raised: nat)
    requires RanksWitnessed(forward, done, node, k, rank) && k < |forward| && forward[k].source == node
    requires node in rank && forward[k].target in rank
    requires forward[k].target !in done && forward[k].target != node
    requires raised == rank[forward[k].target] || raised == rank[node] + 1
    ensures RanksWitnessed(forward, done, node, k + 1, rank[forward[k].target := raised])
  {
    var t := forward[k].target;
    var rank' := rank[t := raised];
    forall v | v in rank' && rank'[v] > 0 ensures HasHandledInput(forward, done, node, k + 1, rank', v) {
      if v == t && raised != rank[t] {
        assert Handled(forward, done, node, k + 1, k);
      } else {
        assert HasHandledInput(forward, done, node, k, rank, v);
        var j: nat :| j < |forward| && Handled(forward, done, node, k, j) && forward[j].target == v
                   && forward[j].source in rank && rank[v] == rank[forward[j].source] + 1;
        assert Handled(forward, done, node, k + 1, j);
      }
    }
  }

  lemma PassRank(forward: seq<Arrow>, done: set<Id>, node: Id, k: nat, rank: map<Id, nat>)
    requires RankInv(forward, done, node, k, rank) && k < |forward| && forward[k].source != node
    ensures RankInv(forward, done, node, k + 1, rank)
  {
    forall v | v in rank && rank[v] > 0 ensures HasHandledInput(forward, done, node, k + 1, rank, v) {
      assert HasHandledInput(forward, done, node, k, rank, v);
      var j: nat :| j < |forward| && Handled(forward, done, node, k, j) && forward[j].target == v
                 && forward[j].source in rank && rank[v] == rank[forward[j].source] + 1;
      assert Handled(forward, done, node, k + 1, j);
    }
  }

  lemma CountStep(forward: seq<Arrow>, done: set<Id>, node: Id, k: nat, indegree: map<Id, nat>)
    requires k < |forward| && node !in done && CountInv(forward, done, node, k, indegree)
    ensures forward[k].source != node ==> CountInv(forward, done, node, k + 1, indegree)
    ensures forward[k].source == node && forward[k].target in indegree ==>
      var t := forward[k].target;
      indegree[t] > 0 && CountInv(forward, done, node, k + 1, indegree[t := indegree[t] - 1])
  {
    forall v | v in indegree
      ensures indegree[v] == Counter(forward, done, node, k + 1, v) + if forward[k] == Arrow(node, v) then 1 else 0
    {
      CounterStep(forward, done, node, k, v);
    }
  }

  lemma OrderLower(order: seq<Id>, indegree: map<Id, nat>, v: Id)
    requires OrderInv(order, indegree) && v in indegree && indegree[v] > 0
    ensures v !in order
    ensures indegree[v] > 1 ==> OrderInv(order, indegree[v := indegree[v] - 1])
    ensures indegree[v] == 1 ==> OrderInv(order + [v], indegree[v := 0])
  {
  }

  method Relax(forward: seq<Arrow>, node: Id, ghost done: set<Id>, ghost order0: seq<Id>,
               rank0: map<Id, nat>, indegree0: map<Id, nat>, queue0: seq<Id>)
    returns (rank: map<Id, nat>, indegree: map<Id, nat>, queue: seq<Id>)
    requires RankInv(forward, done, node, 0, rank0) && CountInv(forward, done, node, 0, indegree0)
    requires OrderInv(order0, indegree0) && rank0.Keys == indegree0.Keys
    requires node !in done && node in order0 && forall v :: v in done ==> v in order0
    ensures RankInv(forward, done, node, |forward|, rank) && CountInv(forward, done, node, |forward|, indegree)
    ensures rank.Keys == indegree.Keys == rank0.Keys
    ensures queue0 <= queue && OrderInv(order0 + queue[|queue0|..], indegree)
  {
    hide OrderInv, CountInv, HandledRaise, RanksWitnessed;
    rank, indegree, queue := rank0, indegree0, queue0;
    assert order0 + queue[|queue0|..] == order0;
    for k := 0 to |forward|
      invariant RankInv(forward, done, node, k, rank) && CountInv(forward, done, node, k, indegree)
      invariant rank.Keys == indegree.Keys == rank0.Keys
      invariant queue0 <= queue && OrderInv(order0 + queue[|queue0|..], indegree)
    {
      CountStep(forward, done, node, k, indegree);
      if forward[k].source == node {
        var target := forward[k].target;
        OrderLower(order0 + queue[|queue0|..], indegree, target);
        var raised := if rank[target] > rank[node] + 1 then rank[target] else rank[node] + 1;
        RelaxRaises(forward, done, node, k, rank, raised);
        RelaxWitnesses(forward, done, node, k, rank, raised);
        rank := rank[target := raised];
        indegree := indegree[target := indegree[target] - 1];
        if indegree[target] == 0 {
          assert order0 + (queue + [target])[|queue0|..] == order0 + queue[|queue0|..] + [target];
          queue := queue + [target];
        }
      } else {
        PassRank(forward, done, node, k, rank);
      }
    }
  }

  // ---- Between two iterations of the queue loop ----------------------------------------

  lemma NextNode(forward: seq<Arrow>, done: set<Id>, node: Id, next: Id, rank: map<Id, nat>, indegree: map<Id, nat>)
    requires RankInv(forward, done, node, |forward|, rank) && CountInv(forward, done, node, |forward|, indegree)
    ensures RankInv(forward, done + {node}, next, 0, rank) && CountInv(forward, done + {node}, next, 0, indegree)
  {
    var done' := done + {node};
    forall j: nat | j < |forward|
      ensures Handled(forward, done, node, |forward|, j) <==> Handled(forward, done', next, 0, j)
    {
    }
    forall v | v in rank && rank[v] > 0 ensures HasHandledInput(forward, done', next, 0, rank, v) {
      assert HasHandledInput(forward, done, node, |forward|, rank, v);
    }
    forall v | v in indegree ensures indegree[v] == Counter(forward, done', next, 0, v) {
      assert forward[..|forward|] == forward[0..] == forward;
    }
  }

  lemma FirstNode(forward: seq<Arrow>, done: set<Id>, node: Id, next: Id, rank: map<Id, nat>, indegree: map<Id, nat>)
    requires RankInv(forward, done, node, 0, rank) && CountInv(forward, done, node, 0, indegree)
    ensures RankInv(forward, done, next, 0, rank) && CountInv(forward, done, next, 0, indegree)
  {
    forall v | v in rank && rank[v] > 0 ensures HasHandledInput(forward, done, next, 0, rank, v) {
      assert HasHandledInput(forward, done, node, 0, rank, v);
      var j: nat :| j < |forward| && Handled(forward, done, node, 0, j) && forward[j].target == v
                 && forward[j].source in rank && rank[v] == rank[forward[j].source] + 1;
      assert Handled(forward, done, next, 0, j);
    }
    forall v | v in indegree ensures indegree[v] == Counter(forward, done, next, 0, v) {
      assert Counter(forward, done, node, 0, v) == Counter(forward, done, next, 0, v) by {
        assert forward[..0] == [];
      }
    }
  }

  /** When the queue is empty nothing is left over: a node still waiting would have a waiting
      predecessor with a larger finishing number, and those numbers are bounded. */
  lemma {:induction false} NothingWaits(forward: seq<Arrow>, done: set<Id>, node: Id, indegree: map<Id, nat>,
                                        order: seq<Id>, pos: map<Id, nat>, v: Id)
    requires CountInv(forward, done, node, 0, indegree) && OrderInv(order, indegree)
    requires forall u :: u in order ==> u in done
    requires Descends(ArrowSet(forward), pos) && forall u :: u in pos ==> pos[u] < |pos|
    requires forall e :: e in forward ==> e.source in indegree
    requires v in indegree && v in pos
    ensures v in order
    decreases |pos| - pos[v]
  {
    if v !in order {
      assert forward[0..] == forward && forward[..0] == [];
      PendingWitness(forward, done, v);
      var e :| e in forward && e.target == v && e.source !in done;
      assert e in ArrowSet(forward);
      NothingWaits(forward, done, node, indegree, order, pos, e.source);
    }
  }

  lemma AllDequeued(forward: seq<Arrow>, done: set<Id>, node: Id, indegree: map<Id, nat>, order: seq<Id>, pos: map<Id, nat>)
    requires CountInv(forward, done, node, 0, indegree) && OrderInv(order, indegree)
    requires forall u :: u in order ==> u in done
    requires Descends(ArrowSet(forward), pos) && forall u :: u in pos ==> pos[u] < |pos|
    requires forall e :: e in forward ==> e.source in indegree
    ensures Distinct(order) && forall v :: v in order <==> v in indegree
    ensures forall v :: v in indegree ==> v in done
  {
    forall v | v in indegree ensures v in order {
      if v in pos {
        NothingWaits(forward, done, node, indegree, order, pos, v);
      } else {
        assert forward[0..] == forward && forward[..0] == [];
        PendingWitness(forward, done, v);
        assert forall e :: e in forward ==> e in ArrowSet(forward);
      }
    }
  }

  lemma AllHandled(forward: seq<Arrow>, done: set<Id>, node: Id, rank: map<Id, nat>)
    requires RankInv(forward, done, node, 0, rank) && forall v :: v in rank ==> v in done
    ensures Tight(forward, rank)
  {
    forall e | e in forward
      ensures e.source in rank && e.target in rank && rank[e.source] < rank[e.target]
    {
      var j: nat :| j < |forward| && forward[j] == e;
      assert Handled(forward, done, node, 0, j);
    }
    forall v | v in rank && rank[v] > 0 ensures HasTightInput(forward, rank, v) {
      assert HasHandledInput(forward, done, node, 0, rank, v);
    }
  }

  // ---- The whole function --------------------------------------------------------------

  /** The edges with both ends among `ids`. */
  function Inside(ids: seq<Id>, edges: seq<Arrow>): seq<Arrow> {
    Filter((e: Arrow) => e.source in ids && e.target in ids, edges)
  }

  function Forward(ids: seq<Id>, edges: seq<Arrow>, back: set<Arrow>): seq<Arrow> {
    Filter((e: Arrow) => e !in back && e.source in ids && e.target in ids, edges)
  }

  /** The targets of the edges out of `v`, one for each edge, in edge order. */
  function Below(edges: seq<Arrow>, v: Id): seq<Id> {
    if edges == [] then []
    else
      var e := edges[|edges| - 1];
      Below(edges[..|edges| - 1], v) + if e.source == v then [e.target] else []
  }

  function AdjacencyOf(ids: seq<Id>, edges: seq<Arrow>): Adjacency {
    map v | v in ids :: Below(Inside(ids, edges), v)
  }

  method BuildAdjacency(ids: seq<Id>, edges: seq<Arrow>) returns (adjacency: Adjacency)
    ensures adjacency == AdjacencyOf(ids, edges)
    ensures Edges(adjacency) == ArrowSet(Inside(ids, edges))
  {
    hide Edges, ArrowSet, Inside, IsEdge, Below;
    adjacency := map v | v in ids :: [];
    NoEdgesYet(ids, adjacency);
    for k := 0 to |edges|
      invariant forall v :: v in adjacency <==> v in ids
      invariant forall v :: v in ids ==> adjacency[v] == Below(Inside(ids, edges[..k]), v)
      invariant forall e :: IsEdge(adjacency, e) <==> e in edges[..k] && e.source in ids && e.target in ids
    {
      var e := edges[k];
      assert edges[..k + 1] == edges[..k] + [e];
      InsideOneMore(ids, edges[..k], e);
      if e.source in adjacency && e.target in adjacency {
        AddTarget(adjacency, e);
        adjacency := adjacency[e.source := adjacency[e.source] + [e.target]];
      }
    }
    assert edges[..|edges|] == edges;
    EdgesInside(ids, edges, adjacency);
  }

  lemma NoEdgesYet(ids: seq<Id>, adjacency: Adjacency)
    requires forall v :: v in adjacency ==> adjacency[v] == []
    ensures forall v :: Below(Inside(ids, []), v) == []
    ensures forall e :: !IsEdge(adjacency, e)
  {
  }

  function TargetFor(ids: seq<Id>, e: Arrow, v: Id): seq<Id> {
    if e.source in ids && e.target in ids && e.source == v then [e.target] else []
  }

  lemma InsideOneMore(ids: seq<Id>, edges: seq<Arrow>, e: Arrow)
    ensures forall v :: Below(Inside(ids, edges + [e]), v) == Below(Inside(ids, edges), v) + TargetFor(ids, e, v)
  {
    FilterLast((a: Arrow) => a.source in ids && a.target in ids, edges, e);
    var inside := Inside(ids, edges);
    assert (inside + [e])[..|inside|] == inside;
  }

  lemma EdgesInside(ids: seq<Id>, edges: seq<Arrow>, adjacency: Adjacency)
    requires forall e :: IsEdge(adjacency, e) <==> e in edges && e.source in ids && e.target in ids
    ensures Edges(adjacency) == ArrowSet(Inside(ids, edges))
  {
    assert forall e :: e in Edges(adjacency) <==> IsEdge(adjacency, e);
  }

  lemma AddTarget(adjacency: Adjacency, e: Arrow)
    requires e.source in adjacency
    ensures forall a :: IsEdge(adjacency[e.source := adjacency[e.source] + [e.target]], a)
                   <==> IsEdge(adjacency, a) || a == e
  {
  }

  method CountInputs(ids: seq<Id>, forward: seq<Arrow>) returns (indegree: map<Id, nat>)
    requires forall e :: e in forward ==> e.target in ids
    ensures forall v :: v in indegree <==> v in ids
    ensures forall v :: v in indegree ==> indegree[v] == Pending(forward, {}, v)
  {
    indegree := map v | v in ids :: 0;
    for k := 0 to |forward|
      invariant forall v :: v in indegree <==> v in ids
      invariant forall v :: v in indegree ==> indegree[v] == Pending(forward[..k], {}, v)
    {
      assert forward[..k + 1] == forward[..k] + [forward[k]];
      forall v ensures Pending(forward[..k + 1], {}, v)
                    == Pending(forward[..k], {}, v) + if forward[k].target == v then 1 else 0 {
        PendingAppend(forward[..k], forward[k], {}, v);
      }
      indegree := indegree[forward[k].target := indegree[forward[k].target] + 1];
    }
    assert forward[..|forward|] == forward;
  }

  lemma NothingDequeued(ids: seq<Id>, forward: seq<Arrow>, node: Id, rank: map<Id, nat>, indegree: map<Id, nat>)
    requires forall v :: v in indegree <==> v in ids
    requires forall v :: v in indegree ==> indegree[v] == Pending(forward, {}, v)
    requires forall e :: e in forward ==> e.source in ids && e.target in ids
    requires forall v :: v in rank <==> v in ids
    requires forall v :: v in rank ==> rank[v] == 0
    ensures RankInv(forward, {}, node, 0, rank) && CountInv(forward, {}, node, 0, indegree)
  {
    forall v | v in indegree ensures indegree[v] == Counter(forward, {}, node, 0, v) {
      assert forward[0..] == forward && forward[..0] == [];
    }
  }

  lemma FirstInQueue(dequeued: seq<Id>, queue: seq<Id>, indegree: map<Id, nat>)
    requires queue != [] && OrderInv(dequeued + queue, indegree)
    ensures queue[0] in indegree
    ensures queue[0] in dequeued + queue && queue[0] !in dequeued
    ensures forall v :: v in dequeued ==> v in dequeued + queue
  {
    var order := dequeued + queue;
    assert order[|dequeued|] == queue[0];
    assert forall i :: 0 <= i < |dequeued| ==> order[i] == dequeued[i];
  }

  lemma MoveToDequeued(dequeued: seq<Id>, next: Id, rest: seq<Id>, queue: seq<Id>)
    requires rest <= queue
    ensures dequeued + ([next] + rest) + queue[|rest|..] == dequeued + [next] + queue
  {
    assert queue == rest + queue[|rest|..];
  }

  lemma FirstQueue(ids: seq<Id>, indegree: map<Id, nat>)
    requires Distinct(ids) && forall v :: v in indegree <==> v in ids
    ensures OrderInv(Filter(v => v in indegree && indegree[v] == 0, ids), indegree)
  {
    FilterDistinct(v => v in indegree && indegree[v] == 0, ids);
  }

  method RankForward(ids: seq<Id>, forward: seq<Arrow>, ghost pos: map<Id, nat>)
    returns (rank: map<Id, nat>, ghost dequeued: seq<Id>)
    requires Distinct(ids) && forall e :: e in forward ==> e.source in ids && e.target in ids
    requires Descends(ArrowSet(forward), pos) && forall u :: u in pos ==> pos[u] < |pos|
    ensures forall v :: v in rank <==> v in ids
    ensures Tight(forward, rank)
    ensures Distinct(dequeued) && forall v :: v in dequeued <==> v in ids
  {
    hide RankInv, CountInv, Descends, Tight, OrderInv, Distinct;
    var indegree := CountInputs(ids, forward);
    rank := map v | v in ids :: 0;
    var queue := Filter(v => v in indegree && indegree[v] == 0, ids);
    assert OrderInv(queue, indegree) by {
      FirstQueue(ids, indegree);
    }
    dequeued := [];
    ghost var done: set<Id> := {};
    ghost var node: Id := *;
    NothingDequeued(ids, forward, node, rank, indegree);
    assert dequeued + queue == queue;
    while queue != []
      invariant rank.Keys == indegree.Keys && forall v :: v in rank <==> v in ids
      invariant RankInv(forward, done, node, 0, rank) && CountInv(forward, done, node, 0, indegree)
      invariant OrderInv(dequeued + queue, indegree)
      invariant forall v :: v in done <==> v in dequeued
      decreases indegree.Keys - done
    {
      ghost var order := dequeued + queue;
      var next := queue[0];
      assert queue == [next] + queue[1..];
      FirstInQueue(dequeued, queue, indegree);
      queue := queue[1..];
      FirstNode(forward, done, node, next, rank, indegree);
      node := next;
      ghost var rest := queue;
      rank, indegree, queue := Relax(forward, next, done, order, rank, indegree, queue);
      NextNode(forward, done, next, next, rank, indegree);
      MoveToDequeued(dequeued, next, rest, queue);
      done := done + {next};
      dequeued := dequeued + [next];
    }
    assert dequeued + queue == dequeued;
    AllDequeued(forward, done, node, indegree, dequeued, pos);
    AllHandled(forward, done, node, rank);
  }

  method Ranks(ids: seq<Id>, edges: seq<Arrow>)
    returns (rank: map<Id, nat>, back: set<Arrow>, ghost dequeued: seq<Id>)
    requires Distinct(ids)
    ensures IsMinimalCut(ArrowSet(Inside(ids, edges)), back)
    ensures IsSearchCut(ids, AdjacencyOf(ids, edges), back)
    ensures forall v :: v in rank <==> v in ids
    ensures Tight(Forward(ids, edges, back), rank)
    ensures IsLongestPathRank(Forward(ids, edges, back), rank)
    ensures Distinct(dequeued) && forall v :: v in dequeued <==> v in ids
  {
    hide IsMinimalCut, IsSearchCut, Descends, Tight, IsLongestPathRank;
    var adjacency := BuildAdjacency(ids, edges);
    ghost var finished;
    back, finished := BackEdges(ids, adjacency);
    var forward := Forward(ids, edges, back);
    assert ArrowSet(forward) == Edges(adjacency) - back;
    rank, dequeued := RankForward(ids, forward, finished);
    TightIsLongest(forward, rank);
  }
}
