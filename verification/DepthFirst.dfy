/** Depth-first back-edge removal with an explicit stack (grapharc/observe/layout.py). */
module DepthFirst {
  import opened Digraph

  type Adjacency = map<Id, seq<Id>>

  function Targets(adjacency: Adjacency, node: Id): seq<Id> {
    if node in adjacency then adjacency[node] else []
  }

  ghost predicate IsEdge(adjacency: Adjacency, e: Arrow) {
    e.target in Targets(adjacency, e.source)
  }

  ghost function Edges(adjacency: Adjacency): set<Arrow> {
    set u, v | u in adjacency && v in adjacency[u] :: Arrow(u, v)
  }

  /** What the removal is for. Without `back` no cycle is left, and nothing was removed needlessly:
      every removed edge is an edge whose end reaches its start along kept edges. */
  ghost predicate IsMinimalCut(edges: set<Arrow>, back: set<Arrow>) {
    && back <= edges
    && Acyclic(edges - back)
    && forall e :: e in back ==> Connects(edges - back, e.target, e.source)
  }

  /** Restoring any one removed edge re-creates a cycle. */
  lemma EveryRemovalIsNeeded(edges: set<Arrow>, back: set<Arrow>, removed: Arrow)
    requires IsMinimalCut(edges, back) && removed in back
    ensures Acyclic(edges - back) && !Acyclic(edges - back + {removed})
  {
    ClosingEdgeMakesCycle(edges - back, removed.source, removed.target);
  }

  // ---- The search state and its invariant ----------------------------------------------
  //
  // `finished` numbers the nodes in the order they leave the stack and `tree` holds the edges
  // that were followed. Both exist for the proof only.

  datatype Frame = Frame(node: Id, index: nat)

  ghost function Nodes(stack: seq<Frame>): seq<Id> {
    seq(|stack|, i requires 0 <= i < |stack| => stack[i].node)
  }

  ghost predicate Follows(path: seq<Id>, edge: Arrow) {
    exists i :: 0 <= i < |path| - 1 && path[i] == edge.source && path[i + 1] == edge.target
  }

  /** The nodes on the stack are distinct, they are `onPath`, and consecutive ones are joined by
      a followed edge, the only followed edge into the upper one. */
  ghost predicate PathInv(path: seq<Id>, onPath: set<Id>, tree: set<Arrow>) {
    && (forall i, j :: 0 <= i < j < |path| ==> path[i] != path[j])
    && (forall v :: v in onPath <==> v in path)
    && (forall i :: 0 <= i < |path| - 1 ==> Arrow(path[i], path[i + 1]) in tree)
    && (forall e :: e in tree && e.target in path ==> Follows(path, e))
  }

  ghost predicate StackIndices(adjacency: Adjacency, stack: seq<Frame>) {
    forall i :: 0 <= i < |stack| ==> stack[i].index <= |Targets(adjacency, stack[i].node)|
  }

  ghost predicate Coverage(visited: set<Id>, onPath: set<Id>, finished: map<Id, nat>) {
    && (forall v :: v in visited <==> v in finished || v in onPath)
    && (forall v :: v in finished ==> v !in onPath && finished[v] < |finished|)
  }

  /** Every edge of a finished node was removed or leads to a node that finished earlier. */
  ghost predicate FinishedOrder(adjacency: Adjacency, back: set<Arrow>, finished: map<Id, nat>) {
    forall e: Arrow :: e.source in finished && IsEdge(adjacency, e) ==>
      e in back || (e.target in finished && finished[e.target] < finished[e.source])
  }

  ghost predicate Resolved(e: Arrow, back: set<Arrow>, finished: map<Id, nat>) {
    e in back || e.target in finished
  }

  /** The edges already examined from a node on the stack: all but the one being followed are resolved. */
  ghost predicate Examined(adjacency: Adjacency, stack: seq<Frame>, back: set<Arrow>, finished: map<Id, nat>) {
    forall i, j :: 0 <= i < |stack| && 0 <= j < stack[i].index && j < |Targets(adjacency, stack[i].node)| ==>
      var v := Targets(adjacency, stack[i].node)[j];
      Resolved(Arrow(stack[i].node, v), back, finished) || (i + 1 < |stack| && v == stack[i + 1].node)
  }

  ghost predicate SeenEdges(adjacency: Adjacency, visited: set<Id>, edges: set<Arrow>) {
    forall e :: e in edges ==> IsEdge(adjacency, e) && e.source in visited && e.target in visited
  }

  ghost predicate BackClosesPath(back: set<Arrow>, tree: set<Arrow>) {
    forall e :: e in back ==> Connects(tree, e.target, e.source)
  }

  datatype Search = Search(
    back: set<Arrow>, visited: set<Id>, onPath: set<Id>, stack: seq<Frame>,
    finished: map<Id, nat>, tree: set<Arrow>)
  {
    ghost predicate StackInv(adjacency: Adjacency) {
      PathInv(Nodes(stack), onPath, tree) && StackIndices(adjacency, stack)
    }

    ghost predicate Inv(adjacency: Adjacency) {
      StackInv(adjacency) && EdgeInv(adjacency)
    }

    ghost predicate EdgeInv(adjacency: Adjacency) {
      && Coverage(visited, onPath, finished)
      && FinishedOrder(adjacency, back, finished)
      && Examined(adjacency, stack, back, finished)
      && SeenEdges(adjacency, visited, tree)
      && SeenEdges(adjacency, visited, back)
      && (forall e :: e in tree ==> e !in back)
      && BackClosesPath(back, tree)
    }
  }

  // ---- Path lemmas ---------------------------------------------------------------------

  lemma PopPath(path: seq<Id>, onPath: set<Id>, tree: set<Arrow>)
    requires path != [] && PathInv(path, onPath, tree)
    ensures PathInv(path[..|path| - 1], onPath - {path[|path| - 1]}, tree)
  {
    hide Follows;
    var n := |path| - 1;
    var path' := path[..n];
    assert path == path' + [path[n]];
    forall e | e in tree && e.target in path' ensures Follows(path', e) {
      FollowsBelow(path, e);
    }
  }

  lemma FollowsBelow(path: seq<Id>, e: Arrow)
    requires path != [] && Follows(path, e) && e.target in path[..|path| - 1]
    requires forall i, j :: 0 <= i < j < |path| ==> path[i] != path[j]
    ensures Follows(path[..|path| - 1], e)
  {
    var i :| 0 <= i < |path| - 1 && path[i] == e.source && path[i + 1] == e.target;
    assert path[..|path| - 1][i] == e.source;
  }

  lemma PushPath(path: seq<Id>, onPath: set<Id>, tree: set<Arrow>, target: Id)
    requires path != [] && PathInv(path, onPath, tree)
    requires target !in onPath && forall e :: e in tree ==> e.target != target
    ensures PathInv(path + [target], onPath + {target}, tree + {Arrow(path[|path| - 1], target)})
  {
    var n := |path|;
    var path', tree' := path + [target], tree + {Arrow(path[n - 1], target)};
    forall e | e in tree' && e.target in path' ensures Follows(path', e) {
      if e.target == target {
        assert path'[n - 1] == e.source && path'[n] == e.target;
      } else {
        assert Follows(path, e);
        var i :| 0 <= i < |path| - 1 && path[i] == e.source && path[i + 1] == e.target;
        assert path'[i] == e.source && path'[i + 1] == e.target;
      }
    }
  }

  /** The nodes on the stack form a path of followed edges. */
  lemma StackConnects(path: seq<Id>, onPath: set<Id>, tree: set<Arrow>, target: Id)
    requires path != [] && PathInv(path, onPath, tree) && target in onPath
    ensures Connects(tree, target, path[|path| - 1])
  {
    var k :| 0 <= k < |path| && path[k] == target;
    assert IsPathBetween(tree, path[k..], target, path[|path| - 1]);
  }

  // ---- Edge lemmas ---------------------------------------------------------------------

  lemma PopEdges(adjacency: Adjacency, stack: seq<Frame>, back: set<Arrow>, finished: map<Id, nat>)
    requires stack != [] && FinishedOrder(adjacency, back, finished) && Examined(adjacency, stack, back, finished)
    requires forall v :: v in finished ==> finished[v] < |finished|
    requires stack[|stack| - 1].node !in finished
    requires stack[|stack| - 1].index >= |Targets(adjacency, stack[|stack| - 1].node)|
    ensures FinishedOrder(adjacency, back, finished[stack[|stack| - 1].node := |finished|])
  {
    var n := |stack| - 1;
    var node := stack[n].node;
    forall e: Arrow | e.source == node && IsEdge(adjacency, e) ensures e in back || e.target in finished {
      var j :| 0 <= j < |Targets(adjacency, node)| && Targets(adjacency, node)[j] == e.target;
      assert Resolved(Arrow(stack[n].node, e.target), back, finished);
    }
  }

  lemma PopExamined(adjacency: Adjacency, stack: seq<Frame>, back: set<Arrow>, finished: map<Id, nat>)
    requires stack != [] && Examined(adjacency, stack, back, finished)
    ensures Examined(adjacency, stack[..|stack| - 1], back, finished[stack[|stack| - 1].node := |finished|])
  {
  }

  lemma PopCoverage(visited: set<Id>, onPath: set<Id>, finished: map<Id, nat>, node: Id)
    requires Coverage(visited, onPath, finished) && node in onPath
    ensures Coverage(visited, onPath - {node}, finished[node := |finished|])
  {
    var finished' := finished[node := |finished|];
    assert |finished'| == |finished| + 1;
  }

  lemma AdvanceExamined(adjacency: Adjacency, stack: seq<Frame>, back: set<Arrow>, finished: map<Id, nat>,
                        removed: set<Arrow>)
    requires stack != [] && Examined(adjacency, stack, back, finished)
    requires var top := stack[|stack| - 1];
      && top.index < |Targets(adjacency, top.node)|
      && Resolved(Arrow(top.node, Targets(adjacency, top.node)[top.index]), back + removed, finished)
    ensures var n := |stack| - 1;
      Examined(adjacency, stack[n := Frame(stack[n].node, stack[n].index + 1)], back + removed, finished)
  {
    var n := |stack| - 1;
    var stack' := stack[n := Frame(stack[n].node, stack[n].index + 1)];
    forall i, j | 0 <= i < |stack'| && 0 <= j < stack'[i].index && j < |Targets(adjacency, stack'[i].node)|
      ensures var v := Targets(adjacency, stack'[i].node)[j];
        Resolved(Arrow(stack'[i].node, v), back + removed, finished) || (i + 1 < |stack'| && v == stack'[i + 1].node)
    {
      assert stack'[i].node == stack[i].node;
      if !(i == n && j == stack[n].index) {
        assert j < stack[i].index;
      }
    }
  }

  lemma PushExamined(adjacency: Adjacency, stack: seq<Frame>, back: set<Arrow>, finished: map<Id, nat>, target: Id)
    requires stack != [] && Examined(adjacency, stack, back, finished)
    requires var top := stack[|stack| - 1];
      top.index < |Targets(adjacency, top.node)| && target == Targets(adjacency, top.node)[top.index]
    ensures var n := |stack| - 1;
      Examined(adjacency, stack[n := Frame(stack[n].node, stack[n].index + 1)] + [Frame(target, 0)], back, finished)
  {
    var n := |stack| - 1;
    var stack' := stack[n := Frame(stack[n].node, stack[n].index + 1)] + [Frame(target, 0)];
    forall i, j | 0 <= i < |stack'| && 0 <= j < stack'[i].index && j < |Targets(adjacency, stack'[i].node)|
      ensures var v := Targets(adjacency, stack'[i].node)[j];
        Resolved(Arrow(stack'[i].node, v), back, finished) || (i + 1 < |stack'| && v == stack'[i + 1].node)
    {
      assert i <= n && stack'[i].node == stack[i].node;
      if i == n && j == stack[n].index {
        assert stack'[i + 1].node == target;
      } else {
        assert j < stack[i].index;
      }
    }
  }

  lemma GrowTreePaths(back: set<Arrow>, tree: set<Arrow>, e: Arrow)
    requires BackClosesPath(back, tree)
    ensures BackClosesPath(back, tree + {e})
  {
    forall b | b in back ensures Connects(tree + {e}, b.target, b.source) {
      ConnectsMonotone(tree, tree + {e}, b.target, b.source);
    }
  }

  lemma SearchDone(adjacency: Adjacency, s: Search)
    requires s.EdgeInv(adjacency) && s.onPath == {} && adjacency.Keys <= s.visited
    ensures Descends(Edges(adjacency) - s.back, s.finished)
    ensures forall v :: v in s.finished ==> s.finished[v] < |s.finished|
    ensures IsMinimalCut(Edges(adjacency), s.back)
  {
    var kept := Edges(adjacency) - s.back;
    forall e | e in kept ensures e.source in s.finished && e.target in s.finished && s.finished[e.target] < s.finished[e.source] {
      assert IsEdge(adjacency, e);
    }
    DescendingIsAcyclic(kept, s.finished);
    forall e | e in s.back ensures Connects(kept, e.target, e.source) {
      ConnectsMonotone(s.tree, kept, e.target, e.source);
    }
  }

  lemma SeenMore(adjacency: Adjacency, visited: set<Id>, edges: set<Arrow>, more: set<Id>, e: Arrow)
    requires SeenEdges(adjacency, visited, edges)
    requires IsEdge(adjacency, e) && e.source in visited + more && e.target in visited + more
    ensures SeenEdges(adjacency, visited + more, edges) && SeenEdges(adjacency, visited + more, edges + {e})
  {
  }

  lemma RemovedIsFresh(path: seq<Id>, onPath: set<Id>, tree: set<Arrow>, e: Arrow)
    requires PathInv(path, onPath, tree) && path != [] && e.source == path[|path| - 1] && e.target in onPath
    ensures e !in tree
  {
  }

  lemma CloseMorePaths(back: set<Arrow>, tree: set<Arrow>, e: Arrow)
    requires BackClosesPath(back, tree) && Connects(tree, e.target, e.source)
    ensures BackClosesPath(back + {e}, tree)
  {
  }

  lemma RemoveKeepsOrder(adjacency: Adjacency, back: set<Arrow>, removed: set<Arrow>, finished: map<Id, nat>)
    requires FinishedOrder(adjacency, back, finished)
    ensures FinishedOrder(adjacency, back + removed, finished)
  {
  }

  lemma OnPathTarget(adjacency: Adjacency, s: Search, e: Arrow)
    requires s.Inv(adjacency) && e.target in s.onPath
    ensures e.target in s.visited
  {
  }

  lemma TopOfPath(adjacency: Adjacency, s: Search)
    requires s.Inv(adjacency) && s.stack != []
    ensures s.stack[|s.stack| - 1].node in s.onPath
    ensures s.stack[|s.stack| - 1].node in s.visited && s.stack[|s.stack| - 1].node !in s.finished
  {
    assert Nodes(s.stack)[|s.stack| - 1] in Nodes(s.stack);
  }

  lemma EmptyStack(adjacency: Adjacency, s: Search)
    requires s.Inv(adjacency) && s.stack == []
    ensures s.EdgeInv(adjacency) && s.onPath == {}
  {
    assert Nodes(s.stack) == [];
  }

  // ---- The four steps of the search ----------------------------------------------------

  ghost function Advanced(stack: seq<Frame>): seq<Frame>
    requires stack != []
  {
    stack[|stack| - 1 := Frame(stack[|stack| - 1].node, stack[|stack| - 1].index + 1)]
  }

  ghost predicate AtTarget(adjacency: Adjacency, stack: seq<Frame>, e: Arrow) {
    && stack != []
    && stack[|stack| - 1].node == e.source
    && stack[|stack| - 1].index < |Targets(adjacency, e.source)|
    && Targets(adjacency, e.source)[stack[|stack| - 1].index] == e.target
  }

  lemma AtTargetMeans(adjacency: Adjacency, stack: seq<Frame>, e: Arrow)
    requires AtTarget(adjacency, stack, e)
    ensures stack != [] && IsEdge(adjacency, e) && stack[|stack| - 1].node == e.source
    ensures stack[|stack| - 1].index < |Targets(adjacency, e.source)|
    ensures Targets(adjacency, e.source)[stack[|stack| - 1].index] == e.target
    ensures Nodes(stack) != [] && Nodes(stack)[|Nodes(stack)| - 1] == e.source
  {
  }

  lemma AdvanceFrames(adjacency: Adjacency, stack: seq<Frame>, e: Arrow)
    requires StackIndices(adjacency, stack) && AtTarget(adjacency, stack, e)
    ensures StackIndices(adjacency, Advanced(stack)) && Nodes(Advanced(stack)) == Nodes(stack)
    ensures StackIndices(adjacency, Advanced(stack) + [Frame(e.target, 0)])
    ensures Nodes(Advanced(stack) + [Frame(e.target, 0)]) == Nodes(stack) + [e.target]
  {
  }

  lemma StartStep(adjacency: Adjacency, s: Search, root: Id)
    requires s.EdgeInv(adjacency) && s.onPath == {} && s.stack == [] && root !in s.visited
    ensures s.(visited := s.visited + {root}, onPath := {root}, stack := [Frame(root, 0)]).Inv(adjacency)
  {
    assert Nodes([Frame(root, 0)]) == [root];
  }

  lemma LeaveStep(adjacency: Adjacency, s: Search)
    requires s.Inv(adjacency) && s.stack != []
    requires s.stack[|s.stack| - 1].index >= |Targets(adjacency, s.stack[|s.stack| - 1].node)|
    ensures var node := s.stack[|s.stack| - 1].node;
      s.(stack := s.stack[..|s.stack| - 1], onPath := s.onPath - {node},
      finished := s.finished[node := |s.finished|]).Inv(adjacency)
  {
    hide PathInv, FinishedOrder, Examined, SeenEdges, BackClosesPath;
    var path := Nodes(s.stack);
    TopOfPath(adjacency, s);
    assert Nodes(s.stack[..|s.stack| - 1]) == path[..|path| - 1];
    PopPath(path, s.onPath, s.tree);
    PopEdges(adjacency, s.stack, s.back, s.finished);
    PopExamined(adjacency, s.stack, s.back, s.finished);
    PopCoverage(s.visited, s.onPath, s.finished, path[|path| - 1]);
  }

  lemma RemoveStep(adjacency: Adjacency, s: Search, e: Arrow)
    requires s.Inv(adjacency) && AtTarget(adjacency, s.stack, e) && e.target in s.onPath
    ensures s.(stack := Advanced(s.stack), back := s.back + {e}).Inv(adjacency)
  {
    hide PathInv, FinishedOrder, Examined, SeenEdges, BackClosesPath, StackIndices, Coverage, AtTarget, IsEdge, Targets, Nodes;
    var path := Nodes(s.stack);
    AtTargetMeans(adjacency, s.stack, e);
    TopOfPath(adjacency, s);
    AdvanceFrames(adjacency, s.stack, e);
    OnPathTarget(adjacency, s, e);
    StackConnects(path, s.onPath, s.tree, e.target);
    AdvanceExamined(adjacency, s.stack, s.back, s.finished, {e});
    RemovedIsFresh(path, s.onPath, s.tree, e);
    CloseMorePaths(s.back, s.tree, e);
    RemoveKeepsOrder(adjacency, s.back, {e}, s.finished);
    SeenMore(adjacency, s.visited, s.back, {}, e);
    assert s.visited + {} == s.visited;
  }

  lemma SkipStep(adjacency: Adjacency, s: Search, e: Arrow)
    requires s.Inv(adjacency) && AtTarget(adjacency, s.stack, e) && e.target in s.visited - s.onPath
    ensures s.(stack := Advanced(s.stack)).Inv(adjacency)
  {
    hide PathInv, FinishedOrder, Examined, SeenEdges, BackClosesPath, StackIndices, AtTarget, IsEdge, Targets, Nodes;
    assert s.back + {} == s.back;
    AtTargetMeans(adjacency, s.stack, e);
    AdvanceFrames(adjacency, s.stack, e);
    AdvanceExamined(adjacency, s.stack, s.back, s.finished, {});
  }

  lemma EnterStep(adjacency: Adjacency, s: Search, e: Arrow)
    requires s.Inv(adjacency) && AtTarget(adjacency, s.stack, e) && e.target !in s.visited
    ensures s.(stack := Advanced(s.stack) + [Frame(e.target, 0)], visited := s.visited + {e.target},
      onPath := s.onPath + {e.target}, tree := s.tree + {e}).Inv(adjacency)
  {
    hide PathInv, FinishedOrder, Examined, SeenEdges, BackClosesPath, StackIndices, Coverage, AtTarget, IsEdge, Targets, Nodes;
    var path := Nodes(s.stack);
    AtTargetMeans(adjacency, s.stack, e);
    EnterIsFresh(adjacency, s, e);
    EnterCoverage(s.visited, s.onPath, s.finished, e.target);
    TopOfPath(adjacency, s);
    AdvanceFrames(adjacency, s.stack, e);
    PushPath(path, s.onPath, s.tree, e.target);
    PushExamined(adjacency, s.stack, s.back, s.finished, e.target);
    GrowTreePaths(s.back, s.tree, e);
    SeenMore(adjacency, s.visited, s.tree, {e.target}, e);
    SeenMore(adjacency, s.visited, s.back, {e.target}, e);
  }

  lemma EnterCoverage(visited: set<Id>, onPath: set<Id>, finished: map<Id, nat>, target: Id)
    requires Coverage(visited, onPath, finished) && target !in visited
    ensures Coverage(visited + {target}, onPath + {target}, finished)
  {
  }

  lemma EnterIsFresh(adjacency: Adjacency, s: Search, e: Arrow)
    requires s.Inv(adjacency) && e.target !in s.visited
    ensures e !in s.back && e.target !in s.onPath && forall t :: t in s.tree ==> t.target != e.target
  {
  }

  // ---- The search as a relation --------------------------------------------------------
  //
  // What the loops do to their variables, one turn at a time. It has exactly one outcome, which is
  // what makes the layout a function of the graph.

  datatype Walk = Walk(stack: seq<Frame>, onPath: set<Id>, visited: set<Id>, back: set<Arrow>)

  function Turned(adjacency: Adjacency, w: Walk): Walk
    requires w.stack != []
  {
    var Frame(node, index) := w.stack[|w.stack| - 1];
    var targets, below := Targets(adjacency, node), w.stack[..|w.stack| - 1];
    if index >= |targets| then w.(stack := below, onPath := w.onPath - {node})
    else
      var target, advanced := targets[index], w.stack[|w.stack| - 1 := Frame(node, index + 1)];
      if target in w.onPath then w.(stack := advanced, back := w.back + {Arrow(node, target)})
      else if target !in w.visited then
        Walk(advanced + [Frame(target, 0)], w.onPath + {target}, w.visited + {target}, w.back)
      else w.(stack := advanced)
  }

  /** At most `turns` turns; an empty stack ends the search. */
  function Walked(adjacency: Adjacency, w: Walk, turns: nat): Walk {
    if turns == 0 then w
    else
      var before := Walked(adjacency, w, turns - 1);
      if before.stack == [] then before else Turned(adjacency, before)
  }

  function Start(root: Id, visited: set<Id>, back: set<Arrow>): Walk {
    Walk([Frame(root, 0)], {root}, visited + {root}, back)
  }

  ghost predicate Explores(adjacency: Adjacency, start: Walk, visited: set<Id>, back: set<Arrow>) {
    exists turns: nat :: Walked(adjacency, start, turns) == Walk([], {}, visited, back)
  }

  /** Searching from the roots in order, skipping those already visited, removes `back`. */
  ghost predicate Removes(order: seq<Id>, adjacency: Adjacency, visited: set<Id>, back: set<Arrow>) {
    if order == [] then visited == {} && back == {}
    else
      var root := order[|order| - 1];
      exists seen, cut :: Removes(order[..|order| - 1], adjacency, seen, cut) && RootDone(adjacency, root, seen, cut, visited, back)
  }

  /** One root: skipped if it was visited, and explored otherwise. */
  ghost predicate RootDone(adjacency: Adjacency, root: Id, seen: set<Id>, cut: set<Arrow>, visited: set<Id>, back: set<Arrow>) {
    if root in seen then visited == seen && back == cut else Explores(adjacency, Start(root, seen, cut), visited, back)
  }

  ghost predicate IsSearchCut(order: seq<Id>, adjacency: Adjacency, back: set<Arrow>) {
    exists visited :: Removes(order, adjacency, visited, back)
  }

  lemma {:induction false} StaysEnded(adjacency: Adjacency, w: Walk, turns: nat, more: nat)
    requires turns <= more && Walked(adjacency, w, turns).stack == []
    ensures Walked(adjacency, w, more) == Walked(adjacency, w, turns)
  {
    if turns < more {
      StaysEnded(adjacency, w, turns, more - 1);
    }
  }

  lemma ExploresOneWay(adjacency: Adjacency, start: Walk, visited: set<Id>, back: set<Arrow>, visited': set<Id>, back': set<Arrow>)
    requires Explores(adjacency, start, visited, back) && Explores(adjacency, start, visited', back')
    ensures visited == visited' && back == back'
  {
    var m: nat :| Walked(adjacency, start, m) == Walk([], {}, visited, back);
    var n: nat :| Walked(adjacency, start, n) == Walk([], {}, visited', back');
    StaysEnded(adjacency, start, if m <= n then m else n, if m <= n then n else m);
  }

  lemma {:induction false} RemovesOneWay(order: seq<Id>, adjacency: Adjacency, visited: set<Id>, back: set<Arrow>,
                                         visited': set<Id>, back': set<Arrow>)
    requires Removes(order, adjacency, visited, back) && Removes(order, adjacency, visited', back')
    ensures visited == visited' && back == back'
  {
    hide Explores;
    if order != [] {
      var front, root := order[..|order| - 1], order[|order| - 1];
      var seen, cut :| Removes(front, adjacency, seen, cut) && RootDone(adjacency, root, seen, cut, visited, back);
      var seen', cut' :| Removes(front, adjacency, seen', cut') && RootDone(adjacency, root, seen', cut', visited', back');
      RemovesOneWay(front, adjacency, seen, cut, seen', cut');
      if root !in seen {
        ExploresOneWay(adjacency, Start(root, seen, cut), visited, back, visited', back');
      }
    }
  }

  /** The same graph, listed the same way, always loses the same edges. */
  lemma SearchCutIsUnique(order: seq<Id>, adjacency: Adjacency, back: set<Arrow>, back': set<Arrow>)
    requires IsSearchCut(order, adjacency, back) && IsSearchCut(order, adjacency, back')
    ensures back == back'
  {
    var visited :| Removes(order, adjacency, visited, back);
    var visited' :| Removes(order, adjacency, visited', back');
    RemovesOneWay(order, adjacency, visited, back, visited', back');
  }

  lemma RemovesMore(order: seq<Id>, adjacency: Adjacency, root: Id, seen: set<Id>, cut: set<Arrow>, visited: set<Id>, back: set<Arrow>)
    requires Removes(order, adjacency, seen, cut)
    requires RootDone(adjacency, root, seen, cut, visited, back)
    ensures Removes(order + [root], adjacency, visited, back)
  {
    hide RootDone;
    var all := order + [root];
    assert all[..|all| - 1] == order && all[|all| - 1] == root;
  }

  lemma NothingRemoved(adjacency: Adjacency)
    ensures Removes([], adjacency, {}, {})
  {
  }

  lemma TurnMore(adjacency: Adjacency, start: Walk, turns: nat, w: Walk)
    requires Walked(adjacency, start, turns) == w && w.stack != []
    ensures Walked(adjacency, start, turns + 1) == Turned(adjacency, w)
  {
  }

  lemma NoTurnYet(adjacency: Adjacency, start: Walk)
    ensures Walked(adjacency, start, 0) == start
  {
  }

  lemma TurnLeaves(adjacency: Adjacency, w: Walk, node: Id, index: nat)
    requires w.stack != [] && w.stack[|w.stack| - 1] == Frame(node, index) && index >= |Targets(adjacency, node)|
    ensures Turned(adjacency, w) == w.(stack := w.stack[..|w.stack| - 1], onPath := w.onPath - {node})
  {
  }

  lemma TurnAdvances(adjacency: Adjacency, w: Walk, node: Id, index: nat, target: Id)
    requires w.stack != [] && w.stack[|w.stack| - 1] == Frame(node, index)
    requires index < |Targets(adjacency, node)| && target == Targets(adjacency, node)[index]
    ensures var advanced := w.stack[|w.stack| - 1 := Frame(node, index + 1)];
      Turned(adjacency, w) == if target in w.onPath then w.(stack := advanced, back := w.back + {Arrow(node, target)})
                              else if target !in w.visited then Walk(advanced + [Frame(target, 0)], w.onPath + {target}, w.visited + {target}, w.back)
                              else w.(stack := advanced)
  {
  }

  // ---- The search ----------------------------------------------------------------------

  /** All nodes the search can meet: the roots and every edge target. */
  ghost function Universe(order: seq<Id>, adjacency: Adjacency): set<Id> {
    (set v | v in order) + (set u, v | u in adjacency && v in adjacency[u] :: v)
  }

  lemma InUniverse(order: seq<Id>, adjacency: Adjacency, e: Arrow)
    requires IsEdge(adjacency, e)
    ensures e.target in Universe(order, adjacency)
  {
  }

  lemma NothingYet(adjacency: Adjacency)
    ensures Search({}, {}, {}, [], map[], {}).EdgeInv(adjacency)
  {
  }

  method BackEdges(order: seq<Id>, adjacency: Adjacency) returns (back: set<Arrow>, ghost finished: map<Id, nat>)
    requires forall v :: v in adjacency ==> v in order
    ensures IsMinimalCut(Edges(adjacency), back) && IsSearchCut(order, adjacency, back)
    ensures Descends(Edges(adjacency) - back, finished)
    ensures forall v :: v in finished ==> finished[v] < |finished|
  {
    hide IsMinimalCut, Descends, Search.EdgeInv, Explores, Removes;
    NothingYet(adjacency);
    NothingRemoved(adjacency);
    back := {};
    var visited: set<Id> := {};
    ghost var s := Search({}, {}, {}, [], map[], {});
    for r := 0 to |order|
      invariant s.EdgeInv(adjacency) && s.stack == [] && s.onPath == {}
      invariant s.back == back && s.visited == visited
      invariant forall i :: 0 <= i < r ==> order[i] in visited
      invariant Removes(order[..r], adjacency, visited, back)
    {
      var root := order[r];
      ghost var seen, cut := visited, back;
      if root !in visited {
        back, visited, s := SearchFrom(root, adjacency, back, visited, order, s);
      }
      RemovesMore(order[..r], adjacency, root, seen, cut, visited, back);
      assert order[..r + 1] == order[..r] + [root];
    }
    assert order[..|order|] == order;
    assert adjacency.Keys <= visited;
    SearchDone(adjacency, s);
    finished := s.finished;
  }

  /** The body of the outer loop: explore everything not yet visited that `root` reaches. */
  method SearchFrom(root: Id, adjacency: Adjacency, back0: set<Arrow>, visited0: set<Id>,
                    ghost order: seq<Id>, ghost s0: Search)
    returns (back: set<Arrow>, visited: set<Id>, ghost s: Search)
    requires s0.EdgeInv(adjacency) && s0.stack == [] && s0.onPath == {}
    requires s0.back == back0 && s0.visited == visited0
    requires root !in visited0
    ensures s.EdgeInv(adjacency) && s.stack == [] && s.onPath == {}
    ensures s.back == back && s.visited == visited
    ensures visited0 + {root} <= visited && Explores(adjacency, Start(root, visited0, back0), visited, back)
  {
    hide Search.Inv, Search.EdgeInv, Walked, Turned;
    var onPath, stack := {root}, [Frame(root, 0)];
    back, visited := back0, visited0 + {root};
    StartStep(adjacency, s0, root);
    s := s0.(visited := visited, onPath := onPath, stack := stack);
    ghost var universe := Universe(order, adjacency);
    ghost var turns, start := 0, Start(root, visited0, back0);
    NoTurnYet(adjacency, start);
    while stack != []
      invariant s.Inv(adjacency)
      invariant s.back == back && s.visited == visited && s.onPath == onPath && s.stack == stack
      invariant visited0 + {root} <= visited
      invariant Walked(adjacency, start, turns) == Walk(stack, onPath, visited, back)
      decreases universe - visited, |stack|,
                if stack == [] then 0
                else |Targets(adjacency, stack[|stack| - 1].node)| - stack[|stack| - 1].index
    {
      var Frame(node, index) := stack[|stack| - 1];
      var targets := Targets(adjacency, node);
      ghost var w := Walk(stack, onPath, visited, back);
      TurnMore(adjacency, start, turns, w);
      turns := turns + 1;
      if index >= |targets| {
        TurnLeaves(adjacency, w, node, index);
        LeaveStep(adjacency, s);
        stack := stack[..|stack| - 1];
        onPath := onPath - {node};
        s := s.(stack := stack, onPath := onPath, finished := s.finished[node := |s.finished|]);
      } else {
        var target := targets[index];
        TurnAdvances(adjacency, w, node, index, target);
        if target in onPath {
          RemoveStep(adjacency, s, Arrow(node, target));
          stack := stack[|stack| - 1 := Frame(node, index + 1)];
          back := back + {Arrow(node, target)};
          s := s.(stack := stack, back := back);
        } else if target !in visited {
          InUniverse(order, adjacency, Arrow(node, target));
          EnterStep(adjacency, s, Arrow(node, target));
          stack := stack[|stack| - 1 := Frame(node, index + 1)] + [Frame(target, 0)];
          visited := visited + {target};
          onPath := onPath + {target};
          s := s.(stack := stack, visited := visited, onPath := onPath, tree := s.tree + {Arrow(node, target)});
        } else {
          SkipStep(adjacency, s, Arrow(node, target));
          stack := stack[|stack| - 1 := Frame(node, index + 1)];
          s := s.(stack := stack);
        }
      }
    }
    EmptyStack(adjacency, s);
  }
}
