/** Finite directed graphs: paths, acyclicity, and the orderings that prove it. */
module Digraph {
  /** Node names: only compared, never inspected. */
  type Id(==, !new, 0)

  datatype Arrow = Arrow(source: Id, target: Id)

  /** A non-empty sequence of nodes, each joined to the next by an edge. */
  ghost predicate IsPath(edges: set<Arrow>, p: seq<Id>) {
    && p != []
    && forall i :: 0 <= i < |p| - 1 ==> Arrow(p[i], p[i + 1]) in edges
  }

  ghost predicate IsPathBetween(edges: set<Arrow>, p: seq<Id>, source: Id, target: Id) {
    IsPath(edges, p) && p[0] == source && p[|p| - 1] == target
  }

  ghost predicate Connects(edges: set<Arrow>, source: Id, target: Id) {
    exists p: seq<Id> :: IsPathBetween(edges, p, source, target)
  }

  ghost predicate IsCycle(edges: set<Arrow>, p: seq<Id>) {
    IsPath(edges, p) && |p| > 1 && p[0] == p[|p| - 1]
  }

  ghost predicate Acyclic(edges: set<Arrow>) {
    !exists p: seq<Id> :: IsCycle(edges, p)
  }

  /** Every edge leads to a strictly smaller number. */
  ghost predicate Descends(edges: set<Arrow>, pos: map<Id, nat>) {
    forall e :: e in edges ==> e.source in pos && e.target in pos && pos[e.target] < pos[e.source]
  }

  lemma {:induction false} PathDescends(edges: set<Arrow>, pos: map<Id, nat>, p: seq<Id>)
    requires Descends(edges, pos) && IsPath(edges, p) && |p| > 1
    ensures p[0] in pos && p[|p| - 1] in pos && pos[p[|p| - 1]] < pos[p[0]]
  {
    assert Arrow(p[0], p[1]) in edges;
    if |p| > 2 {
      assert IsPath(edges, p[1..]) by {
        forall i | 0 <= i < |p[1..]| - 1 ensures Arrow(p[1..][i], p[1..][i + 1]) in edges {
          assert Arrow(p[i + 1], p[i + 2]) in edges;
        }
      }
      PathDescends(edges, pos, p[1..]);
    }
  }

  lemma DescendingIsAcyclic(edges: set<Arrow>, pos: map<Id, nat>)
    requires Descends(edges, pos)
    ensures Acyclic(edges)
  {
    forall p: seq<Id> | IsCycle(edges, p) ensures false {
      PathDescends(edges, pos, p);
    }
  }

  lemma ExtendPath(edges: set<Arrow>, p: seq<Id>, v: Id)
    requires IsPath(edges, p) && Arrow(p[|p| - 1], v) in edges
    ensures IsPathBetween(edges, p + [v], p[0], v)
  {
  }

  lemma ConnectsMonotone(small: set<Arrow>, large: set<Arrow>, source: Id, target: Id)
    requires small <= large && Connects(small, source, target)
    ensures Connects(large, source, target)
  {
    var p: seq<Id> :| IsPathBetween(small, p, source, target);
    assert IsPathBetween(large, p, source, target);
  }

  /** Putting back an edge that closes a path re-creates a cycle. */
  lemma ClosingEdgeMakesCycle(edges: set<Arrow>, source: Id, target: Id)
    requires Connects(edges, target, source)
    ensures !Acyclic(edges + {Arrow(source, target)})
  {
    var p: seq<Id> :| IsPathBetween(edges, p, target, source);
    assert IsPath(edges + {Arrow(source, target)}, p);
    ExtendPath(edges + {Arrow(source, target)}, p, target);
    assert IsCycle(edges + {Arrow(source, target)}, p + [target]);
  }
}
