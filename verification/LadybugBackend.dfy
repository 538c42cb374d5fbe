/** The property-graph store: claim nodes with a sequence number, entity edges and supersession edges
    (grapharc/memory/ladybug_store.py). */
module LadybugBackend {
  import opened Options
  import opened Seqs
  import opened Sorting
  import opened Texts
  import opened Claims
  import opened ClaimLog
  import opened Tables
  import opened Supersession

  /** An edge from a claim to the entity with this normalized name. */
  datatype Mention = Mention(claim: Id, entity: Text)

  // ---- Nodes that hold a log -----------------------------------------------------------

  ghost function NodeRows(nodes: Nodes, log: Log): (rows: seq<Row>)
    requires forall c :: c in log ==> c.id in nodes
    ensures |rows| == |log|
  {
    seq(|log|, k requires 0 <= k < |log| => assert log[k] in log; nodes[log[k].id])
  }

  /** The nodes are the claims of the log, stamped in log order below the next number. */
  ghost predicate NodesHold(norm: Normalizer, nodes: Nodes, log: Log, next: nat) {
    && DistinctIds(log)
    && (forall c :: c in log ==> c.id in nodes)
    && (forall i :: i in nodes ==> Has(log, i) && nodes[i].claim.id == i && nodes[i].stamp < next)
    && Holds(norm, NodeRows(nodes, log), log)
  }

  lemma NodeAt(norm: Normalizer, nodes: Nodes, log: Log, next: nat, i: Id)
    requires NodesHold(norm, nodes, log, next)
    ensures i in nodes <==> Has(log, i)
    ensures i in nodes ==> Get(log, i) == Some(nodes[i].claim)
  {
    if Has(log, i) {
      assert log[Position(log, i)] in log;
      assert ClaimsOf(NodeRows(nodes, log))[Position(log, i)] == log[Position(log, i)];
    }
  }

  /** Upserting a node is putting the claim in the log; a new one takes the next number. */
  lemma UpsertHolds(norm: Normalizer, nodes: Nodes, log: Log, next: nat, c: Claim)
    requires NodesHold(norm, nodes, log, next)
    ensures var stamp := if c.id in nodes then nodes[c.id].stamp else next;
      NodesHold(norm, nodes[c.id := RowFor(norm, c, stamp)], Put(log, c), if c.id in nodes then next else next + 1)
  {
    hide Put, Has, Get, Holds;
    var stamp := if c.id in nodes then nodes[c.id].stamp else next;
    var nodes', log' := nodes[c.id := RowFor(norm, c, stamp)], Put(log, c);
    PutKeepsDistinct(log, c);
    forall i | i in nodes' ensures Has(log', i) {
      PutHas(log, c, i);
    }
    forall d | d in log' ensures d.id in nodes' {
      PutMembers(log, c, d);
    }
    UpsertRows(norm, nodes, log, next, c);
  }

  lemma NextMayGrow(norm: Normalizer, nodes: Nodes, log: Log, next: nat, next': nat)
    requires NodesHold(norm, nodes, log, next)
    requires forall i :: i in nodes ==> nodes[i].stamp < next'
    ensures NodesHold(norm, nodes, log, next')
  {
  }

  lemma PutMembers(log: Log, c: Claim, d: Claim)
    requires d in Put(log, c)
    ensures d == c || d in log
  {
  }

  lemma UpsertRows(norm: Normalizer, nodes: Nodes, log: Log, next: nat, c: Claim)
    requires NodesHold(norm, nodes, log, next)
    requires forall d :: d in Put(log, c) ==> d.id in nodes || d.id == c.id
    ensures var stamp := if c.id in nodes then nodes[c.id].stamp else next;
      Holds(norm, NodeRows(nodes[c.id := RowFor(norm, c, stamp)], Put(log, c)), Put(log, c))
  {
    hide Holds;
    var stamp := if c.id in nodes then nodes[c.id].stamp else next;
    var nodes', log', rows := nodes[c.id := RowFor(norm, c, stamp)], Put(log, c), NodeRows(nodes, log);
    var p := Position(log, c.id);
    NodeAt(norm, nodes, log, next, c.id);
    if p < |log| {
      assert log[p] in log;
      HoldsReplaced(norm, rows, log, p, c);
      assert NodeRows(nodes', log') == rows[p := RowFor(norm, c, stamp)];
    } else {
      forall r | r in rows ensures r.stamp < next {
        var k :| 0 <= k < |rows| && rows[k] == r;
        assert log[k] in log;
      }
      HoldsAppended(norm, rows, log, c, next);
      assert NodeRows(nodes', log') == rows + [RowFor(norm, c, stamp)];
    }
  }

  // ---- Queries -------------------------------------------------------------------------

  /** Node rows in an order nothing may depend on. */
  method Scan(nodes: Nodes) returns (rows: seq<Row>)
    requires forall i :: i in nodes ==> nodes[i].claim.id == i
    ensures Distinct(rows)
    ensures forall r :: r in rows ==> r.claim.id in nodes && nodes[r.claim.id] == r
    ensures forall i :: i in nodes ==> nodes[i] in rows
  {
    rows := [];
    var done: set<Id> := {};
    while done != nodes.Keys
      invariant done <= nodes.Keys && Distinct(rows)
      invariant forall r :: r in rows ==> r.claim.id in done && nodes[r.claim.id] == r
      invariant forall i :: i in done ==> nodes[i] in rows
      decreases nodes.Keys - done
    {
      var i :| i in nodes.Keys && i !in done;
      rows := rows + [nodes[i]];
      done := done + {i};
    }
  }

  lemma ScannedRows(norm: Normalizer, nodes: Nodes, log: Log, next: nat, scanned: seq<Row>)
    requires NodesHold(norm, nodes, log, next) && Distinct(scanned)
    requires forall r :: r in scanned ==> r.claim.id in nodes && nodes[r.claim.id] == r
    requires forall i :: i in nodes ==> nodes[i] in scanned
    ensures multiset(scanned) == multiset(NodeRows(nodes, log))
  {
    var rows := NodeRows(nodes, log);
    forall r | r in scanned ensures r in rows {
      var p := Position(log, r.claim.id);
      NodeAt(norm, nodes, log, next, r.claim.id);
      assert rows[p] == r;
    }
    forall r | r in rows ensures r in scanned {
      var k :| 0 <= k < |rows| && rows[k] == r;
      assert log[k] in log;
    }
    SameSetSameMultiset(scanned, rows);
  }

  /** A filtered, ordered query over the nodes returns what the same query over the log rows does. */
  method Query(norm: Normalizer, nodes: Nodes, ghost log: Log, ghost next: nat, p: Row -> bool, byTime: bool)
    returns (found: seq<Row>)
    requires NodesHold(norm, nodes, log, next)
    ensures found == if byTime then Sort(ByTimeThenStamp(), Filter(p, NodeRows(nodes, log)))
                     else Filter(p, NodeRows(nodes, log))
  {
    var scanned := Scan(nodes);
    ScannedRows(norm, nodes, log, next, scanned);
    FilterPermutes(p, scanned, NodeRows(nodes, log));
    FilterIncreasing(NodeRows(nodes, log), p);
    FetchedInAnyOrder(Filter(p, NodeRows(nodes, log)), Filter(p, scanned));
    found := Sort(if byTime then ByTimeThenStamp() else ByStamp(), Filter(p, scanned));
  }

  // ---- Dead ends, walked along the edges -----------------------------------------------

  predicate Walked(norm: Normalizer, nodes: Nodes, subject: Text, l: Link) {
    l.from in nodes && nodes[l.from].subjectNorm == norm(subject)
  }

  function OnSubject(norm: Normalizer, nodes: Nodes, subject: Text): Link -> bool {
    (l: Link) => Walked(norm, nodes, subject, l)
  }

  function RowsFrom(nodes: Nodes, links: seq<Link>): seq<Row>
    requires forall l :: l in links ==> l.from in nodes
  {
    seq(|links|, k requires 0 <= k < |links| => assert links[k] in links; nodes[links[k].from])
  }

  /** The rows an edge leads out of: superseded, and the superseder is stored. */
  function AskLinked(norm: Normalizer, nodes: Nodes, subject: Text): Row -> bool {
    (r: Row) => r.claim.supersededBy.Some? && r.claim.supersededBy.value in nodes && r.subjectNorm == norm(subject)
  }

  lemma AgreeingEdgesDistinct(nodes: Nodes, edges: seq<Link>)
    requires Agrees(nodes, edges)
    ensures Distinct(edges)
    ensures forall l :: l in edges <==> Belongs(nodes, l)
  {
    forall i, j | 0 <= i < j < |edges| ensures edges[i] != edges[j] {
      if edges[i] == edges[j] {
        TwiceCounts(edges, i, j);
      }
    }
    forall l ensures l in edges <==> Belongs(nodes, l) {
      assert l in edges <==> multiset(edges)[l] > 0;
    }
  }

  ghost predicate IsWalk(norm: Normalizer, nodes: Nodes, edges: seq<Link>, subject: Text, links: seq<Link>) {
    Distinct(links) && forall l :: l in links <==> Belongs(nodes, l) && Walked(norm, nodes, subject, l)
  }

  lemma WalkIsDistinct(norm: Normalizer, nodes: Nodes, edges: seq<Link>, subject: Text, links: seq<Link>)
    requires IsWalk(norm, nodes, edges, subject, links) && forall i :: i in nodes ==> nodes[i].claim.id == i
    ensures Distinct(RowsFrom(nodes, links))
  {
    var walked := RowsFrom(nodes, links);
    forall i, j | 0 <= i < j < |walked| ensures walked[i] != walked[j] {
      assert links[i] in links && links[j] in links && links[i] != links[j];
    }
  }

  lemma WalkedIsWanted(norm: Normalizer, nodes: Nodes, edges: seq<Link>, log: Log, next: nat, subject: Text,
                       links: seq<Link>, r: Row)
    requires NodesHold(norm, nodes, log, next) && IsWalk(norm, nodes, edges, subject, links)
    requires r in RowsFrom(nodes, links)
    ensures r in Filter(AskLinked(norm, nodes, subject), NodeRows(nodes, log))
  {
    var walked := RowsFrom(nodes, links);
    var k :| 0 <= k < |walked| && walked[k] == r;
    assert links[k] in links;
    NodeAt(norm, nodes, log, next, links[k].from);
    assert NodeRows(nodes, log)[Position(log, links[k].from)] == r;
  }

  lemma WantedIsWalked(norm: Normalizer, nodes: Nodes, edges: seq<Link>, log: Log, next: nat, subject: Text,
                       links: seq<Link>, r: Row)
    requires NodesHold(norm, nodes, log, next) && IsWalk(norm, nodes, edges, subject, links)
    requires r in Filter(AskLinked(norm, nodes, subject), NodeRows(nodes, log))
    ensures r in RowsFrom(nodes, links)
  {
    var rows := NodeRows(nodes, log);
    var k :| 0 <= k < |rows| && rows[k] == r;
    assert log[k] in log;
    var l := Link(r.claim.id, r.claim.supersededBy.value);
    assert l in links;
    var m :| 0 <= m < |links| && links[m] == l;
    assert RowsFrom(nodes, links)[m] == r;
  }

  lemma FilterIsWalk(norm: Normalizer, nodes: Nodes, edges: seq<Link>, subject: Text)
    requires Agrees(nodes, edges)
    ensures IsWalk(norm, nodes, edges, subject, Filter(OnSubject(norm, nodes, subject), edges))
  {
    hide Agrees;
    AgreeingEdgesDistinct(nodes, edges);
    FilterDistinct(OnSubject(norm, nodes, subject), edges);
  }

  /** With agreeing edges each superseded claim with a stored superseder is walked to exactly once. */
  lemma WalkedRows(norm: Normalizer, nodes: Nodes, edges: seq<Link>, log: Log, next: nat, subject: Text)
    requires NodesHold(norm, nodes, log, next) && Agrees(nodes, edges)
    ensures var links := Filter(OnSubject(norm, nodes, subject), edges);
      multiset(RowsFrom(nodes, links)) == multiset(Filter(AskLinked(norm, nodes, subject), NodeRows(nodes, log)))
  {
    hide IsWalk, AskLinked, Agrees;
    var links := Filter(OnSubject(norm, nodes, subject), edges);
    var walked, wanted := RowsFrom(nodes, links), Filter(AskLinked(norm, nodes, subject), NodeRows(nodes, log));
    FilterIsWalk(norm, nodes, edges, subject);
    WalkIsDistinct(norm, nodes, edges, subject, links);
    RowsDistinct(norm, nodes, log, next);
    FilterDistinct(AskLinked(norm, nodes, subject), NodeRows(nodes, log));
    forall r | r in walked ensures r in wanted {
      WalkedIsWanted(norm, nodes, edges, log, next, subject, links, r);
    }
    forall r | r in wanted ensures r in walked {
      WantedIsWalked(norm, nodes, edges, log, next, subject, links, r);
    }
    SameSetSameMultiset(walked, wanted);
  }

  lemma RowsDistinct(norm: Normalizer, nodes: Nodes, log: Log, next: nat)
    requires NodesHold(norm, nodes, log, next)
    ensures Distinct(NodeRows(nodes, log))
  {
  }

  /** What the walk answers, whatever edges there are. */
  lemma WalkedClaims(norm: Normalizer, nodes: Nodes, edges: seq<Link>, log: Log, next: nat, subject: Text)
    requires NodesHold(norm, nodes, log, next)
    ensures var links := Filter(OnSubject(norm, nodes, subject), edges);
      var answer := ClaimsOf(Sort(ByStamp(), RowsFrom(nodes, links)));
      && |answer| == |links|
      && forall c :: c in answer <==> c in log && norm(c.subject) == norm(subject) && exists l :: l in edges && l.from == c.id
  {
    hide NodesHold, Sort;
    var links := Filter(OnSubject(norm, nodes, subject), edges);
    var rows := RowsFrom(nodes, links);
    var answer := ClaimsOf(Sort(ByStamp(), rows));
    SortPermutes(ByStamp(), rows);
    SameElements(Sort(ByStamp(), rows), rows);
    forall c | c in answer ensures c in log && norm(c.subject) == norm(subject) && exists l :: l in edges && l.from == c.id {
      var k :| 0 <= k < |answer| && answer[k] == c;
      assert Sort(ByStamp(), rows)[k] in rows;
      var j :| 0 <= j < |rows| && rows[j] == Sort(ByStamp(), rows)[k];
      assert links[j] in links && links[j] in edges;
      NodeClaim(norm, nodes, log, next, links[j].from);
    }
    forall c, l | c in log && norm(c.subject) == norm(subject) && l in edges && l.from == c.id ensures c in answer {
      StoredClaim(norm, nodes, log, next, c);
      assert OnSubject(norm, nodes, subject)(l) && l in links;
      var j :| 0 <= j < |links| && links[j] == l;
      assert rows[j].claim == c && rows[j] in rows;
      assert rows[j] in Sort(ByStamp(), rows);
      var k :| 0 <= k < |rows| && Sort(ByStamp(), rows)[k] == rows[j];
      assert answer[k] == c;
    }
  }

  lemma NodeClaim(norm: Normalizer, nodes: Nodes, log: Log, next: nat, i: Id)
    requires NodesHold(norm, nodes, log, next) && i in nodes
    ensures nodes[i].claim in log && nodes[i].claim.id == i && nodes[i].subjectNorm == norm(nodes[i].claim.subject)
  {
    NodeAt(norm, nodes, log, next, i);
    var k := Position(log, i);
    assert log[k] in log && NodeRows(nodes, log)[k] in NodeRows(nodes, log);
  }

  lemma StoredClaim(norm: Normalizer, nodes: Nodes, log: Log, next: nat, c: Claim)
    requires NodesHold(norm, nodes, log, next) && c in log
    ensures c.id in nodes && nodes[c.id].claim == c && nodes[c.id].subjectNorm == norm(c.subject)
  {
    hide NodeRows, Holds;
    NodeClaim(norm, nodes, log, next, c.id);
    var k :| 0 <= k < |log| && log[k] == c;
    PositionUnique(log, k);
    NodeAt(norm, nodes, log, next, c.id);
  }

  /** With edges in step the walk answers the linked dead ends. */
  lemma WalkInStep(norm: Normalizer, nodes: Nodes, edges: seq<Link>, log: Log, next: nat, subject: Text)
    requires NodesHold(norm, nodes, log, next) && Agrees(nodes, edges)
    ensures ClaimsOf(Sort(ByStamp(), RowsFrom(nodes, Filter(OnSubject(norm, nodes, subject), edges)))) == LinkedDeadEnds(log, norm, subject)
  {
    hide NodesHold, Holds, Agrees, Sort, AskLinked, LinkedDeadEnds;
    NodesHoldRows(norm, nodes, log, next);
    WalkedRows(norm, nodes, edges, log, next, subject);
    FilterIncreasing(NodeRows(nodes, log), AskLinked(norm, nodes, subject));
    FetchedInAnyOrder(Filter(AskLinked(norm, nodes, subject), NodeRows(nodes, log)),
                      RowsFrom(nodes, Filter(OnSubject(norm, nodes, subject), edges)));
    LinkedAnswer(norm, nodes, log, next, subject);
  }

  /** The superseded claims about a subject whose superseder is stored. */
  function LinkedDeadEnds(log: Log, norm: Normalizer, subject: Text): seq<Claim> {
    Filter(IsLinkedDeadEnd(log, norm, subject), log)
  }

  function IsLinkedDeadEnd(log: Log, norm: Normalizer, subject: Text): Claim -> bool {
    (c: Claim) => !c.IsCurrent() && Has(log, c.supersededBy.value) && norm(c.subject) == norm(subject)
  }

  lemma LinkedAnswer(norm: Normalizer, nodes: Nodes, log: Log, next: nat, subject: Text)
    requires NodesHold(norm, nodes, log, next)
    ensures ClaimsOf(Filter(AskLinked(norm, nodes, subject), NodeRows(nodes, log))) == LinkedDeadEnds(log, norm, subject)
  {
    var rows := NodeRows(nodes, log);
    forall r | r in rows && r.claim.supersededBy.Some?
      ensures r.claim.supersededBy.value in nodes <==> Has(log, r.claim.supersededBy.value)
    {
      NodeAt(norm, nodes, log, next, r.claim.supersededBy.value);
    }
    FilterClaims(rows, AskLinked(norm, nodes, subject), IsLinkedDeadEnd(log, norm, subject));
  }

  /** Every superseder that a claim names is stored. */
  ghost predicate Closed(log: Log) {
    forall c :: c in log && c.supersededBy.Some? ==> Has(log, c.supersededBy.value)
  }

  /** Walking the edges finds the dead ends that the other stores report, for every subject, exactly
      when every named superseder is stored. */
  lemma DeadEndsAgreeIff(log: Log, norm: Normalizer)
    ensures (forall subject :: LinkedDeadEnds(log, norm, subject) == DeadEnds(log, norm, subject)) <==> Closed(log)
  {
    if Closed(log) {
      forall subject ensures LinkedDeadEnds(log, norm, subject) == DeadEnds(log, norm, subject) {
        ClosedDeadEnds(log, norm, subject);
      }
    } else {
      var c :| c in log && c.supersededBy.Some? && !Has(log, c.supersededBy.value);
      UnlinkedDeadEnd(log, norm, c);
    }
  }

  lemma DeadEndMeans(norm: Normalizer, subject: Text, c: Claim)
    ensures IsDeadEndAbout(norm, subject)(c) <==> c.supersededBy.Some? && norm(c.subject) == norm(subject)
  {
    assert c.supersededBy.Some? <==> !c.IsCurrent();
  }

  lemma ClosedDeadEnds(log: Log, norm: Normalizer, subject: Text)
    requires Closed(log)
    ensures LinkedDeadEnds(log, norm, subject) == DeadEnds(log, norm, subject)
  {
    var p, q := IsLinkedDeadEnd(log, norm, subject), IsDeadEndAbout(norm, subject);
    forall c | c in log ensures p(c) == q(c) {
      DeadEndMeans(norm, subject, c);
    }
    SameFilter(log, p, q);
  }

  lemma UnlinkedDeadEnd(log: Log, norm: Normalizer, c: Claim)
    requires c in log && c.supersededBy.Some? && !Has(log, c.supersededBy.value)
    ensures c in DeadEnds(log, norm, c.subject) && c !in LinkedDeadEnds(log, norm, c.subject)
  {
    var p, q := IsLinkedDeadEnd(log, norm, c.subject), IsDeadEndAbout(norm, c.subject);
    DeadEndMeans(norm, c.subject, c);
    assert c in Filter(q, log);
  }

  lemma {:induction false} SameFilter(log: Log, p: Claim -> bool, q: Claim -> bool)
    requires forall c :: c in log ==> p(c) == q(c)
    ensures Filter(p, log) == Filter(q, log)
  {
    if log != [] {
      SplitLast(log);
      SameFilter(log[..|log| - 1], p, q);
    }
  }

  // ---- Entity edges --------------------------------------------------------------------

  /** The edges out of one claim are dropped and rebuilt; an empty name has no entity. */
  function Reattached(edges: set<Mention>, i: Id, name: Text): set<Mention> {
    (set m | m in edges && m.claim != i) + (if name.chars == "" then {} else {Mention(i, name)})
  }

  /** Each stored claim has exactly the edge that `pick` names now, if it names one. */
  ghost predicate AttachedBy(norm: Normalizer, nodes: Nodes, edges: set<Mention>, pick: Claim -> Text) {
    forall m :: m in edges <==> m.claim in nodes && m.entity.chars != "" && m.entity == norm(pick(nodes[m.claim].claim))
  }

  function SubjectOf(): Claim -> Text { (c: Claim) => c.subject }

  function ValueOf(): Claim -> Text { (c: Claim) => c.value }

  /** MERGE an entity: the first spelling seen is the one displayed. */
  function Named(entities: map<Text, Text>, name: Text, display: Text): map<Text, Text> {
    if name.chars == "" || name in entities then entities else entities[name := display]
  }

  datatype EntityGraph = EntityGraph(about: set<Mention>, mentions: set<Mention>, entities: map<Text, Text>) {
    /** The edges are exactly those of the stored claims, and end at stored entities. */
    ghost predicate Faithful(norm: Normalizer, nodes: Nodes) {
      && AttachedBy(norm, nodes, about, SubjectOf())
      && AttachedBy(norm, nodes, mentions, ValueOf())
      && forall m :: m in about || m in mentions ==> m.entity in entities
    }

    function Rebuilt(norm: Normalizer, c: Claim): EntityGraph {
      EntityGraph(Reattached(about, c.id, norm(c.subject)), Reattached(mentions, c.id, norm(c.value)),
                  Named(Named(entities, norm(c.subject), c.subject), norm(c.value), c.value))
    }
  }

  /** Rebuilding the edges of the written claim keeps them exact, even when its subject changed. */
  lemma RebuiltIsFaithful(graph: EntityGraph, norm: Normalizer, nodes: Nodes, row: Row)
    requires graph.Faithful(norm, nodes)
    ensures graph.Rebuilt(norm, row.claim).Faithful(norm, nodes[row.claim.id := row])
  {
  }

  /** Entities only ever accumulate, each under the spelling it was first seen with. */
  lemma RebuiltKeepsEntities(graph: EntityGraph, norm: Normalizer, c: Claim, name: Text)
    requires name in graph.entities
    ensures name in graph.Rebuilt(norm, c).entities && graph.Rebuilt(norm, c).entities[name] == graph.entities[name]
  {
  }

  // ---- Opening an older database -------------------------------------------------------

  /** The claims of a log as the nodes now have them. */
  ghost function FilledLog(nodes: Nodes, log: Log): Log
    requires forall c :: c in log ==> c.id in nodes
  {
    ClaimsOf(NodeRows(nodes, log))
  }

  lemma FilledNode(nodes: Nodes, edges: seq<Link>, filled: Nodes, i: Id)
    requires IsBackfill(nodes, edges, filled) && i in nodes
    ensures filled[i] == nodes[i].(claim := nodes[i].claim.(supersededBy := filled[i].claim.supersededBy))
  {
    assert IsFilled(nodes[i], edges, i, filled[i]);
  }

  lemma FilledAt(norm: Normalizer, nodes: Nodes, log: Log, edges: seq<Link>, filled: Nodes, k: nat)
    requires (forall c :: c in log ==> c.id in nodes) && IsBackfill(nodes, edges, filled) && k < |log|
    requires Holds(norm, NodeRows(nodes, log), log)
    ensures FilledLog(filled, log)[k].id == log[k].id
    ensures var row, filledRow := NodeRows(nodes, log)[k], NodeRows(filled, log)[k];
      && filledRow.stamp == row.stamp && filledRow.claim == FilledLog(filled, log)[k]
      && filledRow.subjectNorm == norm(filledRow.claim.subject) && filledRow.propertyNorm == norm(filledRow.claim.property)
  {
    hide IsFilled, Increasing;
    assert log[k] in log && NodeRows(nodes, log)[k] in NodeRows(nodes, log);
    assert ClaimsOf(NodeRows(nodes, log))[k] == log[k];
    FilledNode(nodes, edges, filled, log[k].id);
  }

  lemma SameIdsSameRows(nodes: Nodes, log: Log, log': Log)
    requires |log| == |log'| && forall k :: 0 <= k < |log| ==> log[k].id in nodes && log'[k].id == log[k].id
    ensures (forall c :: c in log ==> c.id in nodes) && (forall c :: c in log' ==> c.id in nodes)
    ensures NodeRows(nodes, log') == NodeRows(nodes, log)
    ensures DistinctIds(log) ==> DistinctIds(log')
  {
  }

  lemma FilledRowsHold(norm: Normalizer, nodes: Nodes, log: Log, edges: seq<Link>, filled: Nodes)
    requires (forall c :: c in log ==> c.id in nodes) && IsBackfill(nodes, edges, filled)
    requires Holds(norm, NodeRows(nodes, log), log)
    ensures Holds(norm, NodeRows(filled, log), FilledLog(filled, log))
    ensures forall k :: 0 <= k < |log| ==> FilledLog(filled, log)[k].id == log[k].id
  {
    hide IsBackfill, NodeRows, ClaimsOf;
    assert filled.Keys == nodes.Keys by { SameKeys(nodes, edges, filled); }
    var rows' := NodeRows(filled, log);
    forall k | 0 <= k < |log|
      ensures FilledLog(filled, log)[k].id == log[k].id && rows'[k].stamp == NodeRows(nodes, log)[k].stamp
      ensures rows'[k].subjectNorm == norm(rows'[k].claim.subject) && rows'[k].propertyNorm == norm(rows'[k].claim.property)
    {
      FilledAt(norm, nodes, log, edges, filled, k);
    }
  }

  lemma SameKeys(nodes: Nodes, edges: seq<Link>, filled: Nodes)
    requires IsBackfill(nodes, edges, filled)
    ensures filled.Keys == nodes.Keys
  {
  }

  /** After the backfill the nodes hold the log as it then is. */
  lemma BackfillHolds(norm: Normalizer, nodes: Nodes, log: Log, next: nat, edges: seq<Link>, filled: Nodes)
    requires NodesHold(norm, nodes, log, next) && IsBackfill(nodes, edges, filled)
    ensures (forall c :: c in log ==> c.id in filled) && NodesHold(norm, filled, FilledLog(filled, log), next)
  {
    hide Holds, IsFilled, NodeRows, ClaimsOf;
    var log' := FilledLog(filled, log);
    FilledRowsHold(norm, nodes, log, edges, filled);
    assert |log'| == |log|;
    forall k | 0 <= k < |log| ensures log[k].id in filled {
      assert log[k] in log;
    }
    SameIdsSameRows(filled, log, log');
    forall i | i in filled ensures Has(log', i) && filled[i].claim.id == i && filled[i].stamp < next {
      FilledNode(nodes, edges, filled, i);
      assert log[Position(log, i)].id == i;
      PositionUnique(log', Position(log, i));
    }
  }

  lemma BackfillIsFaithful(graph: EntityGraph, norm: Normalizer, nodes: Nodes, edges: seq<Link>, filled: Nodes)
    requires graph.Faithful(norm, nodes) && IsBackfill(nodes, edges, filled)
    ensures graph.Faithful(norm, filled)
  {
    hide IsFilled;
    forall i | i in nodes ensures filled[i].claim.subject == nodes[i].claim.subject && filled[i].claim.value == nodes[i].claim.value {
      FilledNode(nodes, edges, filled, i);
    }
  }

  lemma NothingToFill(nodes: Nodes, edges: seq<Link>, filled: Nodes)
    requires Agrees(nodes, edges) && IsBackfill(nodes, edges, filled)
    ensures filled == nodes
  {
    forall i | i in nodes ensures filled[i] == nodes[i] {
      assert IsFilled(nodes[i], edges, i, filled[i]);
      if HasEdge(edges, i) {
        var k :| 0 <= k < |edges| && edges[k].from == i;
        assert multiset(edges)[edges[k]] > 0;
      }
    }
  }

  // ---- The store -----------------------------------------------------------------------

  class LadybugStore {
    const norm: Normalizer
    var nodes: Nodes
    var superseded: seq<Link>
    var graph: EntityGraph
    var nextSeq: nat
    ghost var log: Log

    ghost predicate Valid()
      reads this
    {
      NodesHold(norm, nodes, log, nextSeq) && graph.Faithful(norm, nodes)
    }

    /** The edges say what the columns say. */
    ghost predicate InStep()
      reads this
    {
      Agrees(nodes, superseded)
    }

    constructor (norm: Normalizer)
      ensures Valid() && InStep() && log == [] && this.norm == norm
    {
      this.norm, nodes, superseded, nextSeq, log := norm, map[], [], 0, [];
      graph := EntityGraph({}, {}, map[]);
    }

    /** Open a database another process left, however old, whose edges join stored nodes. Columns without
        a superseder are filled from the edges, the claims are otherwise as they were, and the counter
        resumes above every stored number. Columns and edges agree afterwards exactly when the database
        could be migrated; where they agreed before, nothing is filled. */
    constructor Reopen(store: LadybugStore)
      requires store.Valid() && forall l :: l in store.superseded ==> l.from in store.nodes && l.to in store.nodes
      ensures Valid() && norm == store.norm && nextSeq <= store.nextSeq
      ensures IsBackfill(store.nodes, store.superseded, nodes) && superseded == store.superseded && graph == store.graph
      ensures |log| == |store.log| && forall k :: 0 <= k < |log| ==> store.log[k].id in nodes && log[k] == nodes[store.log[k].id].claim
      ensures InStep() <==> Migratable(store.nodes, store.superseded)
      ensures store.InStep() ==> InStep() && nodes == store.nodes && log == store.log
    {
      hide NodesHold, EntityGraph.Faithful, IsBackfill, Migratable, Agrees, Holds;
      norm, superseded, graph := store.norm, store.superseded, store.graph;
      nextSeq := store.nextSeq;
      var filled := Backfill(store.nodes, store.superseded);
      BackfillHolds(store.norm, store.nodes, store.log, store.nextSeq, store.superseded, filled);
      nodes, log := filled, FilledLog(filled, store.log);
      new;
      BackfillIsFaithful(graph, norm, store.nodes, superseded, nodes);
      BackfillAgreesIff(store.nodes, superseded, nodes);
      if store.InStep() {
        NothingToFill(store.nodes, superseded, nodes);
        NodesHoldRows(norm, nodes, store.log, store.nextSeq);
      }
      NodesHoldRows(norm, nodes, log, nextSeq);
      var next := NextSeq(nodes, nextSeq);
      NextMayGrow(norm, nodes, log, nextSeq, next);
      nextSeq := next;
    }

    lemma HasNode(i: Id)
      requires Valid()
      ensures i in nodes <==> Has(log, i)
    {
      NodeAt(norm, nodes, log, nextSeq, i);
    }

    /** The claim's node takes the written content, and its entity edges are those of that content. */
    method WriteNode(c: Claim)
      requires Valid()
      modifies this
      ensures Valid() && log == Put(old(log), c) && superseded == old(superseded)
      ensures nodes.Keys == old(nodes.Keys) + {c.id} && forall i :: i in old(nodes) && i != c.id ==> nodes[i] == old(nodes[i])
      ensures forall name :: name in old(graph.entities) ==>
        name in graph.entities && graph.entities[name] == old(graph.entities[name])
    {
      hide NodesHold, EntityGraph.Faithful, EntityGraph.Rebuilt, Put, Has;
      ghost var before := nodes;
      var row := RowFor(norm, c, if c.id in nodes then nodes[c.id].stamp else nextSeq);
      UpsertHolds(norm, nodes, log, nextSeq, c);
      RebuiltIsFaithful(graph, norm, nodes, row);
      nodes, log := nodes[c.id := row], Put(log, c);
      NodesHoldRows(norm, nodes, log, if c.id in before then nextSeq else nextSeq + 1);
      NextMayGrow(norm, nodes, log, if c.id in before then nextSeq else nextSeq + 1, nextSeq + 1);
      nextSeq := nextSeq + 1;
      forall name | name in graph.entities
        ensures name in graph.Rebuilt(norm, c).entities && graph.Rebuilt(norm, c).entities[name] == graph.entities[name]
      {
        RebuiltKeepsEntities(graph, norm, c, name);
      }
      graph := graph.Rebuilt(norm, c);
    }

    /** The three statements that bring the edges of one claim back in step with the columns. */
    method Reconcile(i: Id, ghost before: Nodes)
      requires Valid() && i in nodes && nodes.Keys == before.Keys + {i}
      requires forall j :: j in before && j != i ==> nodes[j] == before[j]
      modifies this`superseded
      ensures Valid()
      ensures Agrees(before, old(superseded)) ==> (InStep() <==> !LeavesStaleEdge(nodes, old(superseded), i))
    {
      hide NodesHold, EntityGraph.Faithful;
      ghost var edges := superseded;
      superseded := MergeForward(nodes, DropStale(nodes, superseded, i), i);
      superseded := MergeBackward(nodes, superseded, i);
      if Agrees(before, edges) {
        ReconciledAgrees(before, edges, nodes, superseded, i);
      }
    }

    method Write(c: Claim)
      requires Valid()
      modifies this
      ensures Valid() && log == Put(old(log), c)
      ensures nodes.Keys == old(nodes.Keys) + {c.id} && forall i :: i in old(nodes) && i != c.id ==> nodes[i] == old(nodes[i])
      ensures old(InStep()) ==> (InStep() <==> !LeavesStaleEdge(nodes, old(superseded), c.id))
      ensures old(InStep()) && !Has(log, Text("")) ==> InStep()
      ensures old(InStep()) && c.id !in old(nodes) ==> InStep()
    {
      hide NodesHold, EntityGraph.Faithful, Agrees, Put, Has, LeavesStaleEdge;
      ghost var before := nodes;
      WriteNode(c);
      Reconcile(c.id, before);
      NodeAt(norm, nodes, log, nextSeq, Text(""));
      if old(InStep()) && !Has(log, Text("")) {
        NoEmptyIdNoStaleEdge(before, old(superseded), nodes, c.id);
      }
      if old(InStep()) && c.id !in before {
        NewIdNoStaleEdge(before, old(superseded), nodes, c.id);
      }
    }

    method Add(claim: Claim)
      requires Valid()
      modifies this
      ensures Valid() && log == Step(old(log), Op.Add(claim), 0)
      ensures old(InStep()) && (!Has(log, Text("")) || claim.id !in old(nodes)) ==> InStep()
    {
      Write(claim);
    }

    method Find(i: Id) returns (c: Option<Claim>)
      requires Valid()
      ensures c == Get(log, i)
    {
      NodeAt(norm, nodes, log, nextSeq, i);
      c := if i in nodes then Some(nodes[i].claim) else None;
    }

    /** One transaction: the checks, the correction, the edge, the columns of the old node. */
    method Supersede(oldId: Id, newClaim: Claim, at: Time) returns (refused: Option<Refusal>)
      requires Valid()
      modifies this
      ensures Valid() && log == Step(old(log), Op.Supersede(oldId, newClaim), at)
      ensures refused == Outcome(old(log), Op.Supersede(oldId, newClaim))
      ensures RefusedFor(old(log), oldId, newClaim.id, refused)
      ensures old(InStep()) && !Has(log, Text("")) ==> InStep()
    {
      hide NodesHold, EntityGraph.Faithful, Agrees, Put, RefusedFor;
      NodesHoldRows(norm, nodes, log, nextSeq);
      RefusalMeans(log, oldId, newClaim);
      var stored := Find(oldId);
      refused := Refuses(stored, oldId, newClaim.id);
      if refused.None? {
        GetPut(log, newClaim, oldId);
        Write(newClaim);
        NodeAt(norm, nodes, log, nextSeq, oldId);
        NodesHoldRows(norm, nodes, log, nextSeq);
        PutHas(log, Marked(stored.value, newClaim.id, at), Text(""));
        Relate(oldId, newClaim.id, at);
      }
    }

    method Relate(oldId: Id, newId: Id, at: Time)
      requires Valid() && oldId in nodes && newId in nodes && oldId != newId
      requires nodes[oldId].claim.supersededBy.None?
      modifies this
      ensures Valid() && log == Put(old(log), Marked(old(nodes)[oldId].claim, newId, at))
      ensures old(InStep()) ==> InStep()
    {
      hide NodesHold, EntityGraph.Faithful, Holds, Agrees, Put, Has;
      var row := nodes[oldId].(claim := Marked(nodes[oldId].claim, newId, at));
      NodeNormed(norm, nodes, log, nextSeq, oldId);
      MarkHolds(norm, nodes, log, nextSeq, oldId, row);
      MarkIsFaithful(graph, norm, nodes, oldId, row);
      if InStep() {
        CreateAgrees(nodes, superseded, oldId, newId, nodes[oldId := row]);
      }
      superseded := superseded + [Link(oldId, newId)];
      nodes, log := nodes[oldId := row], Put(log, row.claim);
    }

    // ---- Queries -----------------------------------------------------------------------

    method CurrentClaims(subject: Text, property: Option<Text>) returns (r: seq<Claim>)
      requires Valid()
      ensures r == Current(log, norm, subject, property) && AnswersCurrent(log, norm, subject, property, r)
    {
      hide NodesHold, Holds, AnswersCurrent, EntityGraph.Faithful;
      NodesHoldRows(norm, nodes, log, nextSeq);
      CurrentAnswers(log, norm, subject, property);
      var rows := Query(norm, nodes, log, nextSeq, AskCurrent(norm, subject, property), false);
      r := ClaimsOf(rows);
      AnswersAgree(norm, NodeRows(nodes, log), log, subject, property);
    }

    method HistoryOf(subject: Text, property: Text) returns (r: seq<Claim>)
      requires Valid()
      ensures r == History(log, norm, subject, property) && AnswersHistory(log, norm, subject, property, r)
    {
      hide NodesHold, Holds, AnswersHistory, EntityGraph.Faithful;
      NodesHoldRows(norm, nodes, log, nextSeq);
      HistoryAnswers(log, norm, subject, property);
      var rows := Query(norm, nodes, log, nextSeq, AskKey(norm, subject, property), true);
      r := ClaimsOf(rows);
      AnswersAgree(norm, NodeRows(nodes, log), log, subject, Some(property));
    }

    /** The claims about the subject that an edge leads out of, once for each edge. With edges in step these
        are the superseded claims whose superseder is stored, in insertion order. */
    method DeadEndsOf(subject: Text) returns (r: seq<Claim>)
      requires Valid()
      ensures |r| == |Filter(OnSubject(norm, nodes, subject), superseded)|
      ensures forall c :: c in r <==> c in log && norm(c.subject) == norm(subject) && exists l :: l in superseded && l.from == c.id
      ensures InStep() ==> r == LinkedDeadEnds(log, norm, subject)
    {
      hide NodesHold, Holds, Agrees;
      var links := Filter(OnSubject(norm, nodes, subject), superseded);
      var walked := RowsFrom(nodes, links);
      r := ClaimsOf(Sort(ByStamp(), walked));
      WalkedClaims(norm, nodes, superseded, log, nextSeq, subject);
      if InStep() {
        WalkInStep(norm, nodes, superseded, log, nextSeq, subject);
      }
    }

    method AllClaims() returns (r: seq<Claim>)
      requires Valid()
      ensures r == log
    {
      hide NodesHold, Holds;
      var rows := Query(norm, nodes, log, nextSeq, (_: Row) => true, false);
      r := ClaimsOf(rows);
      NodesHoldRows(norm, nodes, log, nextSeq);
      KeepAll(NodeRows(nodes, log));
    }
  }

  lemma NodesHoldRows(norm: Normalizer, nodes: Nodes, log: Log, next: nat)
    requires NodesHold(norm, nodes, log, next)
    ensures (forall c :: c in log ==> c.id in nodes) && Holds(norm, NodeRows(nodes, log), log)
    ensures forall i :: i in nodes ==> nodes[i].stamp < next
    ensures Increasing(NodeRows(nodes, log)) && DistinctIds(log)
    ensures ClaimsOf(NodeRows(nodes, log)) == log
  {
  }

  lemma {:induction false} KeepAll(rows: seq<Row>)
    ensures Filter((_: Row) => true, rows) == rows
  {
    if rows != [] {
      SplitLast(rows);
      KeepAll(rows[..|rows| - 1]);
    }
  }

  lemma NodeNormed(norm: Normalizer, nodes: Nodes, log: Log, next: nat, i: Id)
    requires NodesHold(norm, nodes, log, next) && i in nodes
    ensures nodes[i] == RowFor(norm, nodes[i].claim, nodes[i].stamp) && nodes[i].claim.id == i
  {
    NodeAt(norm, nodes, log, next, i);
    assert NodeRows(nodes, log)[Position(log, i)] == nodes[i];
  }

  lemma MarkIsFaithful(graph: EntityGraph, norm: Normalizer, nodes: Nodes, i: Id, row: Row)
    requires graph.Faithful(norm, nodes) && i in nodes
    requires row.claim.subject == nodes[i].claim.subject && row.claim.value == nodes[i].claim.value
    ensures graph.Faithful(norm, nodes[i := row])
  {
  }

  lemma MarkHolds(norm: Normalizer, nodes: Nodes, log: Log, next: nat, i: Id, row: Row)
    requires NodesHold(norm, nodes, log, next) && i in nodes
    requires row == RowFor(norm, row.claim, nodes[i].stamp) && row.claim.id == i
    ensures NodesHold(norm, nodes[i := row], Put(log, row.claim), next)
  {
    UpsertHolds(norm, nodes, log, next, row.claim);
  }

  /** One above the highest stored number, or zero. */
  method NextSeq(nodes: Nodes, ghost bound: nat) returns (next: nat)
    requires forall i :: i in nodes ==> nodes[i].stamp < bound
    ensures next <= bound && forall i :: i in nodes ==> nodes[i].stamp < next
    ensures next == 0 || exists i :: i in nodes && nodes[i].stamp == next - 1
  {
    next := 0;
    var done: set<Id> := {};
    while done != nodes.Keys
      invariant done <= nodes.Keys && next <= bound
      invariant forall i :: i in done ==> nodes[i].stamp < next
      invariant next == 0 || exists i :: i in nodes && nodes[i].stamp == next - 1
      decreases nodes.Keys - done
    {
      var i :| i in nodes.Keys && i !in done;
      if nodes[i].stamp >= next {
        next := nodes[i].stamp + 1;
      }
      done := done + {i};
    }
  }
}
