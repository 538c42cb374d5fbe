/** The three stores side by side: any run of operations, asked the same questions. */
module StoreAgreement {
  import opened Options
  import opened Sorting
  import opened Texts
  import opened Claims
  import opened ClaimLog
  import opened Tables
  import opened Supersession
  import opened MemoryBackend
  import opened SqliteBackend
  import opened LadybugBackend

  /** The log a run leaves of the one it started from, where `ticks[k]` is the clock's answer to the
      k-th operation. */
  ghost function RunFrom(log: Log, ops: seq<Op>, ticks: seq<Time>): Log
    requires |ops| == |ticks|
  {
    if ops == [] then log
    else
      var n := |ops| - 1;
      Step(RunFrom(log, ops[..n], ticks[..n]), ops[n], ticks[n])
  }

  /** The log a run leaves of an empty store. */
  ghost function RunLog(ops: seq<Op>, ticks: seq<Time>): Log
    requires |ops| == |ticks|
  {
    RunFrom([], ops, ticks)
  }

  lemma RunOneMore(log: Log, ops: seq<Op>, ticks: seq<Time>, k: nat)
    requires k < |ops| == |ticks|
    ensures RunFrom(log, ops[..k + 1], ticks[..k + 1]) == Step(RunFrom(log, ops[..k], ticks[..k]), ops[k], ticks[k])
  {
    hide Step;
    assert ops[..k + 1][..k] == ops[..k] && ticks[..k + 1][..k] == ticks[..k];
  }

  /** What the k-th operation of a run is refused with. */
  ghost function RefusedAt(ops: seq<Op>, ticks: seq<Time>, k: nat): Option<Refusal>
    requires |ops| == |ticks| && k < |ops|
  {
    Outcome(RunLog(ops[..k], ticks[..k]), ops[k])
  }

  lemma {:induction false} RunKeepsDistinct(log: Log, ops: seq<Op>, ticks: seq<Time>)
    requires |ops| == |ticks| && DistinctIds(log)
    ensures DistinctIds(RunFrom(log, ops, ticks))
  {
    if ops != [] {
      var n := |ops| - 1;
      RunKeepsDistinct(log, ops[..n], ticks[..n]);
      StepKeepsDistinct(RunFrom(log, ops[..n], ticks[..n]), ops[n], ticks[n]);
    }
  }

  function Written(op: Op): Claim {
    if op.Add? then op.claim else op.newClaim
  }

  ghost predicate NoEmptyId(ops: seq<Op>) {
    forall op :: op in ops ==> Written(op).id != Text("")
  }

  lemma StepHasNoEmptyId(log: Log, op: Op, at: Time)
    requires DistinctIds(log) && !Has(log, Text("")) && Written(op).id != Text("")
    ensures !Has(Step(log, op, at), Text(""))
  {
    if Outcome(log, op).None? {
      PutHas(log, Written(op), Text(""));
      if op.Supersede? {
        PutKeepsDistinct(log, op.newClaim);
        PutHas(Put(log, op.newClaim), Marked(Get(log, op.oldId).value, op.newClaim.id, at), Text(""));
      }
    }
  }

  method Apply(memory: MemoryStore, sqlite: SqliteStore, ladybug: LadybugStore, op: Op, at: Time)
    returns (refusals: seq<Option<Refusal>>)
    requires memory.Valid() && sqlite.Valid() && ladybug.Valid()
    requires memory.log == sqlite.log == ladybug.log
    modifies memory, sqlite, ladybug
    ensures memory.Valid() && sqlite.Valid() && ladybug.Valid()
    ensures memory.log == sqlite.log == ladybug.log == Step(old(memory.log), op, at)
    ensures refusals == [Outcome(old(memory.log), op), Outcome(old(memory.log), op), Outcome(old(memory.log), op)]
    ensures old(ladybug.InStep()) && !Has(ladybug.log, Text("")) ==> ladybug.InStep()
  {
    hide Step, Has;
    match op {
      case Add(c) =>
        memory.Add(c);
        sqlite.Add(c);
        ladybug.Add(c);
        AddNeedsNoClock(old(memory.log), c, at);
        refusals := [None, None, None];
      case Supersede(oldId, c) =>
        var r0 := memory.Supersede(oldId, c, at);
        var r1 := sqlite.Supersede(oldId, c, at);
        var r2 := ladybug.Supersede(oldId, c, at);
        refusals := [r0, r1, r2];
    }
  }

  lemma AddNeedsNoClock(log: Log, c: Claim, at: Time)
    ensures Step(log, Op.Add(c), at) == Step(log, Op.Add(c), 0)
  {
  }

  /** Any run, with the same clock answers, leaves all three stores with the same log, and all three
      refuse the same operations for the same reasons. Without empty ids the graph's edges agree with
      its columns at the end. */
  method Replay(norm: Normalizer, ops: seq<Op>, ticks: seq<Time>)
    returns (memory: MemoryStore, sqlite: SqliteStore, ladybug: LadybugStore, refusals: seq<seq<Option<Refusal>>>)
    requires |ops| == |ticks|
    ensures fresh(memory) && fresh(sqlite) && fresh(ladybug)
    ensures memory.norm == sqlite.norm == ladybug.norm == norm
    ensures memory.Valid() && sqlite.Valid() && ladybug.Valid()
    ensures memory.log == sqlite.log == ladybug.log == RunLog(ops, ticks)
    ensures |refusals| == |ops| && forall k :: 0 <= k < |ops| ==>
      refusals[k] == [RefusedAt(ops, ticks, k), RefusedAt(ops, ticks, k), RefusedAt(ops, ticks, k)]
    ensures NoEmptyId(ops) ==> ladybug.InStep()
  {
    hide Step, Outcome, Has, MemoryStore.Valid, SqliteStore.Valid, LadybugStore.Valid, LadybugStore.InStep;
    memory := new MemoryStore(norm);
    sqlite := new SqliteStore(norm);
    ladybug := new LadybugStore(norm);
    refusals := [];
    NothingStored();
    for k := 0 to |ops|
      invariant fresh(memory) && fresh(sqlite) && fresh(ladybug)
      invariant memory.norm == sqlite.norm == ladybug.norm == norm
      invariant memory.Valid() && sqlite.Valid() && ladybug.Valid()
      invariant memory.log == sqlite.log == ladybug.log == RunLog(ops[..k], ticks[..k])
      invariant |refusals| == k && forall j :: 0 <= j < k ==>
        refusals[j] == [RefusedAt(ops, ticks, j), RefusedAt(ops, ticks, j), RefusedAt(ops, ticks, j)]
      invariant NoEmptyId(ops) ==> ladybug.InStep() && !Has(ladybug.log, Text(""))
    {
      if NoEmptyId(ops) {
        assert ops[k] in ops;
        RunKeepsDistinct([], ops[..k], ticks[..k]);
        StepHasNoEmptyId(memory.log, ops[k], ticks[k]);
      }
      var answers := Apply(memory, sqlite, ladybug, ops[k], ticks[k]);
      assert ops[..k + 1][..k] == ops[..k] && ticks[..k + 1][..k] == ticks[..k];
      refusals := refusals + [answers];
    }
    assert ops[..|ops|] == ops && ticks[..|ticks|] == ticks;
  }

  lemma NothingStored()
    ensures !Has([], Text(""))
  {
  }

  datatype Answers = Answers(current: seq<Claim>, history: seq<Claim>, all: seq<Claim>, found: Option<Claim>)

  /** Asked the same questions, stores with the same log answer alike: `get`, `history` and `all_claims`
      always, `current` unless the predicate is empty. */
  method AskAll(memory: MemoryStore, sqlite: SqliteStore, ladybug: LadybugStore,
                i: Id, subject: Text, property: Option<Text>, key: Text)
    returns (m: Answers, s: Answers, l: Answers)
    requires memory.Valid() && sqlite.Valid() && ladybug.Valid()
    requires memory.norm == sqlite.norm == ladybug.norm && memory.log == sqlite.log == ladybug.log
    ensures m.found == s.found == l.found && m.history == s.history == l.history && m.all == s.all == l.all
    ensures s.current == l.current && (property != Some(Text("")) ==> m.current == s.current)
  {
    hide MemoryStore.Valid, SqliteStore.Valid, LadybugStore.Valid, Current, History, Get;
    var f0 := memory.Find(i);
    var f1 := sqlite.Find(i);
    var f2 := ladybug.Find(i);
    var c0 := memory.CurrentClaims(subject, property);
    var c1 := sqlite.CurrentClaims(subject, property);
    var c2 := ladybug.CurrentClaims(subject, property);
    var h0 := memory.HistoryOf(subject, key);
    var h1 := sqlite.HistoryOf(subject, key);
    var h2 := ladybug.HistoryOf(subject, key);
    var a0 := memory.AllClaims();
    var a1 := sqlite.AllClaims();
    var a2 := ladybug.AllClaims();
    m, s, l := Answers(c0, h0, a0, f0), Answers(c1, h1, a1, f1), Answers(c2, h2, a2, f2);
    assert property != Some(Text("")) ==> Truthy(property) == property;
  }

  /** Asked for dead ends, the dictionary and the row table always answer alike, and so does a graph whose
      edges are in step once every superseder is stored. */
  method AskDeadEnds(memory: MemoryStore, sqlite: SqliteStore, ladybug: LadybugStore, subject: Text)
    returns (m: seq<Claim>, s: seq<Claim>, l: seq<Claim>)
    requires memory.Valid() && sqlite.Valid() && ladybug.Valid()
    requires memory.norm == sqlite.norm == ladybug.norm && memory.log == sqlite.log == ladybug.log
    ensures m == s && (ladybug.InStep() && Closed(memory.log) ==> s == l)
  {
    m := memory.DeadEndsOf(subject);
    s := sqlite.DeadEndsOf(subject);
    l := ladybug.DeadEndsOf(subject);
    if Closed(memory.log) {
      ClosedDeadEnds(memory.log, memory.norm, subject);
    }
  }

  // ---- Importing a set of claims -------------------------------------------------------

  lemma PutNew(log: Log, c: Claim)
    requires DistinctIds(log + [c])
    ensures Put(log, c) == log + [c]
  {
    var all := log + [c];
    assert all[|log|] == c && forall k :: 0 <= k < |log| ==> all[k] == log[k];
  }

  /** Add claims one after the other, into an empty graph. */
  method Import(norm: Normalizer, claims: seq<Claim>) returns (store: LadybugStore)
    requires DistinctIds(claims)
    ensures fresh(store) && store.Valid() && store.InStep() && store.norm == norm && store.log == claims
  {
    hide Put, Has, LadybugStore.Valid, LadybugStore.InStep;
    store := new LadybugStore(norm);
    for k := 0 to |claims|
      invariant fresh(store) && store.Valid() && store.InStep() && store.norm == norm && store.log == claims[..k]
    {
      assert claims[..k + 1] == claims[..k] + [claims[k]];
      PutNew(claims[..k], claims[k]);
      NotYetStored(claims, k);
      store.HasNode(claims[k].id);
      store.Add(claims[k]);
    }
    assert claims[..|claims|] == claims;
  }

  lemma NotYetStored(claims: seq<Claim>, k: nat)
    requires DistinctIds(claims) && k < |claims|
    ensures !Has(claims[..k], claims[k].id)
  {
  }

  lemma SameNodes(norm: Normalizer, nodes: Nodes, log: Log, next: nat, nodes': Nodes, log': Log, next': nat, i: Id)
    requires NodesHold(norm, nodes, log, next) && NodesHold(norm, nodes', log', next')
    requires forall c :: c in log <==> c in log'
    ensures i in nodes <==> i in nodes'
    ensures i in nodes ==> nodes[i].claim == nodes'[i].claim
  {
    hide Holds;
    NodeAt(norm, nodes, log, next, i);
    NodeAt(norm, nodes', log', next', i);
    if Has(log, i) {
      assert log[Position(log, i)] in log';
      var k :| 0 <= k < |log'| && log'[k] == log[Position(log, i)];
      PositionUnique(log', k);
    }
    if Has(log', i) {
      assert log'[Position(log', i)] in log;
      var k :| 0 <= k < |log| && log[k] == log'[Position(log', i)];
      PositionUnique(log, k);
    }
  }

  lemma SameGraph(norm: Normalizer, a: LadybugStore, b: LadybugStore)
    requires a.Valid() && b.Valid() && a.InStep() && b.InStep() && a.norm == b.norm == norm
    requires forall c :: c in a.log <==> c in b.log
    ensures multiset(a.superseded) == multiset(b.superseded)
    ensures a.graph.about == b.graph.about && a.graph.mentions == b.graph.mentions
  {
    hide NodesHold, Agrees;
    forall i ensures (i in a.nodes <==> i in b.nodes) && (i in a.nodes ==> a.nodes[i].claim == b.nodes[i].claim) {
      SameNodes(norm, a.nodes, a.log, a.nextSeq, b.nodes, b.log, b.nextSeq, i);
    }
    assert a.nodes.Keys == b.nodes.Keys;
    AgreementDetermines(a.nodes, a.superseded, b.nodes, b.superseded);
    SameAttached(norm, a.nodes, b.nodes, a.graph.about, b.graph.about, SubjectOf());
    SameAttached(norm, a.nodes, b.nodes, a.graph.mentions, b.graph.mentions, ValueOf());
  }

  lemma SameAttached(norm: Normalizer, nodes: Nodes, nodes': Nodes, edges: set<Mention>, edges': set<Mention>,
                     pick: Claim -> Text)
    requires AttachedBy(norm, nodes, edges, pick) && AttachedBy(norm, nodes', edges', pick)
    requires forall i :: i in nodes <==> i in nodes'
    requires forall i :: i in nodes ==> nodes[i].claim == nodes'[i].claim
    ensures edges == edges'
  {
    forall m ensures m in edges <==> m in edges' {
    }
  }

  ghost predicate Corrects(log: Log, l: Link) {
    exists c, n :: c in log && n in log && l == Link(c.id, n.id) && c.supersededBy == Some(n.id)
  }

  lemma BelongsMeans(norm: Normalizer, nodes: Nodes, log: Log, next: nat, l: Link)
    requires NodesHold(norm, nodes, log, next)
    ensures Belongs(nodes, l) <==> Corrects(log, l)
  {
    hide Holds;
    NodeAt(norm, nodes, log, next, l.from);
    NodeAt(norm, nodes, log, next, l.to);
    if Belongs(nodes, l) {
      var c, n := log[Position(log, l.from)], log[Position(log, l.to)];
      assert c in log && n in log && l == Link(c.id, n.id);
    }
    if Corrects(log, l) {
      var c, n :| c in log && n in log && l == Link(c.id, n.id) && c.supersededBy == Some(n.id);
      var k :| 0 <= k < |log| && log[k] == c;
      PositionUnique(log, k);
    }
  }

  /** Whatever order the claims of a set arrive in, the graph ends with the same edges: the same
      supersession edges, each once, and the same entity edges. */
  method ImportInAnyOrder(norm: Normalizer, claims: seq<Claim>, shuffled: seq<Claim>)
    returns (a: LadybugStore, b: LadybugStore)
    requires DistinctIds(claims) && DistinctIds(shuffled) && multiset(claims) == multiset(shuffled)
    ensures fresh(a) && fresh(b) && a.Valid() && b.Valid()
    ensures multiset(a.superseded) == multiset(b.superseded)
    ensures forall l :: multiset(a.superseded)[l] == if Corrects(claims, l) then 1 else 0
    ensures a.graph.about == b.graph.about && a.graph.mentions == b.graph.mentions
  {
    SameElements(claims, shuffled);
    a := Import(norm, claims);
    b := Import(norm, shuffled);
    SameGraph(norm, a, b);
    forall l ensures Belongs(a.nodes, l) <==> Corrects(claims, l) {
      BelongsMeans(norm, a.nodes, a.log, a.nextSeq, l);
    }
  }
}
