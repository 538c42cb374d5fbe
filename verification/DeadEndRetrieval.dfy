/** Showing a node what was believed and corrected, newest corrections first (grapharc/memory/retrieval.py). */
module DeadEndRetrieval {
  import opened Options
  import opened Seqs
  import opened Sorting
  import opened Texts
  import opened Claims
  import opened ClaimLog
  import opened Corpus
  import opened Index
  import opened Retrieval
  import opened Search
  import opened MemoryBackend
  import opened Conflicts

  const DEFAULT_LEXICAL_WEIGHT := 0.6
  const MIN_SIMILARITY := 0.15

  /** The request that scores the dead ends against each other. */
  function Relevance(query: Option<Text>): Request {
    Request(query, [], 0, 0, 0.0, DEFAULT_LEXICAL_WEIGHT, MIN_SIMILARITY, true)
  }

  function CorrectedAt(c: Claim): Time { if c.supersededAt.Some? then c.supersededAt.value else c.observedAt }

  /** Descending by rounded relevance, then time of correction, time of observation, and id. */
  predicate Before(env: Env, scores: Scores, a: Claim, b: Claim) {
    var r, r' := env.round(ScoreOf(scores, a.id)), env.round(ScoreOf(scores, b.id));
    r > r' || (r == r' && NewerThan(a, b))
  }

  predicate NewerThan(a: Claim, b: Claim) {
    CorrectedAt(a) > CorrectedAt(b)
    || (CorrectedAt(a) == CorrectedAt(b)
        && (a.observedAt > b.observedAt || (a.observedAt == b.observedAt && TextLe(b.id, a.id))))
  }

  function NewestFirst(env: Env, scores: Scores): (Claim, Claim) -> bool {
    (a: Claim, b: Claim) => Before(env, scores, a, b)
  }

  lemma NewestFirstIsTotal(env: Env, scores: Scores, claims: seq<Claim>)
    requires DistinctIds(claims)
    ensures TotalPreorder(NewestFirst(env, scores)) && Antisymmetric(NewestFirst(env, scores), claims)
  {
    hide TextLe;
    TextOrder();
    var le := NewestFirst(env, scores);
    forall a, b ensures le(a, b) || le(b, a) {
    }
    forall a, b, c | le(a, b) && le(b, c) ensures le(a, c) {
    }
  }

  /** The superseded claims of a log about the entities, each once. */
  ghost predicate IsDeadScope(norm: Normalizer, log: Log, entities: seq<Text>, claims: seq<Claim>) {
    && DistinctIds(claims)
    && forall c :: c in claims <==> c in log && !c.IsCurrent() && Names(norm, entities, norm(c.subject))
  }

  ghost function DeadScores(env: Env, embedder: Option<Embedder>, found: seq<Claim>, query: Option<Text>): Scores {
    TextScores(env, FirstById(found), embedder, Relevance(query))
  }

  ghost function DeadEndRanking(env: Env, embedder: Option<Embedder>, found: seq<Claim>, query: Option<Text>): seq<Claim> {
    Sort(NewestFirst(env, DeadScores(env, embedder, found, query)), found)
  }

  /** Which corrections a node is shown, and in which order, does not depend on the order in which the
      claims were stored, the entities were named, or either was repeated. */
  lemma RankingForgetsOrder(env: Env, embedder: Option<Embedder>, log: Log, entities: seq<Text>, found: seq<Claim>,
                            log': Log, entities': seq<Text>, found': seq<Claim>, query: Option<Text>)
    requires IsDeadScope(env.normalize, log, entities, found) && IsDeadScope(env.normalize, log', entities', found')
    requires (forall c :: c in log <==> c in log') && forall e :: e in entities <==> e in entities'
    ensures DeadEndRanking(env, embedder, found, query) == DeadEndRanking(env, embedder, found', query)
  {
    hide TextScores, NewestFirst;
    SameScope(env.normalize, log, entities, found, log', entities', found');
    SameScope(env.normalize, log', entities', found', log, entities, found);
    assert Distinct(found) && Distinct(found');
    SameSetSameMultiset(found, found');
    LoadOrderIsForgotten(found, found');
    var scores := DeadScores(env, embedder, found, query);
    NewestFirstIsTotal(env, scores, found);
    SortIgnoresOrder(NewestFirst(env, scores), found, found');
  }

  lemma SameScope(norm: Normalizer, log: Log, entities: seq<Text>, found: seq<Claim>,
                  log': Log, entities': seq<Text>, found': seq<Claim>)
    requires IsDeadScope(norm, log, entities, found) && IsDeadScope(norm, log', entities', found')
    requires (forall c :: c in log <==> c in log') && forall e :: e in entities <==> e in entities'
    ensures forall c :: c in found ==> c in found'
  {
    forall c | c in found ensures c in found' {
      var e :| e in entities && norm(e) == norm(c.subject);
      assert e in entities';
    }
  }

  lemma NoDeadEnds(norm: Normalizer, log: Log)
    ensures IsDeadScope(norm, log, [], []) && SeenIds([], {})
  {
  }

  lemma DeadScopeIsStored(norm: Normalizer, log: Log, entities: seq<Text>, claims: seq<Claim>, entity: Text)
    requires IsDeadScope(norm, log, entities, claims)
    ensures DistinctIds(claims) && forall c :: c in claims || c in DeadEnds(log, norm, entity) ==> c in log
  {
  }

  lemma DeadScopeGrows(norm: Normalizer, log: Log, entities: seq<Text>, entity: Text, before: seq<Claim>, claims: seq<Claim>)
    requires IsDeadScope(norm, log, entities, before) && DistinctIds(claims)
    requires forall c :: c in claims <==> c in before || c in DeadEnds(log, norm, entity)
    ensures IsDeadScope(norm, log, entities + [entity], claims)
  {
    forall c ensures c in claims <==> c in log && !c.IsCurrent() && Names(norm, entities + [entity], norm(c.subject)) {
      assert IsDeadEndAbout(norm, entity)(c) <==> !c.IsCurrent() && norm(c.subject) == norm(entity);
      assert Names(norm, entities + [entity], norm(c.subject)) <==> Names(norm, entities, norm(c.subject)) || norm(entity) == norm(c.subject);
    }
  }

  method CollectDeadEnds(store: MemoryStore, entities: seq<Text>) returns (out: seq<Claim>)
    requires store.Valid()
    ensures IsDeadScope(store.norm, store.log, entities, out)
  {
    hide MemoryStore.Valid, SeenIds, IsDeadScope;
    out := [];
    NoDeadEnds(store.norm, store.log);
    var seen: set<Id> := {};
    for i := 0 to |entities|
      invariant SeenIds(out, seen) && IsDeadScope(store.norm, store.log, entities[..i], out)
    {
      out, seen := CollectOne(store, entities[..i], entities[i], out, seen);
      assert entities[..i + 1] == entities[..i] + [entities[i]];
    }
    assert entities[..|entities|] == entities;
  }

  method CollectOne(store: MemoryStore, ghost earlier: seq<Text>, entity: Text, out0: seq<Claim>, seen0: set<Id>)
    returns (out: seq<Claim>, seen: set<Id>)
    requires store.Valid() && SeenIds(out0, seen0) && IsDeadScope(store.norm, store.log, earlier, out0)
    ensures SeenIds(out, seen) && IsDeadScope(store.norm, store.log, earlier + [entity], out)
  {
    hide MemoryStore.Valid, DeadEnds, SeenIds, IsDeadScope, DistinctIds;
    DistinctLog(store);
    var found := store.DeadEndsOf(entity);
    DeadScopeIsStored(store.norm, store.log, earlier, out0, entity);
    out, seen := Collect(store.log, out0, seen0, found);
    DeadScopeGrows(store.norm, store.log, earlier, entity, out0, out);
  }

  /** The first of the ranked corrections of the named entities, and the number of the others. */
  ghost predicate IsDeadEndAnswer(env: Env, embedder: Option<Embedder>, log: Log, entities: seq<Text>, most: int,
                                  query: Option<Text>, shown: seq<Claim>, omitted: nat) {
    exists found :: IsDeadScope(env.normalize, log, entities, found)
                    && shown == Head(DeadEndRanking(env, embedder, found, query), most)
                    && omitted == if |found| > most then |found| - most else 0
  }

  /** More relevant corrections come first; of equally relevant ones those corrected later, or observed
      later where no time of correction is recorded; then those observed later; then by id, downwards. */
  ghost predicate NewestOnTop(env: Env, relevance: Scores, claims: seq<Claim>) {
    forall i, j :: 0 <= i < j < |claims| ==>
      var a, b := claims[i], claims[j];
      var r, r' := env.round(ScoreOf(relevance, a.id)), env.round(ScoreOf(relevance, b.id));
      var t := if a.supersededAt.Some? then a.supersededAt.value else a.observedAt;
      var t' := if b.supersededAt.Some? then b.supersededAt.value else b.observedAt;
      r > r' || (r == r' && (t > t' || (t == t' && (a.observedAt > b.observedAt
        || (a.observedAt == b.observedAt && TextLe(b.id, a.id))))))
  }

  /** The corrections shown start a list of all corrections of the named entities, newest on top: as many
      as asked for, or all but that many of the last if the number is negative. Without a query all are
      equally relevant; with one they are searched for it alone. */
  ghost predicate ShowsNewest(env: Env, embedder: Option<Embedder>, log: Log, entities: seq<Text>, most: int,
                              query: Option<Text>, shown: seq<Claim>, omitted: nat) {
    exists all: seq<Claim>, relevance ::
      && IsDeadScope(env.normalize, log, entities, all) && NewestOnTop(env, relevance, all)
      && (query.None? || query.value.chars == "" ==> relevance == map[])
      && relevance == TextScores(env, FirstById(all), embedder, Request(query, [], 0, 0, 0.0, 0.6, 0.15, true))
      && shown <= all && omitted == (if |all| > most then |all| - most else 0)
      && (most < 0 ==> |shown| == if |all| + most > 0 then |all| + most else 0)
      && (most >= 0 ==> |shown| == |all| - omitted)
  }

  lemma AnswerShowsNewest(env: Env, embedder: Option<Embedder>, log: Log, entities: seq<Text>, most: int,
                          query: Option<Text>, shown: seq<Claim>, omitted: nat)
    requires IsDeadEndAnswer(env, embedder, log, entities, most, query, shown, omitted)
    ensures ShowsNewest(env, embedder, log, entities, most, query, shown, omitted)
  {
    hide TextScores, NewestFirst, TextLe, FirstById;
    var found :| IsDeadScope(env.normalize, log, entities, found)
                 && shown == Head(DeadEndRanking(env, embedder, found, query), most)
                 && omitted == if |found| > most then |found| - most else 0;
    var all, relevance := DeadEndRanking(env, embedder, found, query), DeadScores(env, embedder, found, query);
    RankingIsOrdered(env, embedder, found, query);
    RankedScope(env, embedder, log, entities, found, query);
    if query.None? || query.value.chars == "" {
      NoQueryNoText(env, FirstById(found), embedder, Relevance(query));
    }
    assert IsDeadScope(env.normalize, log, entities, all) && NewestOnTop(env, relevance, all);
  }

  lemma RankingIsOrdered(env: Env, embedder: Option<Embedder>, found: seq<Claim>, query: Option<Text>)
    requires DistinctIds(found)
    ensures NewestOnTop(env, DeadScores(env, embedder, found, query), DeadEndRanking(env, embedder, found, query))
  {
    hide TextScores, TextLe, DeadScores;
    var scores := DeadScores(env, embedder, found, query);
    NewestFirstIsTotal(env, scores, found);
    SortSorts(NewestFirst(env, scores), found);
    var all := DeadEndRanking(env, embedder, found, query);
    forall i, j | 0 <= i < j < |all| ensures Before(env, scores, all[i], all[j]) {
      assert NewestFirst(env, scores)(all[i], all[j]);
    }
  }

  lemma RankedScope(env: Env, embedder: Option<Embedder>, log: Log, entities: seq<Text>, found: seq<Claim>, query: Option<Text>)
    requires IsDeadScope(env.normalize, log, entities, found)
    ensures var all := DeadEndRanking(env, embedder, found, query);
      IsDeadScope(env.normalize, log, entities, all) && |all| == |found| && FirstById(all) == FirstById(found)
  {
    hide NewestFirst, DeadScores, Names, FirstById;
    var le, all := NewestFirst(env, DeadScores(env, embedder, found, query)), DeadEndRanking(env, embedder, found, query);
    SortPermutes(le, found);
    SameElements(all, found);
    assert Distinct(found);
    SortKeepsDistinct(le, found);
    forall i, j | 0 <= i < j < |all| ensures all[i].id != all[j].id {
      assert all[i] in found && all[j] in found;
    }
    LoadOrderIsForgotten(found, all);
  }

  /** Stores that hold the same claims, in whatever order, give the same answer. */
  lemma AnswerForgetsOrder(env: Env, embedder: Option<Embedder>, log: Log, entities: seq<Text>, log': Log, entities': seq<Text>,
                           most: int, query: Option<Text>, shown: seq<Claim>, omitted: nat, shown': seq<Claim>, omitted': nat)
    requires IsDeadEndAnswer(env, embedder, log, entities, most, query, shown, omitted)
    requires IsDeadEndAnswer(env, embedder, log', entities', most, query, shown', omitted')
    requires (forall c :: c in log <==> c in log') && forall e :: e in entities <==> e in entities'
    ensures shown == shown' && omitted == omitted'
  {
    hide IsDeadScope, DeadEndRanking;
    var found :| IsDeadScope(env.normalize, log, entities, found)
                 && shown == Head(DeadEndRanking(env, embedder, found, query), most)
                 && omitted == if |found| > most then |found| - most else 0;
    var found' :| IsDeadScope(env.normalize, log', entities', found')
                  && shown' == Head(DeadEndRanking(env, embedder, found', query), most)
                  && omitted' == if |found'| > most then |found'| - most else 0;
    RankingForgetsOrder(env, embedder, log, entities, found, log', entities', found', query);
    RankingKeepsAll(env, embedder, found, query);
    RankingKeepsAll(env, embedder, found', query);
  }

  lemma RankingKeepsAll(env: Env, embedder: Option<Embedder>, found: seq<Claim>, query: Option<Text>)
    ensures |DeadEndRanking(env, embedder, found, query)| == |found|
  {
    var le := NewestFirst(env, DeadScores(env, embedder, found, query));
    SortPermutes(le, found);
    SameElements(Sort(le, found), found);
  }

  /** The corrections to show, best first, and how many were left out. With a query they are scored
      against each other alone. */
  method RetrieveDeadEnds(env: Env, embedder: Option<Embedder>, store: MemoryStore, entities: seq<Text>, most: int,
                          query: Option<Text>) returns (shown: seq<Claim>, omitted: nat)
    requires store.Valid() && store.norm == env.normalize
    ensures IsDeadEndAnswer(env, embedder, store.log, entities, most, query, shown, omitted)
    ensures ShowsNewest(env, embedder, store.log, entities, most, query, shown, omitted)
  {
    hide ShowsNewest, IsDeadScope, TextScores, NewestFirst, PostingsOk, LengthsOk, ListsOk, Enumerates;
    var out := CollectDeadEnds(store, entities);
    var req := Relevance(query);
    var scores: Scores := map[];
    if req.HasQuery() {
      var idx := new ClaimIndex(env, out);
      scores := TextChannels(idx, embedder, req);
    } else {
      NoQueryNoText(env, FirstById(out), embedder, req);
    }
    SortPermutes(NewestFirst(env, scores), out);
    assert |multiset(out)| == |out| == |Sort(NewestFirst(env, scores), out)| by {
      SameElements(Sort(NewestFirst(env, scores), out), out);
    }
    var ranked := Sort(NewestFirst(env, scores), out);
    shown := Head(ranked, most);
    omitted := if |ranked| > most then |ranked| - most else 0;
    assert IsDeadScope(env.normalize, store.log, entities, out);
    AnswerShowsNewest(env, embedder, store.log, entities, most, query, shown, omitted);
  }
}
