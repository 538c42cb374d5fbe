/** The search itself, visiting dictionaries in any order (grapharc/memory/retrieval.py). */
module Search {
  import opened Options
  import opened Seqs
  import opened Sorting
  import opened Texts
  import opened Claims
  import opened Corpus
  import opened Index
  import opened Retrieval

  /** The keys of a dictionary, in an order nothing may depend on. */
  method Keys<T>(m: map<Id, T>) returns (ids: seq<Id>)
    ensures Lists(ids, m.Keys)
  {
    ids := [];
    var rest := m.Keys;
    while rest != {}
      invariant rest <= m.Keys && Distinct(ids)
      invariant forall i :: i in ids <==> i in m.Keys && i !in rest
    {
      var i :| i in rest;
      ids := ids + [i];
      rest := rest - {i};
    }
  }

  method MaxOf(scores: Scores) returns (m: real)
    requires scores != map[]
    ensures m == Best(scores)
  {
    var ids := Keys(scores);
    assert ids != [] by { var i :| i in scores; assert i in ids; }
    m := scores[ids[0]];
    for k := 1 to |ids|
      invariant exists i :: i in scores && scores[i] == m
      invariant forall j :: 0 <= j < k ==> scores[ids[j]] <= m
    {
      if scores[ids[k]] > m {
        m := scores[ids[k]];
      }
    }
    assert IsMax(scores, m);
  }

  method Normalize(scores: Scores) returns (r: Scores)
    ensures r == Normalized(scores)
  {
    if scores == map[] {
      return map[];
    }
    var top := MaxOf(scores);
    if top <= 0.0 {
      return map[];
    }
    r := map i | i in scores :: scores[i] / top;
  }

  /** `hybrid`: only the lexical side is rescaled. */
  method BlendScores(lexical: Scores, vector: Scores, lexicalWeight: real) returns (r: Scores)
    ensures r == Blend(lexical, vector, lexicalWeight)
  {
    var lex := Normalize(lexical);
    if vector == map[] {
      return lex;
    }
    if lex == map[] {
      return vector;
    }
    var w := Clamp(lexicalWeight);
    r := map i | i in lex.Keys + vector.Keys :: Mix(w, ScoreOf(lex, i), ScoreOf(vector, i));
  }

  method RankIds(env: Env, corpus: ClaimMap, scores: Scores) returns (ids: seq<Id>)
    requires Keyed(corpus) && scores.Keys <= corpus.Keys
    ensures ids == Ranking(env, corpus, scores)
  {
    var keys := Keys(scores);
    RankingIsOrderFree(env, corpus, scores, keys);
    ids := Sort(RankOrder(env, corpus, scores), keys);
  }

  method TopScored(env: Env, corpus: ClaimMap, req: Request, scores: Scores) returns (ids: seq<Id>)
    requires Keyed(corpus) && scores.Keys <= corpus.Keys
    ensures ids == Top(env, corpus, req, scores)
  {
    var ranked := RankIds(env, corpus, scores);
    ids := Head(ranked, ExpandLimit(req));
  }

  // ---- Expanding one parent ------------------------------------------------------------

  ghost function ElementSet(ids: seq<Id>): set<Id> {
    set i | i in ids
  }

  lemma NextElement(ids: seq<Id>, k: nat)
    requires k < |ids|
    ensures ElementSet(ids[..k + 1]) == ElementSet(ids[..k]) + {ids[k]}
    ensures Distinct(ids) ==> ids[k] !in ElementSet(ids[..k])
    ensures ElementSet(ids[..0]) == {} && ElementSet(ids[..|ids|]) == ElementSet(ids) && ids[k] in ids
  {
    assert ids[..k + 1] == ids[..k] + [ids[k]];
    assert ids[..|ids|] == ids;
  }

  lemma NoElements(ids: seq<Id>)
    ensures ElementSet(ids[..0]) == {}
  {
  }

  lemma AllElements(ids: seq<Id>, s: set<Id>)
    requires forall i :: i in ids <==> i in s
    ensures ElementSet(ids[..0]) == {} && ElementSet(ids[..|ids|]) == ElementSet(ids) == s
  {
    assert ids[..|ids|] == ids;
  }

  ghost function Promote(promoted: Scores, taken: set<Id>, score: real): Scores {
    promoted + (map i | i in taken :: score)
  }

  lemma AcceptedOneMore(corpus: ClaimMap, req: Request, hits: Hits, offered: set<Id>, score: real, i: Id)
    ensures Accepted(corpus, req, hits, offered + {i}, score)
         == Accepted(corpus, req, hits, offered, score) + if Accepts(corpus, req, hits, i, score) then {i} else {}
    ensures forall j :: j in Accepted(corpus, req, hits, offered, score) ==> j in offered && j in corpus
    ensures Accepts(corpus, req, hits, i, score) ==> i in corpus
  {
  }

  lemma AddToUnion(hits: Hits, taken: set<Id>, corpus: ClaimMap, score: real, hop: nat, parent: Id, i: Id)
    requires taken + {i} <= corpus.Keys
    ensures hits + (map j | j in taken + {i} :: ScoredClaim(corpus[j], score, hop, Some(parent), Graph))
         == (hits + (map j | j in taken :: ScoredClaim(corpus[j], score, hop, Some(parent), Graph)))
            [i := ScoredClaim(corpus[i], score, hop, Some(parent), Graph)]
  {
  }

  lemma NotOfferedYet(corpus: ClaimMap, req: Request, hits: Hits, offered: set<Id>, score: real, hop: nat, parent: Id, i: Id)
    requires i !in offered
    ensures var r := Offer(corpus, req, hits, offered, score, hop, parent);
      Accepts(corpus, req, r, i, score) == Accepts(corpus, req, hits, i, score)
  {
    hide Accepted;
  }

  /** Offers to different claims do not see each other. */
  lemma OfferOneMore(corpus: ClaimMap, req: Request, hits: Hits, offered: set<Id>, score: real, hop: nat, parent: Id, i: Id)
    requires i !in offered
    ensures var r := Offer(corpus, req, hits, offered, score, hop, parent);
      && Accepts(corpus, req, r, i, score) == Accepts(corpus, req, hits, i, score)
      && Offer(corpus, req, hits, offered + {i}, score, hop, parent)
      == if Accepts(corpus, req, hits, i, score) then r[i := ScoredClaim(corpus[i], score, hop, Some(parent), Graph)] else r
  {
    hide Accepted, Accepts;
    NotOfferedYet(corpus, req, hits, offered, score, hop, parent, i);
    AcceptedOneMore(corpus, req, hits, offered, score, i);
    if Accepts(corpus, req, hits, i, score) {
      AddToUnion(hits, Accepted(corpus, req, hits, offered, score), corpus, score, hop, parent, i);
    }
  }

  lemma PromoteOneMore(corpus: ClaimMap, req: Request, hits: Hits, offered: set<Id>, score: real, promoted: Scores, i: Id)
    requires i !in offered
    ensures var p := Promote(promoted, Accepted(corpus, req, hits, offered, score), score);
      Promote(promoted, Accepted(corpus, req, hits, offered + {i}, score), score)
      == if Accepts(corpus, req, hits, i, score) then p[i := score] else p
  {
    hide Accepted, Accepts, Promote;
    AcceptedOneMore(corpus, req, hits, offered, score, i);
    PromoteUnion(promoted, Accepted(corpus, req, hits, offered, score), score, i);
    assert Accepted(corpus, req, hits, offered, score) + {} == Accepted(corpus, req, hits, offered, score);
  }

  lemma PromoteUnion(promoted: Scores, taken: set<Id>, score: real, i: Id)
    ensures Promote(promoted, taken + {i}, score) == Promote(promoted, taken, score)[i := score]
  {
  }

  lemma NoOffer(corpus: ClaimMap, req: Request, hits: Hits, score: real, hop: nat, parent: Id, promoted: Scores)
    ensures Offer(corpus, req, hits, {}, score, hop, parent) == hits
    ensures Promote(promoted, Accepted(corpus, req, hits, {}, score), score) == promoted
  {
  }

  method ExpandOne(idx: ClaimIndex, req: Request, hits0: Hits, promoted0: Scores, hop: nat, parent: Id)
    returns (hits: Hits, promoted: Scores)
    requires idx.Valid() && parent in hits0
    ensures Expansion(hits, promoted) == ExpandParent(idx.env, idx.byId, req, Expansion(hits0, promoted0), hop, parent)
  {
    hide Offer, Accepted, Promote, Accepts, Decayed, Neighbours, PostingsOk, LengthsOk, ListsOk, Enumerates, ElementSet, Distinct;
    hits, promoted := hits0, promoted0;
    var inherited := Decayed(hits[parent].score, req.hopDecay);
    var neighbours := idx.NeighbourList(hits[parent].claim);
    NoOffer(idx.byId, req, hits0, inherited, hop, parent, promoted0);
    AllElements(neighbours, Neighbours(idx.env, idx.byId, hits[parent].claim));
    for k := 0 to |neighbours|
      invariant hits == Offer(idx.byId, req, hits0, ElementSet(neighbours[..k]), inherited, hop, parent)
      invariant promoted
             == Promote(promoted0, Accepted(idx.byId, req, hits0, ElementSet(neighbours[..k]), inherited), inherited)
    {
      var i := neighbours[k];
      NextElement(neighbours, k);
      OfferOneMore(idx.byId, req, hits0, ElementSet(neighbours[..k]), inherited, hop, parent, i);
      PromoteOneMore(idx.byId, req, hits0, ElementSet(neighbours[..k]), inherited, promoted0, i);
      if Accepts(idx.byId, req, hits, i, inherited) {
        AcceptsKnown(idx.byId, req, hits, i, inherited);
        hits := hits[i := ScoredClaim(idx.byId[i], inherited, hop, Some(parent), Graph)];
        promoted := promoted[i := inherited];
      }
    }
    PromoteIsUnion(promoted0, Accepted(idx.byId, req, hits0, ElementSet(neighbours), inherited), inherited);
  }

  lemma AcceptsKnown(corpus: ClaimMap, req: Request, hits: Hits, i: Id, score: real)
    requires Accepts(corpus, req, hits, i, score)
    ensures i in corpus
  {
  }

  lemma PromoteIsUnion(promoted: Scores, taken: set<Id>, score: real)
    ensures Promote(promoted, taken, score) == promoted + (map i | i in taken :: score)
  {
  }

  // ---- Expanding frontiers -------------------------------------------------------------

  method ExpandHop(idx: ClaimIndex, req: Request, hits0: Hits, hop: nat, frontier: seq<Id>)
    returns (hits: Hits, promoted: Scores)
    requires idx.Valid() && forall i :: i in frontier ==> i in hits0
    ensures Expansion(hits, promoted) == ExpandAll(idx.env, idx.byId, req, hits0, hop, frontier)
  {
    hide ExpandParent;
    hits, promoted := hits0, map[];
    for k := 0 to |frontier|
      invariant forall i :: i in frontier[..k] ==> i in hits0
      invariant hits0.Keys <= hits.Keys
      invariant Expansion(hits, promoted) == ExpandAll(idx.env, idx.byId, req, hits0, hop, frontier[..k])
    {
      assert frontier[..k + 1][..k] == frontier[..k];
      assert frontier[k] in frontier;
      hits, promoted := ExpandOne(idx, req, hits, promoted, hop, frontier[k]);
    }
    assert frontier[..|frontier|] == frontier;
  }

  method ExpandGraph(idx: ClaimIndex, req: Request, hits0: Hits, frontier0: seq<Id>) returns (hits: Hits)
    requires idx.Valid() && hits0.Keys <= idx.byId.Keys && forall i :: i in frontier0 ==> i in hits0
    ensures hits == Expand(idx.env, idx.byId, req, hits0, 1, frontier0)
    ensures hits.Keys <= idx.byId.Keys
  {
    hide Expand, ExpandAll, Top, PostingsOk, LengthsOk, ListsOk, Enumerates;
    hits := hits0;
    var frontier, hop := frontier0, 1;
    while hop <= req.hops
      invariant 1 <= hop && hits.Keys <= idx.byId.Keys && forall i :: i in frontier ==> i in hits
      invariant Expand(idx.env, idx.byId, req, hits0, 1, frontier0) == Expand(idx.env, idx.byId, req, hits, hop, frontier)
      decreases req.hops - hop
    {
      var promoted;
      ExpandStep(idx.env, idx.byId, req, hits, hop, frontier);
      HitsStayClaims(idx.env, idx.byId, req, hits, hop, frontier);
      hits, promoted := ExpandHop(idx, req, hits, hop, frontier);
      if promoted == map[] {
        return;
      }
      frontier := TopScored(idx.env, idx.byId, req, promoted);
      hop := hop + 1;
    }
    NoMoreHops(idx.env, idx.byId, req, hits, hop, frontier);
  }

  lemma ExpandStep(env: Env, corpus: ClaimMap, req: Request, hits: Hits, hop: nat, frontier: seq<Id>)
    requires hop <= req.hops && forall i :: i in frontier ==> i in hits
    ensures var e := ExpandAll(env, corpus, req, hits, hop, frontier);
      && e.promoted.Keys <= e.hits.Keys
      && Expand(env, corpus, req, hits, hop, frontier)
      == if e.promoted == map[] then e.hits else Expand(env, corpus, req, e.hits, hop + 1, Top(env, corpus, req, e.promoted))
  {
    hide Top, ExpandAll;
    PromotedAreHits(env, corpus, req, hits, hop, frontier);
  }

  lemma NoMoreHops(env: Env, corpus: ClaimMap, req: Request, hits: Hits, hop: nat, frontier: seq<Id>)
    requires hop > req.hops && forall i :: i in frontier ==> i in hits
    ensures Expand(env, corpus, req, hits, hop, frontier) == hits
  {
  }

  lemma {:induction false} HitsStayClaims(env: Env, corpus: ClaimMap, req: Request, hits: Hits, hop: nat, frontier: seq<Id>)
    requires hits.Keys <= corpus.Keys && forall i :: i in frontier ==> i in hits
    ensures ExpandAll(env, corpus, req, hits, hop, frontier).hits.Keys <= corpus.Keys
  {
    if frontier != [] {
      assert forall i :: i in frontier[..|frontier| - 1] ==> i in frontier;
      HitsStayClaims(env, corpus, req, hits, hop, frontier[..|frontier| - 1]);
    }
  }

  // ---- Seeds ---------------------------------------------------------------------------

  datatype Seed = Seed(score: real, channel: Channel)

  /** The seeds once the text scores of the claims in `seen` have been added to the named ones. */
  ghost function SeedsFor(named: set<Id>, text: Scores, vectors: bool, seen: set<Id>): map<Id, Seed> {
    map i | i in named + (set j | j in seen && ScoreOf(text, j) > 0.0) ::
      var t := if i in seen then ScoreOf(text, i) else 0.0;
      Seed(SeedScore(i in named, t), SeedChannel(i in named, t, vectors))
  }

  lemma SeedOneMore(named: set<Id>, text: Scores, vectors: bool, seen: set<Id>, i: Id)
    requires i !in seen && i in text
    ensures var before := SeedsFor(named, text, vectors, seen);
      && (i in before <==> i in named)
      && (i in before ==> before[i] == Seed(ENTITY_SEED_SCORE, Entity))
      && SeedsFor(named, text, vectors, seen + {i})
      == if text[i] <= 0.0 then before
         else before[i := Seed(SeedScore(i in named, text[i]), SeedChannel(i in named, text[i], vectors))]
  {
    var before, after := SeedsFor(named, text, vectors, seen), SeedsFor(named, text, vectors, seen + {i});
    forall j | j != i ensures (j in after <==> j in before) && (j in after ==> after[j] == before[j]) {
    }
  }

  ghost function AllEntity(ids: set<Id>): map<Id, Seed> {
    map i | i in ids :: Seed(ENTITY_SEED_SCORE, Entity)
  }

  lemma AllEntityAdd(ids: set<Id>, i: Id)
    ensures AllEntity(ids)[i := Seed(ENTITY_SEED_SCORE, Entity)] == AllEntity(ids + {i})
  {
  }

  method SeedNamed(idx: ClaimIndex, entities: seq<Text>) returns (seeds: map<Id, Seed>)
    requires idx.Valid()
    ensures seeds == AllEntity(Named(idx.env, idx.byId, entities))
  {
    hide PostingsOk, LengthsOk, ListsOk, Enumerates, AllEntity, Named, ElementSet;
    seeds := map[];
    NoEntity(idx.env, idx.byId, entities);
    for k := 0 to |entities|
      invariant seeds == AllEntity(Named(idx.env, idx.byId, entities[..k]))
    {
      var about := Listed(idx.subjects, idx.env.normalize(entities[k]));
      NamedOneMore(idx.env, idx.byId, idx.subjects, entities, k);
      ghost var before := Named(idx.env, idx.byId, entities[..k]);
      NoElements(about);
      assert before + {} == before;
      for j := 0 to |about|
        invariant seeds == AllEntity(before + ElementSet(about[..j]))
      {
        NextElement(about, j);
        AllEntityAdd(before + ElementSet(about[..j]), about[j]);
        assert before + ElementSet(about[..j + 1]) == before + ElementSet(about[..j]) + {about[j]};
        seeds := seeds[about[j] := Seed(ENTITY_SEED_SCORE, Entity)];
      }
      assert about[..|about|] == about;
    }
    assert entities[..|entities|] == entities;
  }

  lemma NoEntity(env: Env, corpus: ClaimMap, entities: seq<Text>)
    ensures AllEntity(Named(env, corpus, entities[..0])) == map[]
  {
  }

  lemma AllEntityIsNamedSeeds(named: set<Id>, text: Scores, vectors: bool)
    ensures AllEntity(named) == SeedsFor(named, text, vectors, {})
  {
  }

  lemma NamedOneMore(env: Env, corpus: ClaimMap, subjects: EntityLists, entities: seq<Text>, k: nat)
    requires ListsOk(corpus, subjects, SubjectName(env)) && k < |entities|
    ensures Named(env, corpus, entities[..k + 1])
         == Named(env, corpus, entities[..k]) + ElementSet(Listed(subjects, env.normalize(entities[k])))
  {
    assert entities[..k + 1] == entities[..k] + [entities[k]];
  }

  method SeedText(seeds0: map<Id, Seed>, ghost named: set<Id>, text: Scores, vectors: bool) returns (seeds: map<Id, Seed>)
    requires seeds0 == SeedsFor(named, text, vectors, {})
    ensures seeds == SeedsFor(named, text, vectors, text.Keys)
  {
    hide SeedsFor;
    seeds := seeds0;
    var ids := Keys(text);
    assert ElementSet(ids[..0]) == {};
    for k := 0 to |ids|
      invariant seeds == SeedsFor(named, text, vectors, ElementSet(ids[..k]))
    {
      var i := ids[k];
      assert i in ids && ElementSet(ids[..k + 1]) == ElementSet(ids[..k]) + {i};
      SeedOneMore(named, text, vectors, ElementSet(ids[..k]), i);
      if text[i] > 0.0 {
        var namedToo := i in seeds && seeds[i].channel == Entity;
        var before := if i in seeds then seeds[i].score else 0.0;
        seeds := seeds[i := Seed(before + TEXT_SEED_SCALE * text[i], SeedChannel(namedToo, text[i], vectors))];
      }
    }
    assert ElementSet(ids[..|ids|]) == text.Keys;
  }

  ghost function SeedsOffered(corpus: ClaimMap, req: Request, seeds: map<Id, Seed>, offered: set<Id>): Hits {
    map i | i in offered && i in seeds && i in corpus && req.Keeps(corpus[i]) && seeds[i].score > 0.0 ::
      ScoredClaim(corpus[i], seeds[i].score, 0, None, seeds[i].channel)
  }

  lemma SeedOffered(corpus: ClaimMap, req: Request, seeds: map<Id, Seed>, offered: set<Id>, i: Id)
    requires i in seeds && i !in offered
    ensures var hits := SeedsOffered(corpus, req, seeds, offered);
      && Accepts(corpus, req, hits, i, seeds[i].score) == (i in corpus && req.Keeps(corpus[i]) && seeds[i].score > 0.0)
      && SeedsOffered(corpus, req, seeds, offered + {i})
      == if Accepts(corpus, req, hits, i, seeds[i].score)
         then hits[i := ScoredClaim(corpus[i], seeds[i].score, 0, None, seeds[i].channel)] else hits
  {
  }

  method OfferSeeds(corpus: ClaimMap, req: Request, seeds: map<Id, Seed>) returns (hits: Hits)
    ensures hits == SeedsOffered(corpus, req, seeds, seeds.Keys)
  {
    hide SeedsOffered, ElementSet;
    hits := map[];
    var ids := Keys(seeds);
    AllElements(ids, seeds.Keys);
    assert hits == SeedsOffered(corpus, req, seeds, {}) by { NothingOffered(corpus, req, seeds); }
    for k := 0 to |ids|
      invariant hits == SeedsOffered(corpus, req, seeds, ElementSet(ids[..k]))
    {
      var i := ids[k];
      NextElement(ids, k);
      SeedOffered(corpus, req, seeds, ElementSet(ids[..k]), i);
      if Accepts(corpus, req, hits, i, seeds[i].score) {
        hits := hits[i := ScoredClaim(corpus[i], seeds[i].score, 0, None, seeds[i].channel)];
      }
    }
  }

  lemma NothingOffered(corpus: ClaimMap, req: Request, seeds: map<Id, Seed>)
    ensures SeedsOffered(corpus, req, seeds, {}) == map[]
  {
  }

  /** Seeding in any order gives the direct matches. */
  lemma SeedsAreMatches(env: Env, corpus: ClaimMap, req: Request, text: Scores, vectors: bool)
    ensures var seeds := SeedsFor(Named(env, corpus, req.entities), text, vectors, text.Keys);
      SeedsOffered(corpus, req, seeds, seeds.Keys) == SeedHits(env, corpus, req, text, vectors)
  {
    var named := Named(env, corpus, req.entities);
    var seeds := SeedsFor(named, text, vectors, text.Keys);
    var hits := SeedHits(env, corpus, req, text, vectors);
    forall i ensures i in seeds <==> i in Matches(env, corpus, req, text) {
    }
    forall i | i in hits ensures i in seeds && seeds[i].score > 0.0 && hits[i].score == seeds[i].score {
    }
  }

  // ---- The search ----------------------------------------------------------------------

  method TextChannels(idx: ClaimIndex, embedder: Option<Embedder>, req: Request) returns (text: Scores)
    requires idx.Valid() && req.HasQuery()
    ensures text == TextScores(idx.env, idx.byId, embedder, req)
  {
    hide Bm25, Blend, PostingsOk, LengthsOk, ListsOk, Enumerates;
    var lexical := idx.Bm25Scores(req.query.value);
    var vector := map[];
    if embedder.Some? {
      var corpus := idx.byId;
      vector := map i | i in corpus && NonNegative(embedder.value(req.query.value, corpus[i])) >= req.minSimilarity ::
        NonNegative(embedder.value(req.query.value, corpus[i]));
    }
    text := BlendScores(lexical, vector, req.lexicalWeight);
  }

  /** Rank the claims of a store by relevance. The result is a function of the set of claims: the
      order in which they were loaded, and every dictionary order inside, are gone from it. */
  method Search(env: Env, claims: seq<Claim>, embedder: Option<Embedder>, req: Request) returns (result: seq<ScoredClaim>)
    ensures result == SearchResult(env, FirstById(claims), embedder, req)
  {
    hide FinalHits, SeedHits, TextScores, SeedsFor, SeedsOffered, Ranking, PostingsOk, LengthsOk, ListsOk, Enumerates;
    if !req.HasQuery() && req.entities == [] {
      return [];
    }
    var idx := new ClaimIndex(env, claims);
    if idx.byId == map[] {
      return [];
    }
    ghost var named := Named(env, idx.byId, req.entities);
    var seeds := SeedNamed(idx, req.entities);
    ghost var text := TextScores(env, idx.byId, embedder, req);
    AllEntityIsNamedSeeds(named, text, embedder.Some?);
    if req.HasQuery() {
      var scores := TextChannels(idx, embedder, req);
      seeds := SeedText(seeds, named, scores, embedder.Some?);
    } else {
      NoQueryNoText(env, idx.byId, embedder, req);
    }
    SeedsAreMatches(env, idx.byId, req, text, embedder.Some?);
    var hits := OfferSeeds(idx.byId, req, seeds);
    SeedHitsAreClaims(env, idx.byId, req, text, embedder.Some?);
    var frontier := TopScored(env, idx.byId, req, HitScores(hits));
    assert hits == SeedHits(env, idx.byId, req, text, embedder.Some?);
    hits := ExpandGraph(idx, req, hits, frontier);
    assert hits == FinalHits(env, idx.byId, embedder, req) by { FinalHitsFrom(env, idx.byId, embedder, req); }
    var ids := RankIds(env, idx.byId, HitScores(hits));
    result := Head(HitList(hits, ids), req.maxClaims);
  }

  lemma NoQueryNoText(env: Env, corpus: ClaimMap, embedder: Option<Embedder>, req: Request)
    requires !req.HasQuery()
    ensures TextScores(env, corpus, embedder, req) == map[] && TextScores(env, corpus, embedder, req).Keys == {}
  {
  }

  lemma SeedHitsAreClaims(env: Env, corpus: ClaimMap, req: Request, text: Scores, vectors: bool)
    ensures SeedHits(env, corpus, req, text, vectors).Keys <= corpus.Keys
  {
  }

  lemma FinalHitsFrom(env: Env, corpus: ClaimMap, embedder: Option<Embedder>, req: Request)
    ensures var seeds := SeedHits(env, corpus, req, TextScores(env, corpus, embedder, req), embedder.Some?);
      FinalHits(env, corpus, embedder, req)
      == Expand(env, corpus, req, seeds, 1, Top(env, corpus, req, HitScores(seeds)))
  {
  }

  // ---- Load order ----------------------------------------------------------------------

  lemma {:induction false} LoadedClaim(claims: seq<Claim>, k: nat)
    requires DistinctIds(claims) && k < |claims|
    ensures claims[k].id in FirstById(claims) && FirstById(claims)[claims[k].id] == claims[k]
  {
    var front := claims[..|claims| - 1];
    if k < |claims| - 1 {
      LoadedClaim(front, k);
    } else {
      assert forall c :: c in front ==> c.id != claims[k].id;
    }
  }

  /** Loading a permutation of the same claims gives the same corpus, hence the same statistics,
      scores, frontiers and results. */
  lemma LoadOrderIsForgotten(claims: seq<Claim>, permuted: seq<Claim>)
    requires DistinctIds(claims) && DistinctIds(permuted) && multiset(claims) == multiset(permuted)
    ensures FirstById(claims) == FirstById(permuted)
  {
    SameElements(claims, permuted);
    forall c | c in claims ensures c.id in FirstById(permuted) && FirstById(permuted)[c.id] == c {
      var k :| 0 <= k < |permuted| && permuted[k] == c;
      LoadedClaim(permuted, k);
    }
    forall c | c in claims ensures c.id in FirstById(claims) && FirstById(claims)[c.id] == c {
      var k :| 0 <= k < |claims| && claims[k] == c;
      LoadedClaim(claims, k);
    }
  }
}
