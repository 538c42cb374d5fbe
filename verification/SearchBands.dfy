/** What the score bands and the ranking promise about the results of a search
    (grapharc/memory/retrieval.py). */
module SearchBands {
  import opened Options
  import opened Sorting
  import opened Claims
  import opened Corpus
  import opened Retrieval

  // ---- Text scores stay at most one ----------------------------------------------------

  lemma RatioAtMostOne(a: real, b: real)
    requires b > 0.0 && a <= b
    ensures a / b <= 1.0
  {
  }

  lemma MixAtMostOne(w: real, a: real, b: real)
    requires 0.0 <= w <= 1.0 && a <= 1.0 && b <= 1.0
    ensures Mix(w, a, b) <= 1.0
  {
    assert w * (1.0 - a) >= 0.0 && (1.0 - w) * (1.0 - b) >= 0.0;
  }

  ghost predicate AtMostOne(scores: Scores) {
    forall i :: i in scores ==> scores[i] <= 1.0
  }

  lemma NormalizedAtMostOne(scores: Scores)
    ensures AtMostOne(Normalized(scores))
  {
    if scores != map[] && Best(scores) > 0.0 {
      forall i | i in scores ensures scores[i] / Best(scores) <= 1.0 {
        RatioAtMostOne(scores[i], Best(scores));
      }
    }
  }

  lemma BlendAtMostOne(lexical: Scores, vector: Scores, lexicalWeight: real)
    requires AtMostOne(vector)
    ensures AtMostOne(Blend(lexical, vector, lexicalWeight))
  {
    hide Mix, Normalized;
    NormalizedAtMostOne(lexical);
    var lex, w := Normalized(lexical), Clamp(lexicalWeight);
    forall i ensures Mix(w, ScoreOf(lex, i), ScoreOf(vector, i)) <= 1.0 {
      MixAtMostOne(w, ScoreOf(lex, i), ScoreOf(vector, i));
    }
  }

  /** Cosines of unit vectors are at most one. */
  ghost predicate IsCosine(embedder: Embedder) {
    forall q, c :: embedder(q, c) <= 1.0
  }

  lemma TextAtMostOne(env: Env, corpus: ClaimMap, embedder: Option<Embedder>, req: Request)
    requires embedder.Some? ==> IsCosine(embedder.value)
    ensures AtMostOne(TextScores(env, corpus, embedder, req))
  {
    if req.HasQuery() {
      BlendAtMostOne(Bm25(env, corpus, env.tokenize(req.query.value)),
                     Similarity(corpus, embedder, req.query.value, req.minSimilarity), req.lexicalWeight);
    }
  }

  // ---- The bands -----------------------------------------------------------------------

  /** Claims about a named entity score at least 1 and are direct matches; all others at most `top`. */
  ghost predicate InBand(top: real, named: set<Id>, hits: Hits, i: Id)
    requires i in hits
  {
    if i in named then 1.0 <= hits[i].score <= 1.9 && hits[i].hops == 0 && hits[i].via == None
    else hits[i].score <= top
  }

  ghost predicate InBands(top: real, named: set<Id>, hits: Hits) {
    forall i :: i in hits ==> InBand(top, named, hits, i)
  }

  /** The top of the lower band: what a text match alone, or a neighbour of the best match, can score. */
  function BandTop(decay: real): (top: real)
    ensures top >= 0.9 && top >= 1.9 * decay && (top == 0.9 || top == 1.9 * decay)
  {
    if 1.9 * decay <= 0.9 then 0.9 else 1.9 * decay
  }

  /** A decay this small keeps the lower band at 0.9; 0.45 is. */
  predicate SmallDecay(decay: real) { decay <= 9.0 / 19.0 }

  lemma SmallDecayTop(decay: real)
    ensures SmallDecay(decay) <==> BandTop(decay) == 0.9
  {
  }

  lemma GraphScoreIsLow(score: real, decay: real)
    requires 0.0 < score <= 1.9
    ensures Decayed(score, decay) <= BandTop(decay)
  {
    if decay > 0.0 {
      assert score * decay <= 1.9 * decay;
    } else {
      assert score * decay <= 0.0;
    }
  }

  lemma SeedsInBands(top: real, env: Env, corpus: ClaimMap, req: Request, text: Scores, vectors: bool)
    requires AtMostOne(text) && top >= 0.9
    ensures InBands(top, Named(env, corpus, req.entities), SeedHits(env, corpus, req, text, vectors))
  {
  }

  lemma OfferKeepsBands(top: real, corpus: ClaimMap, req: Request, named: set<Id>, hits: Hits, offered: set<Id>, score: real,
                        hop: nat, parent: Id)
    requires InBands(top, named, hits) && score <= top < 1.0 && named <= hits.Keys + Dropped(corpus, req)
    ensures InBands(top, named, Offer(corpus, req, hits, offered, score, hop, parent))
  {
    hide Offer;
    var r := Offer(corpus, req, hits, offered, score, hop, parent);
    forall i | i in r ensures InBand(top, named, r, i) {
      if i in hits {
        assert InBand(top, named, hits, i);
      }
      if i in named {
        assert i in hits || i in Dropped(corpus, req);
      }
    }
  }

  /** Claims a request leaves out, such as superseded ones. */
  ghost function Dropped(corpus: ClaimMap, req: Request): set<Id> {
    set i | i in corpus && !req.Keeps(corpus[i])
  }

  /** The kept claims about a named entity are hits from the start. */
  lemma NamedAreSeeded(env: Env, corpus: ClaimMap, req: Request, text: Scores, vectors: bool)
    ensures Named(env, corpus, req.entities) <= SeedHits(env, corpus, req, text, vectors).Keys + Dropped(corpus, req)
  {
  }

  lemma {:induction false} ExpandAllInBands(top: real, env: Env, corpus: ClaimMap, req: Request, hits: Hits, hop: nat, frontier: seq<Id>,
                                            named: set<Id>)
    requires InBands(top, named, hits) && Explained(corpus, req, hits) && Keyed(corpus) && hop > 0 && BandTop(req.hopDecay) <= top < 1.0
    requires named <= hits.Keys + Dropped(corpus, req) && forall i :: i in frontier ==> i in hits
    ensures InBands(top, named, ExpandAll(env, corpus, req, hits, hop, frontier).hits)
  {
    hide Explained, InBands, Offer, Accepted, Neighbours, Decayed, Dropped;
    if frontier != [] {
      var front, parent := frontier[..|frontier| - 1], frontier[|frontier| - 1];
      assert forall i :: i in front ==> i in frontier;
      assert parent in frontier;
      ExpandAllInBands(top, env, corpus, req, hits, hop, front, named);
      ExpandAllExplained(env, corpus, req, hits, hop, front);
      var e := ExpandAll(env, corpus, req, hits, hop, front);
      var offered, score := Neighbours(env, corpus, e.hits[parent].claim), Decayed(e.hits[parent].score, req.hopDecay);
      ParentScore(top, corpus, req, e.hits, named, parent);
      GraphScoreIsLow(e.hits[parent].score, req.hopDecay);
      OfferKeepsBands(top, corpus, req, named, e.hits, offered, score, hop, parent);
      assert ExpandAll(env, corpus, req, hits, hop, frontier).hits
          == Offer(corpus, req, e.hits, offered, score, hop, parent);
    }
  }

  lemma ParentScore(top: real, corpus: ClaimMap, req: Request, hits: Hits, named: set<Id>, parent: Id)
    requires InBands(top, named, hits) && Explained(corpus, req, hits) && parent in hits && top < 1.0
    ensures 0.0 < hits[parent].score <= 1.9
  {
    assert InBand(top, named, hits, parent) && ExplainedHit(corpus, req, hits, parent);
  }

  lemma {:induction false} ExpandInBands(top: real, env: Env, corpus: ClaimMap, req: Request, hits: Hits, hop: nat, frontier: seq<Id>,
                                         named: set<Id>)
    requires InBands(top, named, hits) && Explained(corpus, req, hits) && Keyed(corpus) && hop > 0 && BandTop(req.hopDecay) <= top < 1.0
    requires named <= hits.Keys + Dropped(corpus, req) && forall i :: i in frontier ==> i in hits
    ensures InBands(top, named, Expand(env, corpus, req, hits, hop, frontier))
    decreases req.hops + 1 - hop
  {
    hide Explained, InBands, Dropped;
    if hop <= req.hops {
      ExpandAllInBands(top, env, corpus, req, hits, hop, frontier, named);
      ExpandAllExplained(env, corpus, req, hits, hop, frontier);
      PromotedAreHits(env, corpus, req, hits, hop, frontier);
      var e := ExpandAll(env, corpus, req, hits, hop, frontier);
      if e.promoted != map[] {
        ExpandInBands(top, env, corpus, req, e.hits, hop + 1, Top(env, corpus, req, e.promoted), named);
      }
    }
  }

  /** At the end of a run every kept claim about a named entity is a hit, still a direct match scoring
      at least 1 that no graph offer overwrote, and every other hit scores at most the lower band's top,
      wherever that is below 1. */
  lemma FinalHitsInBands(env: Env, corpus: ClaimMap, embedder: Option<Embedder>, req: Request)
    requires Keyed(corpus) && BandTop(req.hopDecay) < 1.0
    requires embedder.Some? ==> IsCosine(embedder.value)
    ensures InBands(BandTop(req.hopDecay), Named(env, corpus, req.entities), FinalHits(env, corpus, embedder, req))
    ensures forall i :: i in Named(env, corpus, req.entities) && req.Keeps(corpus[i]) ==>
      i in FinalHits(env, corpus, embedder, req)
  {
    hide Explained, InBands;
    var top := BandTop(req.hopDecay);
    var text, named := TextScores(env, corpus, embedder, req), Named(env, corpus, req.entities);
    TextAtMostOne(env, corpus, embedder, req);
    SeedsInBands(top, env, corpus, req, text, embedder.Some?);
    SeedsExplained(env, corpus, req, text, embedder.Some?);
    NamedAreSeeded(env, corpus, req, text, embedder.Some?);
    var seeds := SeedHits(env, corpus, req, text, embedder.Some?);
    ExpandInBands(top, env, corpus, req, seeds, 1, Top(env, corpus, req, HitScores(seeds)), named);
  }

  // ---- The order of the results --------------------------------------------------------

  lemma RankingSorted(env: Env, corpus: ClaimMap, scores: Scores, p: nat, q: nat)
    requires p < q < |Ranking(env, corpus, scores)| && scores.Keys <= corpus.Keys
    ensures var ids := Ranking(env, corpus, scores);
      RankedBefore(env, scores[ids[p]], corpus[ids[p]], scores[ids[q]], corpus[ids[q]])
  {
    hide Ranking, Sorted, RankedBefore;
    assert forall i :: i in scores ==> i in corpus && ScoreOf(scores, i) == scores[i] && At(corpus, i) == corpus[i];
    var ids := Ranking(env, corpus, scores);
    RankingIsSorted(env, corpus, scores);
    SortedAt(RankOrder(env, corpus, scores), ids, p, q);
    assert ids[p] in ids && ids[q] in ids;
  }

  lemma RankingIsSorted(env: Env, corpus: ClaimMap, scores: Scores)
    ensures Sorted(RankOrder(env, corpus, scores), Ranking(env, corpus, scores))
  {
    hide RankOrder, Sort, Sorted;
    RankIsTotal(env, corpus, scores);
    SortSorts(RankOrder(env, corpus, scores), SomeOrder(scores.Keys));
  }

  lemma SortedAt<T>(le: (T, T) -> bool, xs: seq<T>, p: nat, q: nat)
    requires Sorted(le, xs) && p < q < |xs|
    ensures le(xs[p], xs[q])
  {
  }

  /** The ranked list of all hits; a result is a prefix of it. */
  ghost function Ranked(env: Env, corpus: ClaimMap, hits: Hits): seq<Id> {
    Ranking(env, corpus, HitScores(hits))
  }

  /** Where rounding keeps a parent's score above its child's, a ranking that has the child has the
      parent, further up. */
  lemma ParentsComeFirst(env: Env, corpus: ClaimMap, req: Request, hits: Hits, k: nat, i: Id, v: Id) returns (m: nat)
    requires Keyed(corpus) && Explained(corpus, req, hits) && i in hits && v in hits
    requires k < |Ranked(env, corpus, hits)| && Ranked(env, corpus, hits)[k] == i
    requires env.round(hits[i].score) < env.round(hits[v].score)
    ensures m < k && Ranked(env, corpus, hits)[m] == v
  {
    hide Ranking, Explained;
    var ids := Ranked(env, corpus, hits);
    assert v in ids;
    m :| 0 <= m < |ids| && ids[m] == v;
    HitsAreClaims(corpus, req, hits);
    if m > k {
      RankingSorted(env, corpus, HitScores(hits), k, m);
    }
  }

  /** The entry at place `k` of a result is the hit at place `k` of the ranking. */
  lemma ResultAt(env: Env, corpus: ClaimMap, embedder: Option<Embedder>, req: Request, k: nat)
    requires k < |SearchResult(env, corpus, embedder, req)|
    ensures var hits := FinalHits(env, corpus, embedder, req);
      var ids := Ranked(env, corpus, hits);
      k < |ids| && ids[k] in hits && SearchResult(env, corpus, embedder, req)[k] == hits[ids[k]]
  {
    hide Ranking, FinalHits;
    var hits := FinalHits(env, corpus, embedder, req);
    var ids := Ranked(env, corpus, hits);
    assert SearchResult(env, corpus, embedder, req) <= HitList(hits, ids);
    assert ids[k] in ids;
  }

  lemma HitsAreClaims(corpus: ClaimMap, req: Request, hits: Hits)
    requires Explained(corpus, req, hits)
    ensures HitScores(hits).Keys <= corpus.Keys
  {
    forall i | i in hits ensures i in corpus {
      assert ExplainedHit(corpus, req, hits, i);
    }
  }

  ghost predicate Unrounded(env: Env) { forall x :: env.round(x) == x }

  /** On unrounded scores the truncated result is closed under `via`: whatever explains a listed
      claim is listed before it. */
  lemma ResultClosedUnderVia(env: Env, corpus: ClaimMap, embedder: Option<Embedder>, req: Request, k: nat)
    requires Keyed(corpus) && req.hopDecay < 1.0 && Unrounded(env)
    requires k < |SearchResult(env, corpus, embedder, req)| && SearchResult(env, corpus, embedder, req)[k].via.Some?
    ensures exists m :: 0 <= m < k && SearchResult(env, corpus, embedder, req)[m].claim.id
                                   == SearchResult(env, corpus, embedder, req)[k].via.value
  {
    hide Ranking, FinalHits, SearchResult, Explained;
    FinalHitsExplained(env, corpus, embedder, req);
    ResultAt(env, corpus, embedder, req, k);
    var hits := FinalHits(env, corpus, embedder, req);
    var i := Ranked(env, corpus, hits)[k];
    var v := hits[i].via.value;
    HitExplained(corpus, req, hits, i);
    HitExplained(corpus, req, hits, v);
    DecayLowers(hits[i].score, hits[v].score, req.hopDecay);
    var m := ParentsComeFirst(env, corpus, req, hits, k, i, v);
    ResultAt(env, corpus, embedder, req, m);
  }

  lemma HitExplained(corpus: ClaimMap, req: Request, hits: Hits, i: Id)
    requires Keyed(corpus) && Explained(corpus, req, hits) && i in hits
    ensures ExplainedHit(corpus, req, hits, i) && i in corpus && hits[i].claim == corpus[i] && hits[i].claim.id == i
  {
  }

  /** A rounding that respects order and tells `top` from 1. */
  ghost predicate RoundsApart(env: Env, top: real) {
    (forall x, y :: x <= y ==> env.round(x) <= env.round(y)) && env.round(top) < env.round(1.0)
  }

  /** Claims about a named entity come before all others, wherever the result is cut. */
  lemma NamedComeFirst(env: Env, corpus: ClaimMap, embedder: Option<Embedder>, req: Request, p: nat, q: nat)
    requires Keyed(corpus) && RoundsApart(env, BandTop(req.hopDecay))
    requires embedder.Some? ==> IsCosine(embedder.value)
    requires p < q < |SearchResult(env, corpus, embedder, req)|
    requires SearchResult(env, corpus, embedder, req)[q].claim.id in Named(env, corpus, req.entities)
    ensures SearchResult(env, corpus, embedder, req)[p].claim.id in Named(env, corpus, req.entities)
  {
    hide Ranking, FinalHits, SearchResult, Explained, InBands, Named;
    FinalHitsExplained(env, corpus, embedder, req);
    FinalHitsInBands(env, corpus, embedder, req);
    ResultAt(env, corpus, embedder, req, p);
    ResultAt(env, corpus, embedder, req, q);
    var hits := FinalHits(env, corpus, embedder, req);
    var ids := Ranked(env, corpus, hits);
    HitExplained(corpus, req, hits, ids[p]);
    HitExplained(corpus, req, hits, ids[q]);
    HitsAreClaims(corpus, req, hits);
    RankingSorted(env, corpus, HitScores(hits), p, q);
    HitInBand(BandTop(req.hopDecay), Named(env, corpus, req.entities), hits, ids[p]);
    HitInBand(BandTop(req.hopDecay), Named(env, corpus, req.entities), hits, ids[q]);
  }

  lemma HitInBand(top: real, named: set<Id>, hits: Hits, i: Id)
    requires InBands(top, named, hits) && i in hits
    ensures InBand(top, named, hits, i)
  {
  }
}
