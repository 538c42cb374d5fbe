/** How large a decay the score bands and the order of the results bear, exactly
    (grapharc/memory/retrieval.py). */
module BandLimits {
  import opened Options
  import opened Seqs
  import opened Texts
  import opened Claims
  import opened Corpus
  import opened Retrieval
  import opened SearchBands

  // ---- What expansion reaches ----------------------------------------------------------

  lemma OfferReaches(corpus: ClaimMap, req: Request, hits: Hits, offered: set<Id>, score: real, hop: nat, parent: Id, i: Id)
    requires i in offered && i in corpus && req.Keeps(corpus[i]) && score > 0.0
    ensures var r := Offer(corpus, req, hits, offered, score, hop, parent); i in r && r[i].score >= score
  {
    hide Offer;
    var r := Offer(corpus, req, hits, offered, score, hop, parent);
    if Accepts(corpus, req, hits, i, score) {
      AcceptedIsIn(corpus, req, hits, offered, score, hop, parent, i);
    }
  }

  lemma AcceptedIsIn(corpus: ClaimMap, req: Request, hits: Hits, offered: set<Id>, score: real, hop: nat, parent: Id, i: Id)
    requires i in offered && Accepts(corpus, req, hits, i, score)
    ensures i in Offer(corpus, req, hits, offered, score, hop, parent)
  {
    assert i in Accepted(corpus, req, hits, offered, score);
  }

  lemma {:induction false} ExpandAllRaises(env: Env, corpus: ClaimMap, req: Request, hits: Hits, hop: nat, frontier: seq<Id>, i: Id)
    requires i in hits && forall j :: j in frontier ==> j in hits
    ensures ExpandAll(env, corpus, req, hits, hop, frontier).hits[i].score >= hits[i].score
  {
    hide Offer, Accepted, Neighbours, Decayed;
    if frontier != [] {
      var front, parent := frontier[..|frontier| - 1], frontier[|frontier| - 1];
      assert forall j :: j in front ==> j in frontier;
      assert parent in frontier;
      ExpandAllRaises(env, corpus, req, hits, hop, front, i);
      var e := ExpandAll(env, corpus, req, hits, hop, front);
      OfferOnlyRaises(corpus, req, e.hits, Neighbours(env, corpus, e.hits[parent].claim),
                      Decayed(e.hits[parent].score, req.hopDecay), hop, parent, i);
    }
  }

  /** After a hop, each kept neighbour of a parent scores at least what it inherits from it. */
  lemma {:induction false} ExpandAllReaches(env: Env, corpus: ClaimMap, req: Request, hits: Hits, hop: nat, frontier: seq<Id>,
                                            v: Id, i: Id)
    requires Keyed(corpus) && Explained(corpus, req, hits) && hop > 0 && req.hopDecay > 0.0
    requires v in frontier && (forall j :: j in frontier ==> j in hits) && v in corpus
    requires i in Neighbours(env, corpus, corpus[v]) && i in corpus && req.Keeps(corpus[i])
    ensures var r := ExpandAll(env, corpus, req, hits, hop, frontier).hits;
      i in r && r[i].score >= Decayed(hits[v].score, req.hopDecay)
  {
    hide Explained, Offer, Accepted, Neighbours, Decayed;
    var front, parent := frontier[..|frontier| - 1], frontier[|frontier| - 1];
    assert frontier == front + [parent] && parent in frontier;
    assert forall j :: j in front ==> j in frontier;
    var e := ExpandAll(env, corpus, req, hits, hop, front);
    var offered, score := Neighbours(env, corpus, e.hits[parent].claim), Decayed(e.hits[parent].score, req.hopDecay);
    if parent == v {
      ExpandAllExplained(env, corpus, req, hits, hop, front);
      ExpandAllRaises(env, corpus, req, hits, hop, front, v);
      HitExplained(corpus, req, e.hits, v);
      DecayedGrows(hits[v].score, e.hits[v].score, req.hopDecay);
      PositiveDecayed(e.hits[v].score, req.hopDecay);
      OfferReaches(corpus, req, e.hits, offered, score, hop, parent, i);
    } else {
      ExpandAllReaches(env, corpus, req, hits, hop, front, v, i);
      OfferOnlyRaises(corpus, req, e.hits, offered, score, hop, parent, i);
    }
  }

  lemma PositiveDecayed(x: real, d: real)
    requires x > 0.0 && d > 0.0
    ensures Decayed(x, d) > 0.0
  {
  }

  lemma {:induction false} ExpandRaises(env: Env, corpus: ClaimMap, req: Request, hits: Hits, hop: nat, frontier: seq<Id>, i: Id)
    requires i in hits && forall j :: j in frontier ==> j in hits
    ensures Expand(env, corpus, req, hits, hop, frontier)[i].score >= hits[i].score
    decreases req.hops + 1 - hop
  {
    if hop <= req.hops {
      ExpandAllRaises(env, corpus, req, hits, hop, frontier, i);
      PromotedAreHits(env, corpus, req, hits, hop, frontier);
      var e := ExpandAll(env, corpus, req, hits, hop, frontier);
      if e.promoted != map[] {
        ExpandRaises(env, corpus, req, e.hits, hop + 1, Top(env, corpus, req, e.promoted), i);
      }
    }
  }

  lemma ExpandReaches(env: Env, corpus: ClaimMap, req: Request, hits: Hits, hop: nat, frontier: seq<Id>, v: Id, i: Id)
    requires Keyed(corpus) && Explained(corpus, req, hits) && 0 < hop <= req.hops && req.hopDecay > 0.0
    requires v in frontier && (forall j :: j in frontier ==> j in hits) && v in corpus
    requires i in Neighbours(env, corpus, corpus[v]) && i in corpus && req.Keeps(corpus[i])
    ensures var r := Expand(env, corpus, req, hits, hop, frontier); i in r && r[i].score >= Decayed(hits[v].score, req.hopDecay)
  {
    hide Explained, Neighbours, Decayed;
    ExpandAllReaches(env, corpus, req, hits, hop, frontier, v, i);
    PromotedAreHits(env, corpus, req, hits, hop, frontier);
    var e := ExpandAll(env, corpus, req, hits, hop, frontier);
    if e.promoted != map[] {
      ExpandRaises(env, corpus, req, e.hits, hop + 1, Top(env, corpus, req, e.promoted), i);
    }
  }

  lemma {:induction false} ExpandAllLeaves(env: Env, corpus: ClaimMap, req: Request, hits: Hits, hop: nat, frontier: seq<Id>, i: Id)
    requires Keyed(corpus) && Explained(corpus, req, hits) && hop > 0
    requires i in hits && (forall j :: j in frontier ==> j in hits) && Unlinked(env, corpus, i)
    ensures ExpandAll(env, corpus, req, hits, hop, frontier).hits[i] == hits[i]
  {
    hide Explained, Neighbours, Decayed;
    if frontier != [] {
      var front, parent := frontier[..|frontier| - 1], frontier[|frontier| - 1];
      assert forall j :: j in front ==> j in frontier;
      assert parent in frontier;
      ExpandAllLeaves(env, corpus, req, hits, hop, front, i);
      ExpandAllExplained(env, corpus, req, hits, hop, front);
      var e := ExpandAll(env, corpus, req, hits, hop, front);
      HitExplained(corpus, req, e.hits, parent);
    }
  }

  /** No edge leads to this claim. */
  ghost predicate Unlinked(env: Env, corpus: ClaimMap, i: Id) {
    forall x :: x in corpus ==> i !in Neighbours(env, corpus, corpus[x])
  }

  /** A claim no edge leads to keeps the score it was found with. */
  lemma {:induction false} ExpandLeaves(env: Env, corpus: ClaimMap, req: Request, hits: Hits, hop: nat, frontier: seq<Id>, i: Id)
    requires Keyed(corpus) && Explained(corpus, req, hits) && hop > 0
    requires i in hits && (forall j :: j in frontier ==> j in hits) && Unlinked(env, corpus, i)
    ensures Expand(env, corpus, req, hits, hop, frontier)[i] == hits[i]
    decreases req.hops + 1 - hop
  {
    hide Explained, Unlinked;
    if hop <= req.hops {
      ExpandAllLeaves(env, corpus, req, hits, hop, frontier, i);
      ExpandAllExplained(env, corpus, req, hits, hop, frontier);
      PromotedAreHits(env, corpus, req, hits, hop, frontier);
      var e := ExpandAll(env, corpus, req, hits, hop, frontier);
      if e.promoted != map[] {
        ExpandLeaves(env, corpus, req, e.hits, hop + 1, Top(env, corpus, req, e.promoted), i);
      }
    }
  }

  // ---- A corpus that leaves the bands --------------------------------------------------

  /** Nothing is tokenized or rounded away, and names are what they read. */
  const PLAIN := Env(x => x, _ => [], _ => 1.0, x => x)

  function Fact(id: string, subject: string, value: string, observedAt: Time): Claim {
    Claim(Text(id), Text(subject), Text("is"), Text(value), Text("source"), observedAt, None, 1.0, None, None)
  }

  /** The named subject leads to another by the claim the query matches; that one is the most recent. */
  const MATCHED := Fact("matched", "named", "other", 0)
  const LINKED := Fact("linked", "other", "leaf", 1)
  const UNMATCHED := Fact("unmatched", "named", "else", 0)

  const CORPUS: ClaimMap := map[MATCHED.id := MATCHED, LINKED.id := LINKED, UNMATCHED.id := UNMATCHED]

  /** A cosine of one for the matched claim and of zero for the others. */
  function OneMatch(): Embedder {
    (_: Text, c: Claim) => if c.id == Text("matched") then 1.0 else 0.0
  }

  function AskNamed(decay: real): Request {
    Request(Some(Text("query")), [Text("named")], 3, 1, decay, 0.6, 0.15, false)
  }

  lemma WitnessText(decay: real)
    ensures TextScores(PLAIN, CORPUS, Some(OneMatch()), AskNamed(decay)) == map[MATCHED.id := 1.0]
  {
    hide Normalized, CORPUS;
    WitnessIds();
    WitnessClaims();
    assert Bm25(PLAIN, CORPUS, []) == map[];
    NothingToRescale();
    var similar := Similarity(CORPUS, Some(OneMatch()), Text("query"), 0.15);
    assert forall i :: i in similar <==> i == MATCHED.id;
    assert similar == map[MATCHED.id := 1.0];
  }

  lemma NothingToRescale()
    ensures Normalized(map[]) == map[]
  {
  }

  lemma WitnessIds()
    ensures MATCHED.id != LINKED.id && LINKED.id != UNMATCHED.id && MATCHED.id != UNMATCHED.id
  {
    assert MATCHED.id.chars[0] == 'm' && LINKED.id.chars[0] == 'l' && UNMATCHED.id.chars[0] == 'u';
  }

  lemma WitnessClaims()
    ensures CORPUS.Keys == {MATCHED.id, LINKED.id, UNMATCHED.id} && Keyed(CORPUS)
    ensures CORPUS[MATCHED.id] == MATCHED && CORPUS[LINKED.id] == LINKED && CORPUS[UNMATCHED.id] == UNMATCHED
  {
    WitnessIds();
  }

  lemma WitnessSeeds(decay: real)
    ensures var req, embedder := AskNamed(decay), Some(OneMatch());
      var seeds := SeedHits(PLAIN, CORPUS, req, TextScores(PLAIN, CORPUS, embedder, req), true);
      && seeds.Keys == {MATCHED.id, UNMATCHED.id}
      && seeds[MATCHED.id].score == 1.9 && seeds[UNMATCHED.id].score == 1.0
  {
    hide TextScores, CORPUS, PLAIN, SeedHits, Named;
    WitnessIds();
    WitnessClaims();
    WitnessText(decay);
    WitnessLinks();
    var req, text := AskNamed(decay), TextScores(PLAIN, CORPUS, Some(OneMatch()), AskNamed(decay));
    var seeds := SeedHits(PLAIN, CORPUS, req, text, true);
    forall i ensures i in seeds <==> i in {MATCHED.id, UNMATCHED.id} {
      SeedHitIff(PLAIN, CORPUS, req, text, true, i);
    }
    SeedHitIff(PLAIN, CORPUS, req, text, true, MATCHED.id);
    SeedHitIff(PLAIN, CORPUS, req, text, true, UNMATCHED.id);
  }

  lemma SeedHitIff(env: Env, corpus: ClaimMap, req: Request, text: Scores, vectors: bool, i: Id)
    ensures var seeds, named := SeedHits(env, corpus, req, text, vectors), Named(env, corpus, req.entities);
      && (i in seeds <==> i in corpus && req.Keeps(corpus[i]) && (i in named || ScoreOf(text, i) > 0.0))
      && (i in seeds ==> seeds[i].score == SeedScore(i in named, ScoreOf(text, i)))
  {
    hide Named;
  }

  lemma WitnessLinks()
    ensures LINKED.id in Neighbours(PLAIN, CORPUS, CORPUS[MATCHED.id]) && Unlinked(PLAIN, CORPUS, UNMATCHED.id)
    ensures Named(PLAIN, CORPUS, [Text("named")]) == {MATCHED.id, UNMATCHED.id}
  {
    hide CORPUS;
    WitnessIds();
    WitnessClaims();
    assert Text("named") in [Text("named")];
  }

  lemma AllExpanded(env: Env, corpus: ClaimMap, req: Request, scores: Scores, i: Id)
    requires i in scores && |scores| <= req.maxClaims
    ensures i in Top(env, corpus, req, scores)
  {
    hide RankOrder;
    assert i in Ranking(env, corpus, scores);
  }

  /** The linked claim inherits from the best match, and the other named claim stays as it was found. */
  lemma WitnessHits(decay: real)
    requires decay > 0.0
    ensures var hits := FinalHits(PLAIN, CORPUS, Some(OneMatch()), AskNamed(decay));
      && LINKED.id in hits && hits[LINKED.id].score >= 1.9 * decay
      && UNMATCHED.id in hits && hits[UNMATCHED.id].score == 1.0
  {
    hide TextScores, SeedHits, Top, Ranking, Neighbours, ExpandAll, Expand, Explained, Unlinked, CORPUS, PLAIN;
    var req, embedder := AskNamed(decay), Some(OneMatch());
    var text := TextScores(PLAIN, CORPUS, embedder, req);
    var seeds := SeedHits(PLAIN, CORPUS, req, text, true);
    var frontier := Top(PLAIN, CORPUS, req, HitScores(seeds));
    WitnessSeeds(decay);
    WitnessLinks();
    WitnessClaims();
    SeedsExplained(PLAIN, CORPUS, req, text, true);
    assert HitScores(seeds).Keys == seeds.Keys;
    TwoScores(HitScores(seeds), MATCHED.id, UNMATCHED.id);
    AllExpanded(PLAIN, CORPUS, req, HitScores(seeds), MATCHED.id);
    ExpandReaches(PLAIN, CORPUS, req, seeds, 1, frontier, MATCHED.id, LINKED.id);
    ExpandLeaves(PLAIN, CORPUS, req, seeds, 1, frontier, UNMATCHED.id);
  }

  lemma TwoScores(scores: Scores, i: Id, j: Id)
    requires scores.Keys == {i, j}
    ensures |scores| <= 2
  {
    assert |scores| == |scores.Keys|;
  }

  // ---- The exact bounds ----------------------------------------------------------------

  ghost predicate Admissible(corpus: ClaimMap, embedder: Option<Embedder>, req: Request, decay: real) {
    Keyed(corpus) && (embedder.Some? ==> IsCosine(embedder.value)) && req.hopDecay == decay
  }

  /** Named claims score at least 1 and all others at most 0.9. */
  ghost predicate BandsHold(env: Env, corpus: ClaimMap, embedder: Option<Embedder>, req: Request) {
    InBands(0.9, Named(env, corpus, req.entities), FinalHits(env, corpus, embedder, req))
  }

  /** The bands hold in every search with this decay if and only if the decay is at most 9/19. */
  lemma BandsHoldIff(decay: real)
    ensures (forall env, corpus, embedder, req :: Admissible(corpus, embedder, req, decay) ==> BandsHold(env, corpus, embedder, req))
       <==> SmallDecay(decay)
  {
    hide FinalHits, InBands, Named;
    SmallDecayTop(decay);
    if SmallDecay(decay) {
      forall env, corpus, embedder, req | Admissible(corpus, embedder, req, decay) ensures BandsHold(env, corpus, embedder, req) {
        FinalHitsInBands(env, corpus, embedder, req);
      }
    } else {
      WitnessClaims();
      WitnessLeavesBand(decay);
      assert Admissible(CORPUS, Some(OneMatch()), AskNamed(decay), decay);
      assert !BandsHold(PLAIN, CORPUS, Some(OneMatch()), AskNamed(decay));
    }
  }

  lemma WitnessLeavesBand(decay: real)
    requires !SmallDecay(decay)
    ensures !BandsHold(PLAIN, CORPUS, Some(OneMatch()), AskNamed(decay))
  {
    hide FinalHits, CORPUS, PLAIN;
    var hits := FinalHits(PLAIN, CORPUS, Some(OneMatch()), AskNamed(decay));
    WitnessLinks();
    WitnessHits(decay);
    WitnessIds();
    assert !InBand(0.9, Named(PLAIN, CORPUS, [Text("named")]), hits, LINKED.id);
  }

  /** No claim about anything else is listed before a claim about a named entity. */
  ghost predicate NamedFirst(env: Env, corpus: ClaimMap, embedder: Option<Embedder>, req: Request) {
    var result, named := SearchResult(env, corpus, embedder, req), Named(env, corpus, req.entities);
    forall p, q :: 0 <= p < q < |result| && result[q].claim.id in named ==> result[p].claim.id in named
  }

  /** On unrounded scores named claims come first in every search with this decay if and only if the decay
      is below 10/19. */
  lemma NamedFirstIff(decay: real)
    ensures (forall env, corpus, embedder, req :: Unrounded(env) && Admissible(corpus, embedder, req, decay) ==>
               NamedFirst(env, corpus, embedder, req))
       <==> decay < 10.0 / 19.0
  {
    hide SearchResult, Named;
    if decay < 10.0 / 19.0 {
      forall env, corpus, embedder, req | Unrounded(env) && Admissible(corpus, embedder, req, decay)
        ensures NamedFirst(env, corpus, embedder, req)
      {
        AlwaysNamedFirst(env, corpus, embedder, req);
      }
    } else {
      WitnessClaims();
      WitnessNotFirst(decay);
      assert Unrounded(PLAIN) && Admissible(CORPUS, Some(OneMatch()), AskNamed(decay), decay);
      assert !NamedFirst(PLAIN, CORPUS, Some(OneMatch()), AskNamed(decay));
    }
  }

  lemma AlwaysNamedFirst(env: Env, corpus: ClaimMap, embedder: Option<Embedder>, req: Request)
    requires Unrounded(env) && Admissible(corpus, embedder, req, req.hopDecay) && req.hopDecay < 10.0 / 19.0
    ensures NamedFirst(env, corpus, embedder, req)
  {
    hide SearchResult, Named;
    var result, named := SearchResult(env, corpus, embedder, req), Named(env, corpus, req.entities);
    forall p, q | 0 <= p < q < |result| && result[q].claim.id in named ensures result[p].claim.id in named {
      NamedComeFirst(env, corpus, embedder, req, p, q);
    }
  }

  /** The linked claim scores at least what the other named claim does, and is more recent. */
  lemma WitnessNotFirst(decay: real)
    requires decay >= 10.0 / 19.0
    ensures !NamedFirst(PLAIN, CORPUS, Some(OneMatch()), AskNamed(decay))
  {
    hide FinalHits, Ranked, Explained, SearchResult, Named, CORPUS, PLAIN;
    var env, req, embedder := PLAIN, AskNamed(decay), Some(OneMatch());
    var hits := FinalHits(env, CORPUS, embedder, req);
    var ids := Ranked(env, CORPUS, hits);
    WitnessLinks();
    WitnessClaims();
    WitnessHits(decay);
    WitnessIds();
    FinalHitsExplained(env, CORPUS, embedder, req);
    HitsAreClaims(CORPUS, req, hits);
    WitnessResult(decay);
    RankedLists(env, CORPUS, hits);
    var p :| 0 <= p < |ids| && ids[p] == LINKED.id;
    var q :| 0 <= q < |ids| && ids[q] == UNMATCHED.id;
    LinkedIsBefore(hits, p, q);
    HitExplained(CORPUS, req, hits, LINKED.id);
    HitExplained(CORPUS, req, hits, UNMATCHED.id);
    var result := SearchResult(env, CORPUS, embedder, req);
    assert result[p].claim.id == LINKED.id && result[q].claim.id == UNMATCHED.id;
  }

  lemma RankedLists(env: Env, corpus: ClaimMap, hits: Hits)
    ensures |Ranked(env, corpus, hits)| == |hits| && forall i :: i in Ranked(env, corpus, hits) <==> i in hits
  {
    assert HitScores(hits).Keys == hits.Keys;
    assert |HitScores(hits)| == |HitScores(hits).Keys| && |hits| == |hits.Keys|;
  }

  lemma LinkedIsBefore(hits: Hits, p: nat, q: nat)
    requires LINKED.id in hits && UNMATCHED.id in hits && HitScores(hits).Keys <= CORPUS.Keys
    requires hits[LINKED.id].score >= 1.0 == hits[UNMATCHED.id].score
    requires p < |Ranked(PLAIN, CORPUS, hits)| && Ranked(PLAIN, CORPUS, hits)[p] == LINKED.id
    requires q < |Ranked(PLAIN, CORPUS, hits)| && Ranked(PLAIN, CORPUS, hits)[q] == UNMATCHED.id
    ensures p < q
  {
    hide Ranking, CORPUS;
    WitnessClaims();
    WitnessIds();
    if q < p {
      RankingSorted(PLAIN, CORPUS, HitScores(hits), q, p);
    }
  }

  /** Three hits at most are not cut. */
  lemma WitnessResult(decay: real)
    requires HitScores(FinalHits(PLAIN, CORPUS, Some(OneMatch()), AskNamed(decay))).Keys <= CORPUS.Keys
    ensures var hits := FinalHits(PLAIN, CORPUS, Some(OneMatch()), AskNamed(decay));
      && (forall i :: i in Ranked(PLAIN, CORPUS, hits) ==> i in hits)
      && SearchResult(PLAIN, CORPUS, Some(OneMatch()), AskNamed(decay)) == HitList(hits, Ranked(PLAIN, CORPUS, hits))
  {
    hide FinalHits, Ranked, CORPUS, PLAIN, SearchResult;
    var hits := FinalHits(PLAIN, CORPUS, Some(OneMatch()), AskNamed(decay));
    WitnessClaims();
    assert hits.Keys == HitScores(hits).Keys;
    SubsetSize(hits.Keys, CORPUS.Keys);
    assert |hits| == |hits.Keys| <= 3;
    NotCut(PLAIN, CORPUS, Some(OneMatch()), AskNamed(decay));
  }

  lemma NotCut(env: Env, corpus: ClaimMap, embedder: Option<Embedder>, req: Request)
    requires req.HasQuery() && corpus != map[] && |FinalHits(env, corpus, embedder, req)| <= req.maxClaims
    ensures var hits := FinalHits(env, corpus, embedder, req);
      && (forall i :: i in Ranked(env, corpus, hits) ==> i in hits)
      && SearchResult(env, corpus, embedder, req) == HitList(hits, Ranked(env, corpus, hits))
  {
    hide FinalHits, Ranking;
    RankedLists(env, corpus, FinalHits(env, corpus, embedder, req));
  }
}
