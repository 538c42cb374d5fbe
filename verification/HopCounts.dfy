/** What the `hops` of a hit say about the way to it (grapharc/memory/retrieval.py). */
module HopCounts {
  import opened Options
  import opened Texts
  import opened Claims
  import opened Corpus
  import opened Retrieval
  import opened BandLimits

  /** A hit is recorded at most one hop further than the hit it was reached through. */
  ghost predicate HopsWithin(hits: Hits) {
    forall i :: i in hits && hits[i].via.Some? ==>
      hits[i].via.value in hits && hits[i].hops <= hits[hits[i].via.value].hops + 1
  }

  /** A hit is recorded exactly one hop further. */
  ghost predicate HopsCountEdges(hits: Hits) {
    forall i :: i in hits && hits[i].via.Some? ==>
      hits[i].via.value in hits && hits[i].hops == hits[hits[i].via.value].hops + 1
  }

  ghost predicate UpTo(hits: Hits, hop: nat) {
    forall i :: i in hits ==> hits[i].hops <= hop
  }

  /** The claims that hop `hop` expands were found one hop before, or later. */
  ghost predicate IsFrontier(hits: Hits, hop: nat, frontier: seq<Id>) {
    forall i :: i in frontier ==> i in hits && hits[i].hops + 1 >= hop
  }

  // ---- At most one hop further ---------------------------------------------------------

  lemma OfferKeepsHops(corpus: ClaimMap, req: Request, hits: Hits, offered: set<Id>, score: real, hop: nat, parent: Id)
    requires HopsWithin(hits) && UpTo(hits, hop)
    requires parent in hits && parent !in offered && hits[parent].hops + 1 >= hop
    ensures var r := Offer(corpus, req, hits, offered, score, hop, parent);
      HopsWithin(r) && UpTo(r, hop) && forall i :: i in hits ==> i in r && r[i].hops >= hits[i].hops
  {
    hide Offer, Accepts;
  }

  lemma {:induction false} ExpandAllHops(env: Env, corpus: ClaimMap, req: Request, hits: Hits, hop: nat, frontier: seq<Id>)
    requires Keyed(corpus) && Explained(corpus, req, hits) && hop > 0
    requires HopsWithin(hits) && UpTo(hits, hop) && IsFrontier(hits, hop, frontier)
    ensures var e := ExpandAll(env, corpus, req, hits, hop, frontier);
      && HopsWithin(e.hits) && UpTo(e.hits, hop) && (forall i :: i in hits ==> e.hits[i].hops >= hits[i].hops)
      && forall i :: i in e.promoted ==> i in e.hits && e.hits[i].hops == hop
  {
    hide Explained, Offer, Neighbours, Decayed, HopsWithin;
    if frontier != [] {
      var front, parent := frontier[..|frontier| - 1], frontier[|frontier| - 1];
      assert forall i :: i in front ==> i in frontier;
      assert parent in frontier;
      ExpandAllHops(env, corpus, req, hits, hop, front);
      ExpandAllExplained(env, corpus, req, hits, hop, front);
      var e := ExpandAll(env, corpus, req, hits, hop, front);
      ParentNotOffered(env, corpus, req, e.hits, parent);
      var offered, score := Neighbours(env, corpus, e.hits[parent].claim), Decayed(e.hits[parent].score, req.hopDecay);
      OfferKeepsHops(corpus, req, e.hits, offered, score, hop, parent);
      forall i | i in Accepted(corpus, req, e.hits, offered, score)
        ensures i in Offer(corpus, req, e.hits, offered, score, hop, parent)
      {
        AcceptedIsIn(corpus, req, e.hits, offered, score, hop, parent, i);
      }
    }
  }

  lemma {:induction false} ExpandHops(env: Env, corpus: ClaimMap, req: Request, hits: Hits, hop: nat, frontier: seq<Id>)
    requires Keyed(corpus) && Explained(corpus, req, hits) && hop > 0
    requires HopsWithin(hits) && UpTo(hits, hop) && IsFrontier(hits, hop, frontier)
    ensures HopsWithin(Expand(env, corpus, req, hits, hop, frontier))
    decreases req.hops + 1 - hop
  {
    hide Explained, ExpandAll, Top, HopsWithin;
    if hop <= req.hops {
      ExpandAllHops(env, corpus, req, hits, hop, frontier);
      ExpandAllExplained(env, corpus, req, hits, hop, frontier);
      PromotedAreHits(env, corpus, req, hits, hop, frontier);
      var e := ExpandAll(env, corpus, req, hits, hop, frontier);
      if e.promoted != map[] {
        ExpandHops(env, corpus, req, e.hits, hop + 1, Top(env, corpus, req, e.promoted));
      }
    }
  }

  /** At the end of any run, whatever was overwritten on the way, each hit is recorded at most one hop
      further than its `via`. */
  lemma FinalHopsWithin(env: Env, corpus: ClaimMap, embedder: Option<Embedder>, req: Request)
    requires Keyed(corpus)
    ensures HopsWithin(FinalHits(env, corpus, embedder, req))
  {
    hide Explained, Expand, Top, TextScores;
    var text := TextScores(env, corpus, embedder, req);
    var seeds := SeedHits(env, corpus, req, text, embedder.Some?);
    SeedsExplained(env, corpus, req, text, embedder.Some?);
    SeedsStart(env, corpus, req, text, embedder.Some?);
    ExpandHops(env, corpus, req, seeds, 1, Top(env, corpus, req, HitScores(seeds)));
  }

  lemma SeedsStart(env: Env, corpus: ClaimMap, req: Request, text: Scores, vectors: bool)
    ensures var seeds := SeedHits(env, corpus, req, text, vectors);
      HopsWithin(seeds) && UpTo(seeds, 1) && forall i :: i in seeds ==> seeds[i].hops == 0 && seeds[i].via.None?
  {
  }

  /** So `hops` is never more than the number of edges of the explanation; it is that number if and only
      if every hit on the way is recorded one hop further than the next. */
  lemma {:induction false} HopsAlongExplanation(hits: Hits, path: seq<Id>)
    requires HopsWithin(hits) && IsExplanation(hits, path)
    ensures hits[path[0]].hops <= |path| - 1
    ensures hits[path[0]].hops == |path| - 1
       <==> forall k :: 0 <= k < |path| - 1 ==> hits[path[k]].hops == hits[path[k + 1]].hops + 1
  {
    if |path| > 1 {
      var rest := path[1..];
      assert forall k :: 0 <= k < |rest| ==> rest[k] == path[k + 1];
      HopsAlongExplanation(hits, rest);
      StepsSplit(hits, path);
    }
  }

  lemma StepsSplit(hits: Hits, path: seq<Id>)
    requires |path| > 1 && forall k :: 0 <= k < |path| ==> path[k] in hits
    ensures (forall k :: 0 <= k < |path| - 1 ==> hits[path[k]].hops == hits[path[k + 1]].hops + 1)
       <==> hits[path[0]].hops == hits[path[1]].hops + 1
            && (forall k :: 0 <= k < |path| - 2 ==> hits[path[1..][k]].hops == hits[path[1..][k + 1]].hops + 1)
  {
    if forall k :: 0 <= k < |path| - 2 ==> hits[path[1..][k]].hops == hits[path[1..][k + 1]].hops + 1 {
      forall k | 1 <= k < |path| - 1 ensures hits[path[k]].hops == hits[path[k + 1]].hops + 1 {
        assert path[1..][k - 1] == path[k] && path[1..][k] == path[k + 1];
      }
    }
  }

  // ---- Fewer hops than edges -----------------------------------------------------------

  /** One hop leaves a hit as it was, or records it at that hop, through one of the parents. */
  lemma {:induction false} ExpandAllEither(env: Env, corpus: ClaimMap, req: Request, hits: Hits, hop: nat, frontier: seq<Id>, i: Id)
    requires Keyed(corpus) && Explained(corpus, req, hits) && hop > 0 && forall j :: j in frontier ==> j in hits
    requires i in ExpandAll(env, corpus, req, hits, hop, frontier).hits
    ensures var hit := ExpandAll(env, corpus, req, hits, hop, frontier).hits[i];
      || (i in hits && hit == hits[i])
      || (hit.hops == hop && hit.via.Some? && hit.via.value in frontier && hit.via.value in corpus
          && i in Neighbours(env, corpus, corpus[hit.via.value]))
  {
    hide Explained, Offer, Neighbours, Decayed;
    if frontier != [] {
      var front, parent := frontier[..|frontier| - 1], frontier[|frontier| - 1];
      assert forall j :: j in front ==> j in frontier;
      assert parent in frontier;
      ExpandAllExplained(env, corpus, req, hits, hop, front);
      var e := ExpandAll(env, corpus, req, hits, hop, front);
      ParentIsClaim(corpus, req, e.hits, parent);
      if i in e.hits {
        ExpandAllEither(env, corpus, req, hits, hop, front, i);
      }
    }
  }

  lemma ParentIsClaim(corpus: ClaimMap, req: Request, hits: Hits, i: Id)
    requires Explained(corpus, req, hits) && i in hits
    ensures i in corpus && hits[i].claim == corpus[i]
  {
    assert ExplainedHit(corpus, req, hits, i);
  }

  /** A claim about the named subject, one its value is the subject of, and one more. */
  const NEAR := Fact("near", "named", "middle", 0)
  const WEAK := Fact("weak", "middle", "far", 0)
  const BEYOND := Fact("beyond", "far", "leaf", 0)

  const LINE: ClaimMap := map[NEAR.id := NEAR, WEAK.id := WEAK, BEYOND.id := BEYOND]

  /** A cosine of `s` for the claim in the middle and of zero for the others. */
  function WeakMatch(s: real): Embedder {
    (_: Text, c: Claim) => if c.id == Text("weak") then s else 0.0
  }

  function AskAlong(decay: real, s: real): Request {
    Request(Some(Text("query")), [Text("named")], 3, 1, decay, 0.6, s, false)
  }

  lemma LineIds()
    ensures NEAR.id != WEAK.id && WEAK.id != BEYOND.id && NEAR.id != BEYOND.id
  {
    assert NEAR.id.chars[0] == 'n' && WEAK.id.chars[0] == 'w' && BEYOND.id.chars[0] == 'b';
  }

  lemma LineClaims()
    ensures LINE.Keys == {NEAR.id, WEAK.id, BEYOND.id} && Keyed(LINE)
    ensures LINE[NEAR.id] == NEAR && LINE[WEAK.id] == WEAK && LINE[BEYOND.id] == BEYOND
  {
    LineIds();
  }

  lemma LineNames()
    ensures Text("named") != Text("middle") && Text("named") != Text("far") && Text("named") != Text("leaf")
    ensures Text("middle") != Text("far") && Text("middle") != Text("leaf") && Text("far") != Text("leaf")
  {
    assert "named"[0] == 'n' && "middle"[0] == 'm' && "far"[0] == 'f' && "leaf"[0] == 'l';
  }

  lemma LineLinks()
    ensures WEAK.id in Neighbours(PLAIN, LINE, NEAR) && BEYOND.id !in Neighbours(PLAIN, LINE, NEAR)
    ensures BEYOND.id in Neighbours(PLAIN, LINE, WEAK)
    ensures Named(PLAIN, LINE, [Text("named")]) == {NEAR.id}
  {
    hide LINE;
    LineIds();
    LineClaims();
    LineNames();
    assert Text("named") in [Text("named")];
  }

  lemma LineText(decay: real, s: real)
    requires 0.0 < s <= 1.0
    ensures TextScores(PLAIN, LINE, Some(WeakMatch(s)), AskAlong(decay, s)) == map[WEAK.id := s]
  {
    hide Normalized, LINE;
    LineIds();
    LineClaims();
    assert Bm25(PLAIN, LINE, []) == map[];
    NothingToRescale();
    var similar := Similarity(LINE, Some(WeakMatch(s)), Text("query"), s);
    assert forall i :: i in similar <==> i == WEAK.id;
    assert similar == map[WEAK.id := s];
  }

  lemma LineSeeds(decay: real, s: real)
    requires 0.0 < s <= 1.0
    ensures var req, embedder := AskAlong(decay, s), Some(WeakMatch(s));
      var seeds := SeedHits(PLAIN, LINE, req, TextScores(PLAIN, LINE, embedder, req), true);
      seeds.Keys == {NEAR.id, WEAK.id} && seeds[NEAR.id].score == 1.0 && seeds[WEAK.id].score == 0.9 * s
  {
    hide TextScores, LINE, PLAIN, SeedHits, Named;
    LineIds();
    LineClaims();
    LineText(decay, s);
    LineLinks();
    var req, text := AskAlong(decay, s), TextScores(PLAIN, LINE, Some(WeakMatch(s)), AskAlong(decay, s));
    var seeds := SeedHits(PLAIN, LINE, req, text, true);
    forall i ensures i in seeds <==> i in {NEAR.id, WEAK.id} {
      SeedHitIff(PLAIN, LINE, req, text, true, i);
    }
    SeedHitIff(PLAIN, LINE, req, text, true, NEAR.id);
    SeedHitIff(PLAIN, LINE, req, text, true, WEAK.id);
  }

  /** The weak match is overwritten through the claim about the named subject, in the same hop in which
      the claim beyond it is found through it: two edges from a match, recorded as one hop. */
  lemma LineIsShort(decay: real, s: real)
    requires decay > 0.0 && 0.0 < s <= 1.0 && 0.9 * s < decay
    ensures var hits := FinalHits(PLAIN, LINE, Some(WeakMatch(s)), AskAlong(decay, s));
      && BEYOND.id in hits && hits[BEYOND.id].via == Some(WEAK.id) && hits[BEYOND.id].hops == 1
      && WEAK.id in hits && hits[WEAK.id].via.Some? && hits[WEAK.id].hops == 1
  {
    hide TextScores, SeedHits, Top, Ranking, Neighbours, ExpandAll, Explained, LINE, PLAIN;
    var req, embedder := AskAlong(decay, s), Some(WeakMatch(s));
    var text := TextScores(PLAIN, LINE, embedder, req);
    var seeds := SeedHits(PLAIN, LINE, req, text, true);
    var frontier := Top(PLAIN, LINE, req, HitScores(seeds));
    LineIds();
    LineClaims();
    LineLinks();
    LineSeeds(decay, s);
    SeedsExplained(PLAIN, LINE, req, text, true);
    SeedsStart(PLAIN, LINE, req, text, true);
    assert HitScores(seeds).Keys == seeds.Keys;
    TwoScores(HitScores(seeds), NEAR.id, WEAK.id);
    AllExpanded(PLAIN, LINE, req, HitScores(seeds), NEAR.id);
    AllExpanded(PLAIN, LINE, req, HitScores(seeds), WEAK.id);
    ExpandAllReaches(PLAIN, LINE, req, seeds, 1, frontier, NEAR.id, WEAK.id);
    ExpandAllReaches(PLAIN, LINE, req, seeds, 1, frontier, WEAK.id, BEYOND.id);
    ExpandAllEither(PLAIN, LINE, req, seeds, 1, frontier, WEAK.id);
    ExpandAllEither(PLAIN, LINE, req, seeds, 1, frontier, BEYOND.id);
    OneHopOnly(PLAIN, LINE, req, seeds, frontier);
  }

  lemma OneHopOnly(env: Env, corpus: ClaimMap, req: Request, hits: Hits, frontier: seq<Id>)
    requires req.hops == 1 && forall i :: i in frontier ==> i in hits
    ensures Expand(env, corpus, req, hits, 1, frontier) == ExpandAll(env, corpus, req, hits, 1, frontier).hits
  {
    hide ExpandAll, Top;
    PromotedAreHits(env, corpus, req, hits, 1, frontier);
  }

  /** In every search with a given decay each hit is recorded exactly one hop further than its `via`, if
      and only if the decay is not positive, so that nothing is reached through the graph at all. */
  lemma HopsCountEdgesIff(decay: real)
    ensures (forall env, corpus, embedder, req :: Admissible(corpus, embedder, req, decay) ==>
               HopsCountEdges(FinalHits(env, corpus, embedder, req)))
       <==> decay <= 0.0
  {
    hide FinalHits, LINE, PLAIN;
    if decay <= 0.0 {
      forall env, corpus, embedder, req | Admissible(corpus, embedder, req, decay)
        ensures HopsCountEdges(FinalHits(env, corpus, embedder, req))
      {
        FinalHitsExplained(env, corpus, embedder, req);
        NothingReached(corpus, req, FinalHits(env, corpus, embedder, req));
      }
    } else {
      var s := if decay < 1.0 then decay else 1.0;
      LineIds();
      LineClaims();
      LineIsShort(decay, s);
      assert Admissible(LINE, Some(WeakMatch(s)), AskAlong(decay, s), decay);
      assert !HopsCountEdges(FinalHits(PLAIN, LINE, Some(WeakMatch(s)), AskAlong(decay, s)));
    }
  }

  lemma NothingReached(corpus: ClaimMap, req: Request, hits: Hits)
    requires Explained(corpus, req, hits) && req.hopDecay <= 0.0
    ensures HopsCountEdges(hits)
  {
    forall i | i in hits ensures hits[i].via.None? {
      assert ExplainedHit(corpus, req, hits, i);
    }
  }
}
