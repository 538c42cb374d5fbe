/** Relevance search over a corpus, as a function of the set of claims (grapharc/memory/retrieval.py,
    grapharc/memory/index.py). */
module Retrieval {
  import opened Options
  import opened Seqs
  import opened Sorting
  import opened Texts
  import opened Claims
  import opened Corpus

  const ENTITY_SEED_SCORE := 1.0
  const TEXT_SEED_SCALE := 0.9

  datatype Channel = Entity | Lexical | Hybrid | EntityLexical | EntityHybrid | Graph

  /** A retrieved claim and why: `via` is the claim it was last reached through, in the hop `hops`; for a
      direct match there is none. */
  datatype ScoredClaim = ScoredClaim(claim: Claim, score: real, hops: nat, via: Option<Id>, channel: Channel)

  type Hits = map<Id, ScoredClaim>
  type Scores = map<Id, real>

  /** The best raw cosine of a claim against a query, from an embedder outside the model. */
  type Embedder = (Text, Claim) -> real

  datatype Request = Request(
    query: Option<Text>, entities: seq<Text>, maxClaims: int, hops: int, hopDecay: real,
    lexicalWeight: real, minSimilarity: real, includeSuperseded: bool)
  {
    predicate HasQuery() { query.Some? && query.value.chars != "" }

    predicate Keeps(c: Claim) { includeSuperseded || c.IsCurrent() }
  }

  // ---- Blending the text channels ------------------------------------------------------

  ghost predicate IsMax(scores: Scores, m: real) {
    (exists i :: i in scores && scores[i] == m) && forall i :: i in scores ==> scores[i] <= m
  }

  lemma {:induction false} MaxExists(scores: Scores)
    requires scores != map[]
    ensures exists m :: IsMax(scores, m)
    decreases |scores|
  {
    var i :| i in scores;
    var rest := scores - {i};
    assert forall j :: j in scores ==> j == i || j in rest;
    if rest == map[] {
      assert IsMax(scores, scores[i]);
    } else {
      MaxExists(rest);
      var n :| IsMax(rest, n);
      assert IsMax(scores, if n <= scores[i] then scores[i] else n);
    }
  }

  ghost function Best(scores: Scores): (m: real)
    requires scores != map[]
    ensures IsMax(scores, m)
  {
    MaxExists(scores);
    var m :| IsMax(scores, m);
    m
  }

  /** Rescaled so that the best score is 1. */
  ghost function Normalized(scores: Scores): Scores {
    if scores == map[] || Best(scores) <= 0.0 then map[]
    else map i | i in scores :: scores[i] / Best(scores)
  }

  function Clamp(w: real): real {
    if w < 0.0 then 0.0 else if w > 1.0 then 1.0 else w
  }

  function Mix(w: real, a: real, b: real): real { w * a + (1.0 - w) * b }

  ghost function Blend(lexical: Scores, vector: Scores, lexicalWeight: real): Scores {
    var lex, w := Normalized(lexical), Clamp(lexicalWeight);
    if vector == map[] then lex
    else if lex == map[] then vector
    else map i | i in lex.Keys + vector.Keys :: Mix(w, ScoreOf(lex, i), ScoreOf(vector, i))
  }

  function NonNegative(x: real): real { if x < 0.0 then 0.0 else x }

  ghost function Similarity(corpus: ClaimMap, embedder: Option<Embedder>, query: Text, floor: real): Scores {
    if embedder.None? then map[]
    else
      map i | i in corpus && NonNegative(embedder.value(query, corpus[i])) >= floor ::
        NonNegative(embedder.value(query, corpus[i]))
  }

  ghost function TextScores(env: Env, corpus: ClaimMap, embedder: Option<Embedder>, req: Request): Scores {
    if !req.HasQuery() then map[]
    else
      Blend(Bm25(env, corpus, env.tokenize(req.query.value)),
            Similarity(corpus, embedder, req.query.value, req.minSimilarity), req.lexicalWeight)
  }

  // ---- Seeds ---------------------------------------------------------------------------

  ghost function Named(env: Env, corpus: ClaimMap, entities: seq<Text>): set<Id> {
    set i | i in corpus && exists e :: e in entities && env.normalize(corpus[i].subject) == env.normalize(e)
  }

  function SeedScore(named: bool, text: real): real {
    (if named then ENTITY_SEED_SCORE else 0.0) + (if text > 0.0 then TEXT_SEED_SCALE * text else 0.0)
  }

  function SeedChannel(named: bool, text: real, vectors: bool): Channel {
    if text > 0.0 then
      if named then if vectors then EntityHybrid else EntityLexical else if vectors then Hybrid else Lexical
    else Entity
  }

  /** A claim is a direct match when it is about a named entity or a text channel scores it. */
  ghost function Matches(env: Env, corpus: ClaimMap, req: Request, text: Scores): set<Id> {
    Named(env, corpus, req.entities) + set i | i in text && text[i] > 0.0
  }

  ghost function SeedHits(env: Env, corpus: ClaimMap, req: Request, text: Scores, vectors: bool): Hits {
    var named := Named(env, corpus, req.entities);
    map i | i in Matches(env, corpus, req, text) && i in corpus && req.Keeps(corpus[i]) ::
      ScoredClaim(corpus[i], SeedScore(i in named, ScoreOf(text, i)), 0, None,
                  SeedChannel(i in named, ScoreOf(text, i), vectors))
  }

  // ---- Ranking -------------------------------------------------------------------------

  /** Descending by rounded score, then recency, then id. */
  predicate RankedBefore(env: Env, s: real, c: Claim, s': real, c': Claim) {
    var r, r' := env.round(s), env.round(s');
    r > r' || (r == r' && (c.observedAt > c'.observedAt || (c.observedAt == c'.observedAt && TextLe(c'.id, c.id))))
  }

  const NO_CLAIM := Claim(Text(""), Text(""), Text(""), Text(""), Text(""), 0, None, 0.0, None, None)

  function At(corpus: ClaimMap, i: Id): Claim {
    if i in corpus then corpus[i] else NO_CLAIM
  }

  function RankOrder(env: Env, corpus: ClaimMap, scores: Scores): (Id, Id) -> bool {
    (a, b) => RankedBefore(env, ScoreOf(scores, a), At(corpus, a), ScoreOf(scores, b), At(corpus, b))
  }

  lemma RankedTotal(env: Env, s: real, c: Claim, s': real, c': Claim)
    ensures RankedBefore(env, s, c, s', c') || RankedBefore(env, s', c', s, c)
  {
    LexTotal(c.id.chars, c'.id.chars);
  }

  lemma RankedTransitive(env: Env, s: real, c: Claim, s': real, c': Claim, s'': real, c'': Claim)
    requires RankedBefore(env, s, c, s', c') && RankedBefore(env, s', c', s'', c'')
    ensures RankedBefore(env, s, c, s'', c'')
  {
    if TextLe(c'.id, c.id) && TextLe(c''.id, c'.id) {
      LexTransitive(c''.id.chars, c'.id.chars, c.id.chars);
    }
  }

  lemma RankedAntisymmetric(env: Env, s: real, c: Claim, s': real, c': Claim)
    requires RankedBefore(env, s, c, s', c') && RankedBefore(env, s', c', s, c)
    ensures c.id == c'.id
  {
    LexAntisymmetric(c.id.chars, c'.id.chars);
  }

  lemma RankIsTotal(env: Env, corpus: ClaimMap, scores: Scores)
    ensures TotalPreorder(RankOrder(env, corpus, scores))
  {
    hide RankedBefore;
    var le := RankOrder(env, corpus, scores);
    forall a, b ensures le(a, b) || le(b, a) {
      RankedTotal(env, ScoreOf(scores, a), At(corpus, a), ScoreOf(scores, b), At(corpus, b));
    }
    forall a, b, c | le(a, b) && le(b, c) ensures le(a, c) {
      RankedTransitive(env, ScoreOf(scores, a), At(corpus, a), ScoreOf(scores, b), At(corpus, b),
                       ScoreOf(scores, c), At(corpus, c));
    }
  }

  lemma RankTellsApart(env: Env, corpus: ClaimMap, scores: Scores, ids: seq<Id>)
    requires Keyed(corpus) && forall i :: i in ids ==> i in corpus
    ensures Antisymmetric(RankOrder(env, corpus, scores), ids)
  {
    hide RankedBefore;
    var le := RankOrder(env, corpus, scores);
    forall a, b | a in ids && b in ids && le(a, b) && le(b, a) ensures a == b {
      RankedAntisymmetric(env, ScoreOf(scores, a), At(corpus, a), ScoreOf(scores, b), At(corpus, b));
    }
  }

  /** `ids` lists every element of `s` once. */
  ghost predicate Lists(ids: seq<Id>, s: set<Id>) {
    Distinct(ids) && forall i :: i in ids <==> i in s
  }

  ghost function SomeOrder(s: set<Id>): (ids: seq<Id>)
    ensures Lists(ids, s) && |ids| == |s|
    decreases |s|
  {
    if s == {} then []
    else
      var i :| i in s;
      SomeOrder(s - {i}) + [i]
  }

  /** The ids by rank; `SomeOrder` is forgotten by the sort. */
  ghost function Ranking(env: Env, corpus: ClaimMap, scores: Scores): (ids: seq<Id>)
    ensures |ids| == |scores| && forall i :: i in ids <==> i in scores
  {
    SortPermutes(RankOrder(env, corpus, scores), SomeOrder(scores.Keys));
    SameElements(Sort(RankOrder(env, corpus, scores), SomeOrder(scores.Keys)), SomeOrder(scores.Keys));
    Sort(RankOrder(env, corpus, scores), SomeOrder(scores.Keys))
  }

  /** Sorting any listing of the scored ids gives the same ranking. */
  lemma RankingIsOrderFree(env: Env, corpus: ClaimMap, scores: Scores, ids: seq<Id>)
    requires Keyed(corpus) && scores.Keys <= corpus.Keys && Lists(ids, scores.Keys)
    ensures Sort(RankOrder(env, corpus, scores), ids) == Ranking(env, corpus, scores)
  {
    RankIsTotal(env, corpus, scores);
    RankTellsApart(env, corpus, scores, ids);
    SameSetSameMultiset(ids, SomeOrder(scores.Keys));
    SortIgnoresOrder(RankOrder(env, corpus, scores), ids, SomeOrder(scores.Keys));
  }

  /** `xs[:n]` as Python reads it: a negative bound counts from the end. */
  function Head<T>(xs: seq<T>, n: int): (r: seq<T>)
    ensures r <= xs
  {
    if n >= |xs| then xs else if n >= 0 then xs[..n] else if |xs| + n > 0 then xs[..|xs| + n] else []
  }

  function ExpandLimit(req: Request): int {
    if req.maxClaims > 1 then req.maxClaims else 1
  }

  ghost function Top(env: Env, corpus: ClaimMap, req: Request, scores: Scores): (ids: seq<Id>)
    ensures forall i :: i in ids ==> i in scores
  {
    var ranked := Ranking(env, corpus, scores);
    assert forall i :: i in Head(ranked, ExpandLimit(req)) ==> i in ranked;
    Head(ranked, ExpandLimit(req))
  }

  // ---- Graph expansion -----------------------------------------------------------------

  function HitScores(hits: Hits): Scores {
    map i | i in hits :: hits[i].score
  }

  /** The guard of an offer: the claim is kept and the score is positive and better than before. */
  predicate Accepts(corpus: ClaimMap, req: Request, hits: Hits, i: Id, score: real) {
    && i in corpus && req.Keeps(corpus[i]) && score > 0.0
    && (i in hits ==> hits[i].score < score)
  }

  ghost function Accepted(corpus: ClaimMap, req: Request, hits: Hits, offered: set<Id>, score: real): set<Id> {
    set i | i in offered && Accepts(corpus, req, hits, i, score)
  }

  /** Offering the same score through the same parent to a set of claims; they do not compete. */
  ghost function Offer(corpus: ClaimMap, req: Request, hits: Hits, offered: set<Id>, score: real, hop: nat, parent: Id): (r: Hits)
    ensures hits.Keys <= r.Keys
    ensures forall i :: i in r ==> if i in offered && Accepts(corpus, req, hits, i, score)
                                   then r[i] == ScoredClaim(corpus[i], score, hop, Some(parent), Graph)
                                   else i in hits && r[i] == hits[i]
  {
    var taken := Accepted(corpus, req, hits, offered, score);
    hits + (map i | i in taken :: ScoredClaim(corpus[i], score, hop, Some(parent), Graph))
  }

  /** What a neighbour inherits from the claim it was reached through. */
  function Decayed(score: real, decay: real): real { score * decay }

  datatype Expansion = Expansion(hits: Hits, promoted: Scores)

  ghost function ExpandParent(env: Env, corpus: ClaimMap, req: Request, e: Expansion, hop: nat, parent: Id): (r: Expansion)
    requires parent in e.hits
    ensures e.hits.Keys <= r.hits.Keys
  {
    var offered := Neighbours(env, corpus, e.hits[parent].claim);
    var score := Decayed(e.hits[parent].score, req.hopDecay);
    Expansion(Offer(corpus, req, e.hits, offered, score, hop, parent),
              e.promoted + (map i | i in Accepted(corpus, req, e.hits, offered, score) :: score))
  }

  /** One hop: the parents of the frontier in rank order. */
  ghost function ExpandAll(env: Env, corpus: ClaimMap, req: Request, hits: Hits, hop: nat, frontier: seq<Id>): (r: Expansion)
    requires forall i :: i in frontier ==> i in hits
    ensures hits.Keys <= r.hits.Keys
  {
    if frontier == [] then Expansion(hits, map[])
    else
      assert forall i :: i in frontier[..|frontier| - 1] ==> i in frontier;
      assert frontier[|frontier| - 1] in frontier;
      ExpandParent(env, corpus, req, ExpandAll(env, corpus, req, hits, hop, frontier[..|frontier| - 1]), hop,
                   frontier[|frontier| - 1])
  }

  lemma {:induction false} PromotedAreHits(env: Env, corpus: ClaimMap, req: Request, hits: Hits, hop: nat, frontier: seq<Id>)
    requires forall i :: i in frontier ==> i in hits
    ensures var e := ExpandAll(env, corpus, req, hits, hop, frontier); e.promoted.Keys <= e.hits.Keys
  {
    if frontier != [] {
      var front, last := frontier[..|frontier| - 1], frontier[|frontier| - 1];
      assert forall i :: i in front ==> i in frontier;
      assert last in frontier;
      PromotedAreHits(env, corpus, req, hits, hop, front);
    }
  }

  /** Hops `hop` to `req.hops`, stopping early when a hop improves nothing. */
  ghost function Expand(env: Env, corpus: ClaimMap, req: Request, hits: Hits, hop: nat, frontier: seq<Id>): (r: Hits)
    requires forall i :: i in frontier ==> i in hits
    ensures hits.Keys <= r.Keys
    decreases req.hops + 1 - hop
  {
    if hop > req.hops then hits
    else
      var e := ExpandAll(env, corpus, req, hits, hop, frontier);
      PromotedAreHits(env, corpus, req, hits, hop, frontier);
      if e.promoted == map[] then e.hits
      else Expand(env, corpus, req, e.hits, hop + 1, Top(env, corpus, req, e.promoted))
  }

  ghost function FinalHits(env: Env, corpus: ClaimMap, embedder: Option<Embedder>, req: Request): Hits {
    var seeds := SeedHits(env, corpus, req, TextScores(env, corpus, embedder, req), embedder.Some?);
    Expand(env, corpus, req, seeds, 1, Top(env, corpus, req, HitScores(seeds)))
  }

  function HitList(hits: Hits, ids: seq<Id>): seq<ScoredClaim>
    requires forall i :: i in ids ==> i in hits
  {
    seq(|ids|, k requires 0 <= k < |ids| => hits[ids[k]])
  }

  /** What `search` returns for a set of claims: no order among them enters this definition. */
  ghost function SearchResult(env: Env, corpus: ClaimMap, embedder: Option<Embedder>, req: Request): seq<ScoredClaim> {
    if (!req.HasQuery() && req.entities == []) || corpus == map[] then []
    else
      var hits := FinalHits(env, corpus, embedder, req);
      Head(HitList(hits, Ranking(env, corpus, HitScores(hits))), req.maxClaims)
  }

  // ---- Every hit has a well-founded explanation ----------------------------------------

  ghost predicate ExplainedHit(corpus: ClaimMap, req: Request, hits: Hits, i: Id)
    requires i in hits
  {
    && i in corpus && hits[i].claim == corpus[i] && req.Keeps(corpus[i]) && hits[i].score > 0.0
    && match hits[i].via
       case None => hits[i].hops == 0
       case Some(v) => hits[i].hops > 0 && v in hits && req.hopDecay > 0.0 && hits[i].score <= Decayed(hits[v].score, req.hopDecay)
  }

  ghost predicate Explained(corpus: ClaimMap, req: Request, hits: Hits) {
    forall i :: i in hits ==> ExplainedHit(corpus, req, hits, i)
  }

  lemma DecayedGrows(x: real, y: real, d: real)
    requires d > 0.0 && x <= y
    ensures Decayed(x, d) <= Decayed(y, d)
  {
  }

  lemma DecayIsPositive(x: real, d: real)
    requires x > 0.0 && Decayed(x, d) > 0.0
    ensures d > 0.0
  {
  }

  /** An overwrite only raises scores, so what was explained through a hit stays explained. */
  lemma OfferKeepsExplained(corpus: ClaimMap, req: Request, hits: Hits, offered: set<Id>, score: real, hop: nat, parent: Id)
    requires Explained(corpus, req, hits) && hop > 0 && parent in hits && parent !in offered
    requires score == Decayed(hits[parent].score, req.hopDecay)
    ensures Explained(corpus, req, Offer(corpus, req, hits, offered, score, hop, parent))
  {
    hide Offer, Decayed;
    var r := Offer(corpus, req, hits, offered, score, hop, parent);
    assert ExplainedHit(corpus, req, hits, parent);
    forall i | i in r ensures ExplainedHit(corpus, req, r, i) {
      if i in offered && Accepts(corpus, req, hits, i, score) {
        DecayIsPositive(hits[parent].score, req.hopDecay);
      } else {
        assert ExplainedHit(corpus, req, hits, i);
        if hits[i].via.Some? {
          OfferOnlyRaises(corpus, req, hits, offered, score, hop, parent, hits[i].via.value);
          DecayedGrows(hits[hits[i].via.value].score, r[hits[i].via.value].score, req.hopDecay);
        }
      }
    }
  }

  lemma OfferOnlyRaises(corpus: ClaimMap, req: Request, hits: Hits, offered: set<Id>, score: real, hop: nat, parent: Id, i: Id)
    requires i in hits
    ensures var r := Offer(corpus, req, hits, offered, score, hop, parent); i in r && hits[i].score <= r[i].score
  {
    hide Offer;
  }

  lemma ParentNotOffered(env: Env, corpus: ClaimMap, req: Request, hits: Hits, parent: Id)
    requires Keyed(corpus) && Explained(corpus, req, hits) && parent in hits
    ensures parent !in Neighbours(env, corpus, hits[parent].claim)
  {
    assert ExplainedHit(corpus, req, hits, parent);
  }

  lemma SeedsExplained(env: Env, corpus: ClaimMap, req: Request, text: Scores, vectors: bool)
    ensures Explained(corpus, req, SeedHits(env, corpus, req, text, vectors))
  {
  }

  lemma {:induction false} ExpandAllExplained(env: Env, corpus: ClaimMap, req: Request, hits: Hits, hop: nat, frontier: seq<Id>)
    requires Keyed(corpus) && Explained(corpus, req, hits) && hop > 0 && forall i :: i in frontier ==> i in hits
    ensures Explained(corpus, req, ExpandAll(env, corpus, req, hits, hop, frontier).hits)
  {
    hide Explained, Offer, Accepted, Neighbours, Decayed;
    if frontier != [] {
      var front, parent := frontier[..|frontier| - 1], frontier[|frontier| - 1];
      assert forall i :: i in front ==> i in frontier;
      assert parent in frontier;
      ExpandAllExplained(env, corpus, req, hits, hop, front);
      var e := ExpandAll(env, corpus, req, hits, hop, front);
      ParentNotOffered(env, corpus, req, e.hits, parent);
      var offered, score := Neighbours(env, corpus, e.hits[parent].claim), Decayed(e.hits[parent].score, req.hopDecay);
      OfferKeepsExplained(corpus, req, e.hits, offered, score, hop, parent);
      assert ExpandAll(env, corpus, req, hits, hop, frontier).hits
          == Offer(corpus, req, e.hits, offered, score, hop, parent);
    }
  }

  lemma {:induction false} ExpandExplained(env: Env, corpus: ClaimMap, req: Request, hits: Hits, hop: nat, frontier: seq<Id>)
    requires Keyed(corpus) && Explained(corpus, req, hits) && hop > 0 && forall i :: i in frontier ==> i in hits
    ensures Explained(corpus, req, Expand(env, corpus, req, hits, hop, frontier))
    decreases req.hops + 1 - hop
  {
    hide Explained;
    if hop <= req.hops {
      ExpandAllExplained(env, corpus, req, hits, hop, frontier);
      PromotedAreHits(env, corpus, req, hits, hop, frontier);
      var e := ExpandAll(env, corpus, req, hits, hop, frontier);
      if e.promoted != map[] {
        ExpandExplained(env, corpus, req, e.hits, hop + 1, Top(env, corpus, req, e.promoted));
      }
    }
  }

  /** At the end of any run, a hit reached through the graph scores at most the decayed score its
      parent ended with, whatever was overwritten on the way. */
  lemma FinalHitsExplained(env: Env, corpus: ClaimMap, embedder: Option<Embedder>, req: Request)
    requires Keyed(corpus)
    ensures Explained(corpus, req, FinalHits(env, corpus, embedder, req))
  {
    hide Explained;
    var text := TextScores(env, corpus, embedder, req);
    SeedsExplained(env, corpus, req, text, embedder.Some?);
    var seeds := SeedHits(env, corpus, req, text, embedder.Some?);
    ExpandExplained(env, corpus, req, seeds, 1, Top(env, corpus, req, HitScores(seeds)));
  }

  /** `path` follows `via` from a hit to a direct match, and scores rise strictly along it. */
  ghost predicate IsExplanation(hits: Hits, path: seq<Id>) {
    && path != []
    && (forall k :: 0 <= k < |path| ==> path[k] in hits)
    && (forall k :: 0 <= k < |path| - 1 ==> hits[path[k]].via == Some(path[k + 1]))
    && (forall k :: 0 <= k < |path| - 1 ==> hits[path[k]].score < hits[path[k + 1]].score)
    && hits[path[|path| - 1]].via == None && hits[path[|path| - 1]].hops == 0
  }

  ghost function Better(hits: Hits, i: Id): set<Id>
    requires i in hits
  {
    set j | j in hits && hits[j].score > hits[i].score
  }

  lemma FactorBelowOne(x: real, d: real)
    requires 0.0 < d < 1.0 && x > 0.0
    ensures Decayed(x, d) < x
  {
  }

  lemma DecayedPositive(y: real, d: real)
    requires 0.0 < d && 0.0 < Decayed(y, d)
    ensures y > 0.0
  {
  }

  lemma DecayLowers(x: real, y: real, d: real)
    requires 0.0 < d < 1.0 && 0.0 < x <= Decayed(y, d)
    ensures x < y
  {
    hide Decayed;
    DecayedPositive(y, d);
    FactorBelowOne(y, d);
  }

  /** With a decay below one, every chain of `via` is finite and ends at a direct match. */
  lemma {:induction false} EveryHitIsExplained(corpus: ClaimMap, req: Request, hits: Hits, i: Id) returns (path: seq<Id>)
    requires Explained(corpus, req, hits) && req.hopDecay < 1.0 && i in hits
    ensures IsExplanation(hits, path) && path[0] == i
    decreases Better(hits, i)
  {
    assert ExplainedHit(corpus, req, hits, i);
    match hits[i].via
    case None =>
      path := [i];
    case Some(v) =>
      DecayLowers(hits[i].score, hits[v].score, req.hopDecay);
      assert v in Better(hits, i) && v !in Better(hits, v);
      hide IsExplanation, Explained;
      var rest := EveryHitIsExplained(corpus, req, hits, v);
      ExplainFirst(hits, i, rest);
      path := [i] + rest;
  }

  lemma ExplainFirst(hits: Hits, i: Id, rest: seq<Id>)
    requires IsExplanation(hits, rest) && i in hits
    requires hits[i].via == Some(rest[0]) && hits[i].score < hits[rest[0]].score
    ensures IsExplanation(hits, [i] + rest)
  {
    var path := [i] + rest;
    assert forall k :: 1 <= k < |path| ==> path[k] == rest[k - 1];
  }
}
