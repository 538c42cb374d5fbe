/** What the searchable view of a corpus must contain, as functions of the set of claims alone: no
    definition here can see the order in which claims were loaded (grapharc/memory/index.py). */
module Corpus {
  import opened Texts
  import opened Claims

  const K1 := 1.5
  const B := 0.75
  const SUBJECT_WEIGHT := 3.0
  const PREDICATE_WEIGHT := 1.0
  const OBJECT_WEIGHT := 2.0

  /** What lies outside the model: entity resolution, tokenization, the logarithm and the rounding of scores. */
  datatype Env = Env(normalize: Text -> Text, tokenize: Text -> seq<Text>, log: real -> real, round: real -> real)

  type ClaimMap = map<Id, Claim>

  ghost predicate Keyed(corpus: ClaimMap) {
    forall i :: i in corpus ==> corpus[i].id == i
  }

  // ---- Terms ---------------------------------------------------------------------------

  function Count(tokens: seq<Text>, term: Text): nat {
    if tokens == [] then 0
    else Count(tokens[..|tokens| - 1], term) + if tokens[|tokens| - 1] == term then 1 else 0
  }

  lemma {:induction false} CountAtMostLength(tokens: seq<Text>, term: Text)
    ensures Count(tokens, term) <= |tokens|
  {
    if tokens != [] {
      CountAtMostLength(tokens[..|tokens| - 1], term);
    }
  }

  /** The weighted frequency of a term in a claim; a subject counts for more than an object. */
  function TermWeight(env: Env, c: Claim, term: Text): (w: real)
    ensures w >= 0.0
  {
    SUBJECT_WEIGHT * Count(env.tokenize(c.subject), term) as real
    + PREDICATE_WEIGHT * Count(env.tokenize(c.property), term) as real
    + OBJECT_WEIGHT * Count(env.tokenize(c.value), term) as real
  }

  function Length(env: Env, c: Claim): (w: real)
    ensures w >= 0.0
  {
    SUBJECT_WEIGHT * |env.tokenize(c.subject)| as real
    + PREDICATE_WEIGHT * |env.tokenize(c.property)| as real
    + OBJECT_WEIGHT * |env.tokenize(c.value)| as real
  }

  lemma TermWeightWithinLength(env: Env, c: Claim, term: Text)
    ensures TermWeight(env, c, term) <= Length(env, c)
  {
    CountAtMostLength(env.tokenize(c.subject), term);
    CountAtMostLength(env.tokenize(c.property), term);
    CountAtMostLength(env.tokenize(c.value), term);
  }

  ghost function Mentioning(env: Env, corpus: ClaimMap, term: Text): set<Id> {
    set i | i in corpus && TermWeight(env, corpus[i], term) > 0.0
  }

  // ---- The total length, summed in any order -------------------------------------------

  ghost function TotalLength(env: Env, corpus: ClaimMap): (t: real)
    decreases |corpus|
  {
    if corpus == map[] then 0.0
    else
      var i :| i in corpus;
      Length(env, corpus[i]) + TotalLength(env, corpus - {i})
  }

  /** Whichever claim is taken out first, the total is the same. */
  lemma {:induction false} TotalLengthRemove(env: Env, corpus: ClaimMap, i: Id)
    requires i in corpus
    ensures TotalLength(env, corpus) == Length(env, corpus[i]) + TotalLength(env, corpus - {i})
    decreases |corpus|
  {
    var j :| j in corpus && TotalLength(env, corpus) == Length(env, corpus[j]) + TotalLength(env, corpus - {j});
    if j != i {
      TotalLengthRemove(env, corpus - {j}, i);
      TotalLengthRemove(env, corpus - {i}, j);
      assert corpus - {j} - {i} == corpus - {i} - {j};
    }
  }

  lemma TotalLengthAdd(env: Env, corpus: ClaimMap, i: Id, c: Claim)
    requires i !in corpus
    ensures TotalLength(env, corpus[i := c]) == TotalLength(env, corpus) + Length(env, c)
  {
    TotalLengthRemove(env, corpus[i := c], i);
    assert corpus[i := c] - {i} == corpus;
  }

  lemma {:induction false} TotalLengthCovers(env: Env, corpus: ClaimMap)
    ensures TotalLength(env, corpus) >= 0.0
    ensures forall i :: i in corpus ==> Length(env, corpus[i]) <= TotalLength(env, corpus)
    decreases |corpus|
  {
    forall i | i in corpus ensures Length(env, corpus[i]) <= TotalLength(env, corpus) {
      TotalLengthRemove(env, corpus, i);
      TotalLengthCovers(env, corpus - {i});
    }
    if corpus != map[] {
      var i :| i in corpus;
      assert Length(env, corpus[i]) >= 0.0;
    }
  }

  ghost function AverageLength(env: Env, corpus: ClaimMap): real {
    if corpus == map[] then 0.0 else TotalLength(env, corpus) / |corpus| as real
  }

  /** A term found anywhere makes the average length positive, so the division by it is safe. */
  lemma AverageLengthPositive(env: Env, corpus: ClaimMap, term: Text, i: Id)
    requires i in Mentioning(env, corpus, term)
    ensures AverageLength(env, corpus) > 0.0
  {
    TotalLengthCovers(env, corpus);
    TermWeightWithinLength(env, corpus[i], term);
    assert TotalLength(env, corpus) > 0.0;
    DivisionPositive(TotalLength(env, corpus), |corpus| as real);
  }

  lemma DivisionPositive(a: real, b: real)
    requires a > 0.0 && b > 0.0
    ensures a / b > 0.0
  {
  }

  // ---- Okapi BM25F ---------------------------------------------------------------------

  /** How rare a term is: `df` of `n` claims mention it. */
  function Idf(env: Env, n: nat, df: nat): real {
    env.log(1.0 + (n as real - df as real + 0.5) / (df as real + 0.5))
  }

  /** One term's share of a score, from its rarity and frequency, the document's length and the average
      length. */
  function Share(idf: real, tf: real, dl: real, avgdl: real): real
    requires tf > 0.0 && dl >= 0.0 && avgdl > 0.0
  {
    DenominatorPositive(tf, dl, avgdl);
    idf * tf * (K1 + 1.0) / (tf + K1 * (1.0 - B + B * dl / avgdl))
  }

  lemma DenominatorPositive(tf: real, dl: real, avgdl: real)
    requires tf > 0.0 && dl >= 0.0 && avgdl > 0.0
    ensures tf + K1 * (1.0 - B + B * dl / avgdl) > 0.0
  {
    assert B * dl >= 0.0;
    assert B * dl / avgdl >= 0.0;
  }

  ghost function Contribution(env: Env, corpus: ClaimMap, term: Text, i: Id): real
    requires i in Mentioning(env, corpus, term)
  {
    AverageLengthPositive(env, corpus, term, i);
    Share(Idf(env, |corpus|, |Mentioning(env, corpus, term)|), TermWeight(env, corpus[i], term),
          Length(env, corpus[i]), AverageLength(env, corpus))
  }

  function ScoreOf(scores: map<Id, real>, i: Id): real {
    if i in scores then scores[i] else 0.0
  }

  /** The scores once the term has been counted for the claims in `hit`. */
  ghost function AddTermFor(env: Env, corpus: ClaimMap, scores: map<Id, real>, term: Text, hit: set<Id>): map<Id, real>
    requires hit <= Mentioning(env, corpus, term)
  {
    map i | i in scores.Keys + hit ::
      if i in hit then ScoreOf(scores, i) + Contribution(env, corpus, term, i) else scores[i]
  }

  ghost function AddTerm(env: Env, corpus: ClaimMap, scores: map<Id, real>, term: Text): map<Id, real> {
    AddTermFor(env, corpus, scores, term, Mentioning(env, corpus, term))
  }

  lemma AddTermForNone(env: Env, corpus: ClaimMap, scores: map<Id, real>, term: Text)
    ensures AddTermFor(env, corpus, scores, term, {}) == scores
  {
  }

  lemma NotAddedYet(env: Env, corpus: ClaimMap, scores: map<Id, real>, term: Text, hit: set<Id>, i: Id)
    requires hit <= Mentioning(env, corpus, term) && i !in hit
    ensures ScoreOf(AddTermFor(env, corpus, scores, term, hit), i) == ScoreOf(scores, i)
  {
    hide Contribution, Mentioning;
  }

  lemma AddTermForOneMore(env: Env, corpus: ClaimMap, scores: map<Id, real>, term: Text, hit: set<Id>, i: Id)
    requires hit <= Mentioning(env, corpus, term) && i in Mentioning(env, corpus, term) && i !in hit
    ensures var before := AddTermFor(env, corpus, scores, term, hit);
      AddTermFor(env, corpus, scores, term, hit + {i}) == before[i := ScoreOf(before, i) + Contribution(env, corpus, term, i)]
  {
    hide Contribution, Mentioning;
    NotAddedYet(env, corpus, scores, term, hit, i);
    var before, after := AddTermFor(env, corpus, scores, term, hit), AddTermFor(env, corpus, scores, term, hit + {i});
    forall j ensures j in after <==> j in before || j == i {
    }
    forall j | j in after && j != i ensures j in before && after[j] == before[j] {
    }
  }

  /** Terms in query order, each counted once. */
  ghost function Bm25(env: Env, corpus: ClaimMap, terms: seq<Text>): map<Id, real> {
    if terms == [] then map[]
    else
      var before := Bm25(env, corpus, terms[..|terms| - 1]);
      var term := terms[|terms| - 1];
      if term in terms[..|terms| - 1] then before else AddTerm(env, corpus, before, term)
  }

  // ---- Edges ---------------------------------------------------------------------------

  ghost function WithSubject(env: Env, corpus: ClaimMap, name: Text): set<Id> {
    set i | i in corpus && env.normalize(corpus[i].subject) == name
  }

  ghost function WithObject(env: Env, corpus: ClaimMap, name: Text): set<Id> {
    set i | i in corpus && env.normalize(corpus[i].value) == name
  }

  /** The claims about this claim's value and those whose value is its subject, without itself. */
  ghost function Neighbours(env: Env, corpus: ClaimMap, c: Claim): set<Id> {
    WithSubject(env, corpus, env.normalize(c.value)) + WithObject(env, corpus, env.normalize(c.subject)) - {c.id}
  }
}
