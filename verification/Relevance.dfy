/** What a relevance score rewards, said of claims and their words rather than of the formula
    (grapharc/memory/index.py, grapharc/memory/retrieval.py). */
module Relevance {
  import opened Options
  import opened Texts
  import opened Claims
  import opened Seqs
  import opened Sorting
  import opened Corpus
  import opened Index
  import opened Retrieval
  import opened SearchBands

  /** As a logarithm: strictly increasing, and zero at one. */
  ghost predicate IsLogarithm(log: real -> real) {
    (forall x, y :: 0.0 < x < y ==> log(x) < log(y)) && log(1.0) == 0.0
  }

  // ---- The words of a claim ------------------------------------------------------------

  /** How often a term stands in the subject, the predicate and the object. */
  datatype Occurrences = Occurrences(subject: nat, property: nat, value: nat)

  ghost function OccurrencesOf(env: Env, c: Claim, term: Text): Occurrences {
    Occurrences(multiset(env.tokenize(c.subject))[term], multiset(env.tokenize(c.property))[term],
                multiset(env.tokenize(c.value))[term])
  }

  /** How many words the subject, the predicate and the object have. */
  ghost function WordsOf(env: Env, c: Claim): Occurrences {
    Occurrences(|env.tokenize(c.subject)|, |env.tokenize(c.property)|, |env.tokenize(c.value)|)
  }

  /** At least as many in every field, and more in one. */
  predicate MoreThan(a: Occurrences, b: Occurrences) {
    a.subject >= b.subject && a.property >= b.property && a.value >= b.value && a != b
  }

  lemma {:induction false} CountIsMultiplicity(tokens: seq<Text>, term: Text)
    ensures Count(tokens, term) == multiset(tokens)[term]
  {
    if tokens != [] {
      var front, last := tokens[..|tokens| - 1], tokens[|tokens| - 1];
      CountIsMultiplicity(front, term);
      assert tokens == front + [last];
    }
  }

  /** The weight of a term in a claim, from its occurrences. */
  lemma WeightOfOccurrences(env: Env, c: Claim, term: Text)
    ensures var o := OccurrencesOf(env, c, term);
      TermWeight(env, c, term) == 3.0 * o.subject as real + 1.0 * o.property as real + 2.0 * o.value as real
  {
    CountIsMultiplicity(env.tokenize(c.subject), term);
    CountIsMultiplicity(env.tokenize(c.property), term);
    CountIsMultiplicity(env.tokenize(c.value), term);
  }

  /** Said of a term at all: it stands in some field. */
  ghost predicate Says(env: Env, c: Claim, term: Text) {
    term in env.tokenize(c.subject) || term in env.tokenize(c.property) || term in env.tokenize(c.value)
  }

  lemma SaysIsWeight(env: Env, c: Claim, term: Text)
    ensures Says(env, c, term) <==> TermWeight(env, c, term) > 0.0
  {
    WeightOfOccurrences(env, c, term);
    assert Says(env, c, term) <==> OccurrencesOf(env, c, term) != Occurrences(0, 0, 0);
  }

  /** The claims that say a term. */
  ghost function Saying(env: Env, corpus: ClaimMap, term: Text): set<Id> {
    set i | i in corpus && Says(env, corpus[i], term)
  }

  lemma SayingIsMentioning(env: Env, corpus: ClaimMap, term: Text)
    ensures Saying(env, corpus, term) == Mentioning(env, corpus, term)
  {
    forall i | i in corpus ensures Says(env, corpus[i], term) <==> TermWeight(env, corpus[i], term) > 0.0 {
      SaysIsWeight(env, corpus[i], term);
    }
  }

  // ---- Claims found by one term of the query -------------------------------------------

  /** The claim says this term of the query and no other. */
  ghost predicate FoundBy(env: Env, corpus: ClaimMap, terms: seq<Text>, i: Id, term: Text) {
    i in corpus && term in terms && forall t :: t in terms ==> (Says(env, corpus[i], t) <==> t == term)
  }

  /** A claim scores if and only if it says some term of the query. */
  lemma {:induction false} ScoredIffSaid(env: Env, corpus: ClaimMap, terms: seq<Text>, i: Id)
    ensures i in Bm25(env, corpus, terms) <==> i in corpus && exists t :: t in terms && Says(env, corpus[i], t)
  {
    hide Says, Contribution, Mentioning;
    if terms != [] {
      var front, last := terms[..|terms| - 1], terms[|terms| - 1];
      assert terms == front + [last];
      ScoredIffSaid(env, corpus, front, i);
      SayingIsMentioning(env, corpus, last);
      assert i in Saying(env, corpus, last) <==> i in corpus && Says(env, corpus[i], last);
    }
  }

  /** However often the query repeats its terms, a claim found by one of them scores that term's
      contribution, once. */
  lemma {:induction false} OneTermScore(env: Env, corpus: ClaimMap, terms: seq<Text>, i: Id, term: Text)
    requires FoundBy(env, corpus, terms, i, term)
    ensures i in corpus && TermWeight(env, corpus[i], term) > 0.0
    ensures i in Mentioning(env, corpus, term) && i in Bm25(env, corpus, terms)
    ensures Bm25(env, corpus, terms)[i] == Contribution(env, corpus, term, i)
  {
    hide Says, Contribution, Mentioning, TermWeight;
    var front, last := terms[..|terms| - 1], terms[|terms| - 1];
    assert terms == front + [last];
    SaysIsWeight(env, corpus[i], term);
    SayingIsMentioning(env, corpus, term);
    SayingIsMentioning(env, corpus, last);
    assert i in Saying(env, corpus, term);
    if term in front {
      OneTermScore(env, corpus, front, i, term);
      if last !in front {
        assert i !in Saying(env, corpus, last);
        NotAddedYet(env, corpus, Bm25(env, corpus, front), last, Mentioning(env, corpus, last), i);
      }
    } else {
      ScoredIffSaid(env, corpus, front, i);
    }
  }

  // ---- The shape of one contribution ---------------------------------------------------

  /** What one term contributes, from its rarity, weight, and the length of the claim in average lengths. */
  ghost function Part(idf: real, tf: real, relative: real): real
    requires tf > 0.0 && relative >= 0.0
  {
    idf * (2.5 * tf / (tf + 1.5 * (0.25 + 0.75 * relative)))
  }

  lemma ContributionIsPart(env: Env, corpus: ClaimMap, term: Text, i: Id)
    requires i in Mentioning(env, corpus, term)
    ensures AverageLength(env, corpus) > 0.0 && Length(env, corpus[i]) / AverageLength(env, corpus) >= 0.0
    ensures Contribution(env, corpus, term, i)
         == Part(Idf(env, |corpus|, |Mentioning(env, corpus, term)|), TermWeight(env, corpus[i], term),
                 Length(env, corpus[i]) / AverageLength(env, corpus))
  {
    hide Idf, TermWeight, Length, AverageLength;
    AverageLengthPositive(env, corpus, term, i);
    QuotientNonNegative(Length(env, corpus[i]), AverageLength(env, corpus));
    ShareIsPart(Idf(env, |corpus|, |Mentioning(env, corpus, term)|), TermWeight(env, corpus[i], term),
                Length(env, corpus[i]), AverageLength(env, corpus));
  }

  lemma QuotientNonNegative(a: real, b: real)
    requires a >= 0.0 && b > 0.0
    ensures a / b >= 0.0
  {
  }

  lemma ShareIsPart(idf: real, tf: real, dl: real, avgdl: real)
    requires tf > 0.0 && dl >= 0.0 && avgdl > 0.0 && dl / avgdl >= 0.0
    ensures Share(idf, tf, dl, avgdl) == Part(idf, tf, dl / avgdl)
  {
    var relative := dl / avgdl;
    assert B * dl / avgdl == 0.75 * relative;
    var denominator := tf + 1.5 * (0.25 + 0.75 * relative);
    assert K1 * (1.0 - B + B * dl / avgdl) == 1.5 * (0.25 + 0.75 * relative);
    DenominatorPositive(tf, dl, avgdl);
    Regroup(idf, tf, denominator);
  }

  lemma Regroup(idf: real, tf: real, denominator: real)
    requires denominator > 0.0
    ensures idf * tf * 2.5 / denominator == idf * (2.5 * tf / denominator)
  {
    assert idf * tf * 2.5 == idf * (2.5 * tf);
  }

  lemma QuotientsOrdered(a: real, b: real, c: real, d: real)
    requires b > 0.0 && d > 0.0 && a * d > c * b
    ensures a / b > c / d
  {
    var x, y := a / b, c / d;
    assert x * b == a && y * d == c;
    assert (x - y) * (b * d) == (x * b) * d - (y * d) * b;
    ProductPositive(b, d);
    FactorPositive(x - y, b * d);
  }

  lemma ProductPositive(a: real, b: real)
    requires a > 0.0 && b > 0.0
    ensures a * b > 0.0
  {
  }

  lemma FactorPositive(p: real, q: real)
    requires q > 0.0 && p * q > 0.0
    ensures p > 0.0
  {
  }

  lemma ProductOrdered(k: real, a: real, b: real)
    requires k > 0.0 && a > b
    ensures k * a > k * b
  {
  }

  lemma PartGrowsWithIdf(idf: real, idf': real, tf: real, relative: real)
    requires tf > 0.0 && relative >= 0.0 && idf > idf'
    ensures Part(idf, tf, relative) > Part(idf', tf, relative)
  {
    var k := 2.5 * tf / (tf + 1.5 * (0.25 + 0.75 * relative));
    QuotientPositive(2.5 * tf, tf + 1.5 * (0.25 + 0.75 * relative));
    ProductOrdered(k, idf, idf');
    assert idf * k == k * idf && idf' * k == k * idf';
  }

  lemma QuotientPositive(a: real, b: real)
    requires a > 0.0 && b > 0.0
    ensures a / b > 0.0
  {
  }

  lemma PartGrowsWithWeight(idf: real, tf: real, tf': real, relative: real)
    requires idf > 0.0 && tf > tf' > 0.0 && relative >= 0.0
    ensures Part(idf, tf, relative) > Part(idf, tf', relative)
  {
    var c := 1.5 * (0.25 + 0.75 * relative);
    ProductOrdered(c, tf, tf');
    assert (2.5 * tf) * (tf' + c) == 2.5 * (tf * tf') + 2.5 * (c * tf);
    assert (2.5 * tf') * (tf + c) == 2.5 * (tf * tf') + 2.5 * (c * tf');
    QuotientsOrdered(2.5 * tf, tf + c, 2.5 * tf', tf' + c);
    ProductOrdered(idf, 2.5 * tf / (tf + c), 2.5 * tf' / (tf' + c));
  }

  lemma PartFallsWithLength(idf: real, tf: real, relative: real, relative': real)
    requires idf > 0.0 && tf > 0.0 && 0.0 <= relative < relative'
    ensures Part(idf, tf, relative) > Part(idf, tf, relative')
  {
    var c, c' := tf + 1.5 * (0.25 + 0.75 * relative), tf + 1.5 * (0.25 + 0.75 * relative');
    ProductOrdered(2.5 * tf, c', c);
    QuotientsOrdered(2.5 * tf, c, 2.5 * tf, c');
    ProductOrdered(idf, 2.5 * tf / c, 2.5 * tf / c');
  }

  lemma IdfFalls(env: Env, n: nat, df: nat, df': nat)
    requires IsLogarithm(env.log) && df < df' <= n
    ensures Idf(env, n, df) > Idf(env, n, df')
  {
    var a, b, c, d := n as real - df as real + 0.5, df as real + 0.5, n as real - df' as real + 0.5, df' as real + 0.5;
    assert a > c > 0.0 && d > b > 0.0;
    ProductOrdered(d, a, c);
    ProductOrdered(c, d, b);
    assert a * d > c * b;
    QuotientsOrdered(a, b, c, d);
    QuotientPositive(c, d);
  }

  lemma IdfPositive(env: Env, n: nat, df: nat)
    requires IsLogarithm(env.log) && df <= n
    ensures Idf(env, n, df) > 0.0
  {
    QuotientPositive(n as real - df as real + 0.5, df as real + 0.5);
  }

  lemma {:induction false} MentioningAtMostAll(env: Env, corpus: ClaimMap, term: Text)
    ensures |Mentioning(env, corpus, term)| <= |corpus|
    decreases |corpus|
  {
    if corpus != map[] {
      var i :| i in corpus;
      var rest := corpus - {i};
      MentioningAtMostAll(env, rest, term);
      assert Mentioning(env, corpus, term) - {i} == Mentioning(env, rest, term);
    } else {
      assert Mentioning(env, corpus, term) == {};
    }
  }

  // ---- What scores higher --------------------------------------------------------------

  /** Of two claims with equally many words in every field, in which their one term of the query stands
      equally often, the one whose term fewer claims say scores higher. */
  lemma RarerScoresHigher(env: Env, corpus: ClaimMap, terms: seq<Text>, i: Id, s: Text, j: Id, t: Text)
    requires IsLogarithm(env.log) && FoundBy(env, corpus, terms, i, s) && FoundBy(env, corpus, terms, j, t)
    requires WordsOf(env, corpus[i]) == WordsOf(env, corpus[j])
    requires OccurrencesOf(env, corpus[i], s) == OccurrencesOf(env, corpus[j], t)
    requires |Saying(env, corpus, s)| < |Saying(env, corpus, t)|
    ensures i in Bm25(env, corpus, terms) && j in Bm25(env, corpus, terms)
    ensures Bm25(env, corpus, terms)[i] > Bm25(env, corpus, terms)[j]
  {
    hide IsLogarithm, FoundBy, OccurrencesOf, Bm25, Contribution, Part, Idf, TermWeight, AverageLength, Mentioning, Saying;
    OneTermScore(env, corpus, terms, i, s);
    OneTermScore(env, corpus, terms, j, t);
    ContributionIsPart(env, corpus, s, i);
    ContributionIsPart(env, corpus, t, j);
    WeightOfOccurrences(env, corpus[i], s);
    WeightOfOccurrences(env, corpus[j], t);
    SayingIsMentioning(env, corpus, s);
    SayingIsMentioning(env, corpus, t);
    MentioningAtMostAll(env, corpus, t);
    IdfFalls(env, |corpus|, |Mentioning(env, corpus, s)|, |Mentioning(env, corpus, t)|);
    PartGrowsWithIdf(Idf(env, |corpus|, |Mentioning(env, corpus, s)|), Idf(env, |corpus|, |Mentioning(env, corpus, t)|),
                     TermWeight(env, corpus[i], s), Length(env, corpus[i]) / AverageLength(env, corpus));
  }

  lemma HeavierScoresHigher(env: Env, corpus: ClaimMap, terms: seq<Text>, term: Text, i: Id, j: Id)
    requires IsLogarithm(env.log) && FoundBy(env, corpus, terms, i, term) && FoundBy(env, corpus, terms, j, term)
    requires WordsOf(env, corpus[i]) == WordsOf(env, corpus[j])
    requires TermWeight(env, corpus[i], term) > TermWeight(env, corpus[j], term)
    ensures i in Bm25(env, corpus, terms) && j in Bm25(env, corpus, terms)
    ensures Bm25(env, corpus, terms)[i] > Bm25(env, corpus, terms)[j]
  {
    hide IsLogarithm, FoundBy, Bm25, Contribution, Part, Idf, AverageLength;
    OneTermScore(env, corpus, terms, i, term);
    OneTermScore(env, corpus, terms, j, term);
    ContributionIsPart(env, corpus, term, i);
    ContributionIsPart(env, corpus, term, j);
    MentioningAtMostAll(env, corpus, term);
    IdfPositive(env, |corpus|, |Mentioning(env, corpus, term)|);
    PartGrowsWithWeight(Idf(env, |corpus|, |Mentioning(env, corpus, term)|), TermWeight(env, corpus[i], term),
                        TermWeight(env, corpus[j], term), Length(env, corpus[i]) / AverageLength(env, corpus));
  }

  /** Of two claims found by the same term with equally many words in every field, the one that says it
      more often scores higher. */
  lemma OftenerScoresHigher(env: Env, corpus: ClaimMap, terms: seq<Text>, term: Text, i: Id, j: Id)
    requires IsLogarithm(env.log) && FoundBy(env, corpus, terms, i, term) && FoundBy(env, corpus, terms, j, term)
    requires WordsOf(env, corpus[i]) == WordsOf(env, corpus[j])
    requires MoreThan(OccurrencesOf(env, corpus[i], term), OccurrencesOf(env, corpus[j], term))
    ensures i in Bm25(env, corpus, terms) && j in Bm25(env, corpus, terms)
    ensures Bm25(env, corpus, terms)[i] > Bm25(env, corpus, terms)[j]
  {
    hide IsLogarithm, Says, OccurrencesOf, WordsOf, Bm25, TermWeight;
    WeightOfOccurrences(env, corpus[i], term);
    WeightOfOccurrences(env, corpus[j], term);
    HeavierScoresHigher(env, corpus, terms, term, i, j);
  }

  /** Of two claims found by the same term, each saying it once and with equally many words in every
      field, one that says it in the subject outscores one that says it in the object, and that one
      outscores one that says it in the predicate. */
  lemma BetterFieldScoresHigher(env: Env, corpus: ClaimMap, terms: seq<Text>, term: Text, i: Id, j: Id)
    requires IsLogarithm(env.log) && FoundBy(env, corpus, terms, i, term) && FoundBy(env, corpus, terms, j, term)
    requires WordsOf(env, corpus[i]) == WordsOf(env, corpus[j])
    requires var o, o' := OccurrencesOf(env, corpus[i], term), OccurrencesOf(env, corpus[j], term);
      || (o == Occurrences(1, 0, 0) && o' == Occurrences(0, 0, 1))
      || (o == Occurrences(0, 0, 1) && o' == Occurrences(0, 1, 0))
    ensures i in Bm25(env, corpus, terms) && j in Bm25(env, corpus, terms)
    ensures Bm25(env, corpus, terms)[i] > Bm25(env, corpus, terms)[j]
  {
    hide IsLogarithm, Says, OccurrencesOf, WordsOf, Bm25, TermWeight;
    WeightOfOccurrences(env, corpus[i], term);
    WeightOfOccurrences(env, corpus[j], term);
    HeavierScoresHigher(env, corpus, terms, term, i, j);
  }

  /** Of two claims found by the same term, which stands equally often in both, the one with fewer words
      scores higher. */
  lemma ShorterScoresHigher(env: Env, corpus: ClaimMap, terms: seq<Text>, term: Text, i: Id, j: Id)
    requires IsLogarithm(env.log) && FoundBy(env, corpus, terms, i, term) && FoundBy(env, corpus, terms, j, term)
    requires MoreThan(WordsOf(env, corpus[j]), WordsOf(env, corpus[i]))
    requires OccurrencesOf(env, corpus[i], term) == OccurrencesOf(env, corpus[j], term)
    ensures i in Bm25(env, corpus, terms) && j in Bm25(env, corpus, terms)
    ensures Bm25(env, corpus, terms)[i] > Bm25(env, corpus, terms)[j]
  {
    hide IsLogarithm, FoundBy, OccurrencesOf, Bm25, Contribution, Part, Idf, TermWeight, AverageLength;
    OneTermScore(env, corpus, terms, i, term);
    OneTermScore(env, corpus, terms, j, term);
    ContributionIsPart(env, corpus, term, i);
    ContributionIsPart(env, corpus, term, j);
    WeightOfOccurrences(env, corpus[i], term);
    WeightOfOccurrences(env, corpus[j], term);
    MentioningAtMostAll(env, corpus, term);
    IdfPositive(env, |corpus|, |Mentioning(env, corpus, term)|);
    MoreWordsLonger(env, corpus[j], corpus[i]);
    QuotientGrows(Length(env, corpus[i]), Length(env, corpus[j]), AverageLength(env, corpus));
    PartFallsWithLength(Idf(env, |corpus|, |Mentioning(env, corpus, term)|), TermWeight(env, corpus[i], term),
                        Length(env, corpus[i]) / AverageLength(env, corpus), Length(env, corpus[j]) / AverageLength(env, corpus));
  }

  lemma MoreWordsLonger(env: Env, c: Claim, d: Claim)
    requires MoreThan(WordsOf(env, c), WordsOf(env, d))
    ensures Length(env, c) > Length(env, d)
  {
  }

  lemma QuotientGrows(a: real, b: real, c: real)
    requires a < b && c > 0.0
    ensures a / c < b / c
  {
  }

  /** The average length is the mean: times the number of claims it is the sum of their lengths, and that
      sum is what one claim adds to the sum of the others. */
  lemma AverageIsMean(env: Env, corpus: ClaimMap, i: Id)
    requires i in corpus
    ensures AverageLength(env, corpus) * |corpus| as real == TotalLength(env, corpus)
    ensures TotalLength(env, corpus) == Length(env, corpus[i]) + TotalLength(env, corpus - {i}) && TotalLength(env, map[]) == 0.0
    ensures var w := WordsOf(env, corpus[i]);
      Length(env, corpus[i]) == 3.0 * w.subject as real + 1.0 * w.property as real + 2.0 * w.value as real
  {
    TotalLengthRemove(env, corpus, i);
    assert |corpus| > 0;
  }

  // ---- The two text channels together --------------------------------------------------

  /** A blend of both channels weighs the lexical score, in parts of the best one, against the similarity;
      a claim that one channel does not know scores nothing there. */
  lemma BlendWeighsBoth(lexical: Scores, vector: Scores, w: real, i: Id)
    requires 0.0 <= w <= 1.0 && vector != map[] && lexical != map[] && Best(lexical) > 0.0
    ensures i in Blend(lexical, vector, w) <==> i in lexical || i in vector
    ensures i in Blend(lexical, vector, w) ==>
      Blend(lexical, vector, w)[i] * Best(lexical)
      == w * (if i in lexical then lexical[i] else 0.0) + (1.0 - w) * (if i in vector then vector[i] else 0.0) * Best(lexical)
  {
    hide Mix;
    var best, lex := Best(lexical), Normalized(lexical);
    assert exists j :: j in lexical && j in lex;
    assert lex != map[];
    if i in lexical || i in vector {
      var a, b := ScoreOf(lex, i), ScoreOf(vector, i);
      assert a * best == if i in lexical then lexical[i] else 0.0;
      MixTimes(w, a, b, best);
    }
  }

  lemma MixTimes(w: real, a: real, b: real, best: real)
    ensures Mix(w, a, b) * best == w * (a * best) + (1.0 - w) * b * best
  {
  }

  /** A weight outside its range counts as the end it is beyond. */
  lemma BlendClampsWeight(lexical: Scores, vector: Scores, w: real)
    ensures w < 0.0 ==> Blend(lexical, vector, w) == Blend(lexical, vector, 0.0)
    ensures w > 1.0 ==> Blend(lexical, vector, w) == Blend(lexical, vector, 1.0)
  {
  }

  /** With one channel silent the other speaks alone: the lexical one in parts of its best score, the
      similarities as they are. */
  lemma BlendOfOne(lexical: Scores, vector: Scores, w: real)
    ensures vector == map[] && lexical != map[] && Best(lexical) > 0.0 ==>
      Blend(lexical, vector, w).Keys == lexical.Keys && forall i :: i in lexical ==> Blend(lexical, vector, w)[i] * Best(lexical) == lexical[i]
    ensures lexical == map[] || Best(lexical) <= 0.0 ==> Blend(lexical, vector, w) == vector
  {
  }

  /** The similarity channel knows the claims whose cosine, or zero if it is negative, reaches the floor. */
  lemma SimilarAboveFloor(corpus: ClaimMap, embed: Embedder, query: Text, floor: real, i: Id)
    ensures var scores := Similarity(corpus, Some(embed), query, floor);
      && (i in scores <==> i in corpus && (embed(query, corpus[i]) >= floor || 0.0 >= floor))
      && (i in scores ==> scores[i] >= embed(query, corpus[i]) && scores[i] >= 0.0
                          && (scores[i] == embed(query, corpus[i]) || scores[i] == 0.0))
  {
  }

  // ---- Direct matches ------------------------------------------------------------------

  /** The claim's subject names an entity asked for. */
  ghost predicate IsAbout(env: Env, c: Claim, entities: seq<Text>) {
    exists e :: e in entities && env.normalize(c.subject) == env.normalize(e)
  }

  /** A direct match is a kept claim about a named entity or with a text score. The one is worth 1, the
      other nine tenths of the score, and both together their sum; the channel says which it was. */
  lemma SeedMeans(env: Env, corpus: ClaimMap, req: Request, text: Scores, vectors: bool, i: Id)
    ensures var seeds := SeedHits(env, corpus, req, text, vectors);
      i in seeds <==> && i in corpus && (req.includeSuperseded || corpus[i].supersededBy.None?)
                      && (IsAbout(env, corpus[i], req.entities) || (i in text && text[i] > 0.0))
    ensures var seeds := SeedHits(env, corpus, req, text, vectors);
      i in seeds ==>
        var named, said := IsAbout(env, corpus[i], req.entities), i in text && text[i] > 0.0;
        && seeds[i].claim == corpus[i] && seeds[i].hops == 0 && seeds[i].via.None?
        && (named && !said ==> seeds[i].score == 1.0 && seeds[i].channel == Entity)
        && (!named && said ==> seeds[i].score == 0.9 * text[i] && seeds[i].channel == if vectors then Hybrid else Lexical)
        && (named && said ==>
              seeds[i].score == 1.0 + 0.9 * text[i] && seeds[i].channel == if vectors then EntityHybrid else EntityLexical)
  {
  }

  // ---- Through the graph ---------------------------------------------------------------

  /** A hit was reached through a claim that it shares a name with, and only such a hit is marked so. */
  ghost predicate ReachedByName(env: Env, corpus: ClaimMap, hits: Hits, i: Id)
    requires i in hits
  {
    && (hits[i].via.Some? <==> hits[i].channel == Graph)
    && (hits[i].via.Some? ==>
          && i in corpus && hits[i].via.value in corpus && hits[i].via.value != i
          && Joins(env, corpus[hits[i].via.value], corpus[i]))
  }

  ghost predicate AllReachedByName(env: Env, corpus: ClaimMap, hits: Hits) {
    forall i :: i in hits ==> ReachedByName(env, corpus, hits, i)
  }

  lemma OfferReachesByName(env: Env, corpus: ClaimMap, req: Request, hits: Hits, score: real, hop: nat, parent: Id)
    requires Keyed(corpus) && AllReachedByName(env, corpus, hits) && parent in corpus
    ensures AllReachedByName(env, corpus, Offer(corpus, req, hits, Neighbours(env, corpus, corpus[parent]), score, hop, parent))
  {
    hide Offer, Accepts;
    var offered := Neighbours(env, corpus, corpus[parent]);
    var r := Offer(corpus, req, hits, offered, score, hop, parent);
    forall i | i in r ensures ReachedByName(env, corpus, r, i) {
      if i in offered && Accepts(corpus, req, hits, i, score) {
        assert r[i] == ScoredClaim(corpus[i], score, hop, Some(parent), Graph);
      } else {
        assert ReachedByName(env, corpus, hits, i);
      }
    }
  }

  lemma {:induction false} HopReachesByName(env: Env, corpus: ClaimMap, req: Request, hits: Hits, hop: nat, frontier: seq<Id>)
    requires Keyed(corpus) && Explained(corpus, req, hits) && hop > 0 && forall i :: i in frontier ==> i in hits
    requires AllReachedByName(env, corpus, hits)
    ensures AllReachedByName(env, corpus, ExpandAll(env, corpus, req, hits, hop, frontier).hits)
  {
    hide Explained, Offer, Accepted, Neighbours, Decayed, AllReachedByName;
    if frontier != [] {
      var front, parent := frontier[..|frontier| - 1], frontier[|frontier| - 1];
      assert forall i :: i in front ==> i in frontier;
      assert parent in frontier;
      HopReachesByName(env, corpus, req, hits, hop, front);
      ExpandAllExplained(env, corpus, req, hits, hop, front);
      var e := ExpandAll(env, corpus, req, hits, hop, front);
      HitExplained(corpus, req, e.hits, parent);
      OfferReachesByName(env, corpus, req, e.hits, Decayed(e.hits[parent].score, req.hopDecay), hop, parent);
    }
  }

  lemma {:induction false} ExpandReachesByName(env: Env, corpus: ClaimMap, req: Request, hits: Hits, hop: nat, frontier: seq<Id>)
    requires Keyed(corpus) && Explained(corpus, req, hits) && hop > 0 && forall i :: i in frontier ==> i in hits
    requires AllReachedByName(env, corpus, hits)
    ensures AllReachedByName(env, corpus, Expand(env, corpus, req, hits, hop, frontier))
    decreases req.hops + 1 - hop
  {
    hide Explained, AllReachedByName, ExpandAll;
    if hop <= req.hops {
      HopReachesByName(env, corpus, req, hits, hop, frontier);
      ExpandAllExplained(env, corpus, req, hits, hop, frontier);
      PromotedAreHits(env, corpus, req, hits, hop, frontier);
      var e := ExpandAll(env, corpus, req, hits, hop, frontier);
      if e.promoted != map[] {
        ExpandReachesByName(env, corpus, req, e.hits, hop + 1, Top(env, corpus, req, e.promoted));
      }
    }
  }

  /** At the end each hit that has a via shares a name with it: one says of something what the other is
      about. */
  lemma GraphHitsShareNames(env: Env, corpus: ClaimMap, embedder: Option<Embedder>, req: Request, i: Id)
    requires Keyed(corpus) && i in FinalHits(env, corpus, embedder, req)
    ensures ReachedByName(env, corpus, FinalHits(env, corpus, embedder, req), i)
  {
    hide Explained, Expand, TextScores, Top;
    var text := TextScores(env, corpus, embedder, req);
    SeedsExplained(env, corpus, req, text, embedder.Some?);
    var seeds := SeedHits(env, corpus, req, text, embedder.Some?);
    assert AllReachedByName(env, corpus, seeds);
    ExpandReachesByName(env, corpus, req, seeds, 1, Top(env, corpus, req, HitScores(seeds)));
  }

  /** Nothing found before is lost, and it changes only to score higher. */
  ghost predicate OnlyRaised(before: Hits, after: Hits) {
    forall i :: i in before ==> i in after && (after[i] == before[i] || before[i].score < after[i].score)
  }

  lemma {:induction false} HopOnlyRaises(env: Env, corpus: ClaimMap, req: Request, hits: Hits, hop: nat, frontier: seq<Id>)
    requires forall i :: i in frontier ==> i in hits
    ensures OnlyRaised(hits, ExpandAll(env, corpus, req, hits, hop, frontier).hits)
  {
    hide Offer, Accepted, Neighbours, Decayed;
    if frontier != [] {
      var front, parent := frontier[..|frontier| - 1], frontier[|frontier| - 1];
      assert forall i :: i in front ==> i in frontier;
      assert parent in frontier;
      HopOnlyRaises(env, corpus, req, hits, hop, front);
    }
  }

  lemma {:induction false} ExpandOnlyRaises(env: Env, corpus: ClaimMap, req: Request, hits: Hits, hop: nat, frontier: seq<Id>)
    requires forall i :: i in frontier ==> i in hits
    ensures OnlyRaised(hits, Expand(env, corpus, req, hits, hop, frontier))
    decreases req.hops + 1 - hop
  {
    hide ExpandAll, OnlyRaised, Top;
    if hop > req.hops {
      RaisedTwice(hits, hits, hits);
    } else {
      HopOnlyRaises(env, corpus, req, hits, hop, frontier);
      PromotedAreHits(env, corpus, req, hits, hop, frontier);
      var e := ExpandAll(env, corpus, req, hits, hop, frontier);
      if e.promoted != map[] {
        ExpandOnlyRaises(env, corpus, req, e.hits, hop + 1, Top(env, corpus, req, e.promoted));
        RaisedTwice(hits, e.hits, Expand(env, corpus, req, hits, hop, frontier));
      }
    }
  }

  lemma RaisedTwice(a: Hits, b: Hits, c: Hits)
    ensures OnlyRaised(a, a) && (OnlyRaised(a, b) && OnlyRaised(b, c) ==> OnlyRaised(a, c))
  {
  }

  /** The claim is one that an expansion of `parent` must reach. */
  ghost predicate WithinReach(env: Env, corpus: ClaimMap, req: Request, parent: Id, i: Id) {
    && parent in corpus && i in corpus && i != parent && Joins(env, corpus[parent], corpus[i])
    && (req.includeSuperseded || corpus[i].supersededBy.None?)
  }

  lemma OfferReaches(env: Env, corpus: ClaimMap, req: Request, hits: Hits, score: real, hop: nat, parent: Id, i: Id)
    requires Keyed(corpus) && WithinReach(env, corpus, req, parent, i) && score > 0.0
    ensures var r := Offer(corpus, req, hits, Neighbours(env, corpus, corpus[parent]), score, hop, parent);
      i in r && r[i].score >= score
  {
  }

  lemma {:induction false} HopReaches(env: Env, corpus: ClaimMap, req: Request, hits: Hits, hop: nat, frontier: seq<Id>, parent: Id, i: Id)
    requires Keyed(corpus) && Explained(corpus, req, hits) && hop > 0 && forall j :: j in frontier ==> j in hits
    requires parent in frontier && req.hopDecay > 0.0 && WithinReach(env, corpus, req, parent, i)
    ensures var r := ExpandAll(env, corpus, req, hits, hop, frontier).hits;
      i in r && r[i].score >= req.hopDecay * hits[parent].score
  {
    hide Explained, Offer, Accepted, Neighbours, WithinReach, ExpandAll;
    var front, last := frontier[..|frontier| - 1], frontier[|frontier| - 1];
    assert forall j :: j in front ==> j in frontier;
    var e := ExpandAll(env, corpus, req, hits, hop, front);
    ExpandAllExplained(env, corpus, req, hits, hop, front);
    HitExplained(corpus, req, e.hits, last);
    LastExpanded(env, corpus, req, hits, hop, frontier);
    if parent in front {
      HopReaches(env, corpus, req, hits, hop, front, parent, i);
      OfferOnlyRaises(corpus, req, e.hits, Neighbours(env, corpus, corpus[last]),
                      Decayed(e.hits[last].score, req.hopDecay), hop, last, i);
    } else {
      HopOnlyRaises(env, corpus, req, hits, hop, front);
      ProductsOrdered(req.hopDecay, e.hits[parent].score, hits[parent].score);
      OfferReaches(env, corpus, req, e.hits, Decayed(e.hits[parent].score, req.hopDecay), hop, parent, i);
    }
  }

  lemma LastExpanded(env: Env, corpus: ClaimMap, req: Request, hits: Hits, hop: nat, frontier: seq<Id>)
    requires frontier != [] && forall j :: j in frontier ==> j in hits
    ensures var n := |frontier| - 1;
      && (forall j :: j in frontier[..n] ==> j in hits) && frontier[n] in hits
      && var e := ExpandAll(env, corpus, req, hits, hop, frontier[..n]);
         && frontier[n] in e.hits
         && ExpandAll(env, corpus, req, hits, hop, frontier).hits
            == Offer(corpus, req, e.hits, Neighbours(env, corpus, e.hits[frontier[n]].claim),
                     Decayed(e.hits[frontier[n]].score, req.hopDecay), hop, frontier[n])
  {
    hide Offer, Accepted, Neighbours, Decayed;
    assert frontier[|frontier| - 1] in frontier;
  }

  lemma ProductsOrdered(k: real, a: real, b: real)
    requires k > 0.0 && a >= b && a > 0.0
    ensures k * a >= k * b && a * k == k * a > 0.0
  {
    ProductPositive(k, a);
    assert k * (a - b) == k * a - k * b;
  }

  /** Whatever is expanded passes on its score: in the end every kept claim it shares a name with has at
      least its score decayed once. */
  lemma ExpansionReaches(env: Env, corpus: ClaimMap, req: Request, hits: Hits, hop: nat, frontier: seq<Id>, parent: Id, i: Id)
    requires Keyed(corpus) && Explained(corpus, req, hits) && 0 < hop <= req.hops && forall j :: j in frontier ==> j in hits
    requires parent in frontier && req.hopDecay > 0.0 && WithinReach(env, corpus, req, parent, i)
    ensures var r := Expand(env, corpus, req, hits, hop, frontier);
      i in r && r[i].score >= req.hopDecay * hits[parent].score
  {
    hide Explained, ExpandAll, WithinReach;
    HopReaches(env, corpus, req, hits, hop, frontier, parent, i);
    PromotedAreHits(env, corpus, req, hits, hop, frontier);
    var e := ExpandAll(env, corpus, req, hits, hop, frontier);
    if e.promoted != map[] {
      ExpandOnlyRaises(env, corpus, req, e.hits, hop + 1, Top(env, corpus, req, e.promoted));
    }
  }

  /** What a hop promotes is what it found or raised, at the score it then has. */
  ghost predicate Promotes(hits: Hits, e: Expansion) {
    && hits.Keys <= e.hits.Keys
    && forall i :: if i in e.hits && (i in hits ==> hits[i].score < e.hits[i].score)
                   then i in e.promoted && e.promoted[i] == e.hits[i].score
                   else i !in e.promoted && (i in e.hits ==> i in hits && e.hits[i] == hits[i])
  }

  lemma {:induction false} HopPromotes(env: Env, corpus: ClaimMap, req: Request, hits: Hits, hop: nat, frontier: seq<Id>)
    requires forall i :: i in frontier ==> i in hits
    ensures Promotes(hits, ExpandAll(env, corpus, req, hits, hop, frontier))
  {
    hide ExpandParent, Promotes;
    if frontier == [] {
      NothingPromoted(hits);
    } else {
      var front, parent := frontier[..|frontier| - 1], frontier[|frontier| - 1];
      assert forall i :: i in front ==> i in frontier;
      assert parent in frontier;
      HopPromotes(env, corpus, req, hits, hop, front);
      ParentPromotes(env, corpus, req, hits, ExpandAll(env, corpus, req, hits, hop, front), hop, parent);
    }
  }

  lemma NothingPromoted(hits: Hits)
    ensures Promotes(hits, Expansion(hits, map[]))
  {
  }

  lemma ParentPromotes(env: Env, corpus: ClaimMap, req: Request, hits: Hits, e: Expansion, hop: nat, parent: Id)
    requires parent in e.hits && Promotes(hits, e)
    ensures Promotes(hits, ExpandParent(env, corpus, req, e, hop, parent))
  {
    hide Neighbours, Decayed;
    var offered, score := Neighbours(env, corpus, e.hits[parent].claim), Decayed(e.hits[parent].score, req.hopDecay);
    var r := ExpandParent(env, corpus, req, e, hop, parent);
    forall i
      ensures if i in r.hits && (i in hits ==> hits[i].score < r.hits[i].score)
              then i in r.promoted && r.promoted[i] == r.hits[i].score
              else i !in r.promoted && (i in r.hits ==> i in hits && r.hits[i] == hits[i])
    {
      assert i in r.promoted <==> i in e.promoted || (i in offered && Accepts(corpus, req, e.hits, i, score));
    }
  }

  /** The strongest of what one hop promotes are expanded in the next. */
  lemma PromotedReach(env: Env, corpus: ClaimMap, req: Request, hits: Hits, hop: nat, frontier: seq<Id>, parent: Id, i: Id)
    requires Keyed(corpus) && Explained(corpus, req, hits) && 0 < hop < req.hops && forall j :: j in frontier ==> j in hits
    requires parent in Top(env, corpus, req, ExpandAll(env, corpus, req, hits, hop, frontier).promoted)
    requires req.hopDecay > 0.0 && WithinReach(env, corpus, req, parent, i)
    ensures var before, r := ExpandAll(env, corpus, req, hits, hop, frontier).hits, Expand(env, corpus, req, hits, hop, frontier);
      parent in before && i in r && r[i].score >= req.hopDecay * before[parent].score
  {
    hide Explained, ExpandAll, WithinReach, Top;
    var e := ExpandAll(env, corpus, req, hits, hop, frontier);
    PromotedAreHits(env, corpus, req, hits, hop, frontier);
    ExpandAllExplained(env, corpus, req, hits, hop, frontier);
    assert parent in e.promoted;
    ExpansionReaches(env, corpus, req, e.hits, hop + 1, Top(env, corpus, req, e.promoted), parent, i);
  }

  /** As many are expanded as the caller asked for claims, one at least; and none that is not would come
      before one that is. */
  lemma StrongestAreExpanded(env: Env, corpus: ClaimMap, req: Request, scores: Scores, p: nat, i: Id)
    requires Keyed(corpus) && scores.Keys <= corpus.Keys
    ensures var most := if req.maxClaims >= 1 then req.maxClaims else 1;
      |Top(env, corpus, req, scores)| == if |scores| <= most then |scores| else most
    ensures p < |Top(env, corpus, req, scores)| && i in scores && i !in Top(env, corpus, req, scores) ==>
      var j := Top(env, corpus, req, scores)[p];
      ListedBefore(env, ScoredClaim(corpus[j], scores[j], 0, None, Entity), ScoredClaim(corpus[i], scores[i], 0, None, Entity))
  {
    hide Ranking;
    var ids, top := Ranking(env, corpus, scores), Top(env, corpus, req, scores);
    if p < |top| && i in scores && i !in top {
      var q :| 0 <= q < |ids| && ids[q] == i;
      RankingSorted(env, corpus, scores, p, q);
    }
  }

  // ---- The list --------------------------------------------------------------------------

  /** `a` is listed before `b`: its rounded score is higher, or as high and its claim more recent, or as
      recent and its id no smaller. */
  ghost predicate ListedBefore(env: Env, a: ScoredClaim, b: ScoredClaim) {
    || env.round(a.score) > env.round(b.score)
    || (env.round(a.score) == env.round(b.score)
        && (a.claim.observedAt > b.claim.observedAt
            || (a.claim.observedAt == b.claim.observedAt && TextLe(b.claim.id, a.claim.id))))
  }

  /** The result lists hits in this order, */
  lemma ResultIsListed(env: Env, corpus: ClaimMap, embedder: Option<Embedder>, req: Request, p: nat, q: nat)
    requires Keyed(corpus) && p < q < |SearchResult(env, corpus, embedder, req)|
    ensures ListedBefore(env, SearchResult(env, corpus, embedder, req)[p], SearchResult(env, corpus, embedder, req)[q])
  {
    hide Ranking, FinalHits, SearchResult, Explained;
    var hits := FinalHits(env, corpus, embedder, req);
    FinalHitsExplained(env, corpus, embedder, req);
    HitsAreClaims(corpus, req, hits);
    ResultAt(env, corpus, embedder, req, p);
    ResultAt(env, corpus, embedder, req, q);
    var ids := Ranked(env, corpus, hits);
    HitExplained(corpus, req, hits, ids[p]);
    HitExplained(corpus, req, hits, ids[q]);
    RankingSorted(env, corpus, HitScores(hits), p, q);
  }

  /** and leaves out none that would come before one it has. A bound of `n` leaves at most `n`; a negative
      one takes as many off the end. */
  lemma ResultLeavesOutLast(env: Env, corpus: ClaimMap, embedder: Option<Embedder>, req: Request, p: nat, i: Id)
    requires Keyed(corpus) && p < |SearchResult(env, corpus, embedder, req)|
    requires i in FinalHits(env, corpus, embedder, req)
    requires forall k :: 0 <= k < |SearchResult(env, corpus, embedder, req)| ==> SearchResult(env, corpus, embedder, req)[k].claim.id != i
    ensures ListedBefore(env, SearchResult(env, corpus, embedder, req)[p], FinalHits(env, corpus, embedder, req)[i])
  {
    hide Ranking, FinalHits, SearchResult, Explained;
    var hits, result := FinalHits(env, corpus, embedder, req), SearchResult(env, corpus, embedder, req);
    FinalHitsExplained(env, corpus, embedder, req);
    HitsAreClaims(corpus, req, hits);
    var ids := Ranked(env, corpus, hits);
    assert i in ids;
    var q :| 0 <= q < |ids| && ids[q] == i;
    ResultAt(env, corpus, embedder, req, p);
    HitExplained(corpus, req, hits, ids[p]);
    HitExplained(corpus, req, hits, i);
    if q < |result| {
      ResultAt(env, corpus, embedder, req, q);
    }
    RankingSorted(env, corpus, HitScores(hits), p, q);
  }

  lemma ResultLength(env: Env, corpus: ClaimMap, embedder: Option<Embedder>, req: Request)
    requires corpus != map[] && (req.HasQuery() || req.entities != [])
    ensures var all, n := |FinalHits(env, corpus, embedder, req)|, |SearchResult(env, corpus, embedder, req)|;
      && (req.maxClaims >= all ==> n == all)
      && (0 <= req.maxClaims <= all ==> n == req.maxClaims)
      && (-all <= req.maxClaims < 0 ==> n == all + req.maxClaims)
      && (req.maxClaims < -all ==> n == 0)
  {
    hide FinalHits, Ranking;
    var hits := FinalHits(env, corpus, embedder, req);
    assert HitScores(hits).Keys == hits.Keys;
    assert |HitScores(hits).Keys| == |HitScores(hits)| && |hits.Keys| == |hits|;
  }

  /** Asked nothing, a search finds nothing. */
  lemma NothingAskedNothingFound(env: Env, corpus: ClaimMap, embedder: Option<Embedder>, req: Request)
    requires req.entities == [] && (req.query.None? || req.query.value.chars == "")
    ensures SearchResult(env, corpus, embedder, req) == []
  {
  }

  /** Of claims loaded under one id the first is kept, and every id loaded is known. */
  lemma {:induction false} FirstLoadedWins(claims: seq<Claim>, k: nat)
    requires k < |claims| && forall j :: 0 <= j < k ==> claims[j].id != claims[k].id
    ensures claims[k].id in FirstById(claims) && FirstById(claims)[claims[k].id] == claims[k]
  {
    var n := |claims| - 1;
    if k < n {
      FirstLoadedWins(claims[..n], k);
    }
  }
}
