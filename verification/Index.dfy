/** Building the searchable view of a corpus and scoring against it (grapharc/memory/index.py). */
module Index {
  import opened Seqs
  import opened Texts
  import opened Claims
  import opened Corpus

  type Postings = map<Text, map<Id, real>>
  type EntityLists = map<Text, seq<Id>>

  // ---- What the tables hold when `corpus` has been indexed -----------------------------

  function Weight(postings: Postings, term: Text, i: Id): real {
    if term in postings && i in postings[term] then postings[term][i] else 0.0
  }

  /** Only claims that mention the term are listed, and no list is empty. */
  ghost predicate Tidy(postings: Postings) {
    forall term :: term in postings ==> postings[term] != map[] && forall i :: i in postings[term] ==> postings[term][i] > 0.0
  }

  ghost predicate PostingsOk(env: Env, corpus: ClaimMap, postings: Postings) {
    && Tidy(postings)
    && forall term, i :: Weight(postings, term, i) == if i in corpus then TermWeight(env, corpus[i], term) else 0.0
  }

  ghost predicate LengthsOk(env: Env, corpus: ClaimMap, length: map<Id, real>) {
    length.Keys == corpus.Keys && forall i :: i in corpus ==> length[i] == Length(env, corpus[i])
  }

  function Listed(lists: EntityLists, name: Text): seq<Id> {
    if name in lists then lists[name] else []
  }

  ghost predicate ListsOk(corpus: ClaimMap, lists: EntityLists, name: Claim -> Text) {
    forall e :: Distinct(Listed(lists, e)) && forall i :: i in Listed(lists, e) <==> i in corpus && name(corpus[i]) == e
  }

  function SubjectName(env: Env): Claim -> Text { (c: Claim) => env.normalize(c.subject) }

  function ObjectName(env: Env): Claim -> Text { (c: Claim) => env.normalize(c.value) }

  /** One claim says of something what the other is about. */
  predicate Joins(env: Env, c: Claim, d: Claim) {
    env.normalize(d.subject) == env.normalize(c.value) || env.normalize(d.value) == env.normalize(c.subject)
  }

  /** The first claim loaded under an id is the one kept. */
  function FirstById(claims: seq<Claim>): (m: ClaimMap)
    ensures Keyed(m) && forall i :: i in m ==> m[i] in claims
    ensures forall c :: c in claims ==> c.id in m
  {
    if claims == [] then map[]
    else
      var rest := FirstById(claims[..|claims| - 1]);
      var last := claims[|claims| - 1];
      assert claims == claims[..|claims| - 1] + [last];
      if last.id in rest then rest else rest[last.id := last]
  }

  /** `order` lists every claim of `corpus` once. */
  ghost predicate Enumerates(order: seq<Id>, corpus: ClaimMap) {
    Distinct(order) && forall i :: i in order <==> i in corpus
  }

  // ---- One claim's entries -------------------------------------------------------------

  /** What `tokens` adds to the weight of `term`. */
  ghost function Gain(tokens: seq<Text>, term: Text, weight: real): real {
    if tokens == [] then 0.0
    else Gain(tokens[..|tokens| - 1], term, weight) + if tokens[|tokens| - 1] == term then weight else 0.0
  }

  lemma {:induction false} GainIsWeightedCount(tokens: seq<Text>, term: Text, weight: real)
    ensures Gain(tokens, term, weight) == weight * Count(tokens, term) as real
  {
    if tokens != [] {
      var n := Count(tokens[..|tokens| - 1], term);
      GainIsWeightedCount(tokens[..|tokens| - 1], term, weight);
      assert weight * (n + 1) as real == weight * n as real + weight;
    }
  }

  ghost function Raised(postings: Postings, i: Id, tokens: seq<Text>, weight: real, term: Text, j: Id): real {
    Weight(postings, term, j) + if j == i then Gain(tokens, term, weight) else 0.0
  }

  method AddTokens(postings0: Postings, i: Id, tokens: seq<Text>, weight: real) returns (postings: Postings)
    requires Tidy(postings0) && weight > 0.0
    ensures Tidy(postings)
    ensures forall term, j :: Weight(postings, term, j) == Raised(postings0, i, tokens, weight, term, j)
  {
    hide Tidy, Weight, Raised;
    postings := postings0;
    forall term, j ensures Weight(postings0, term, j) == Raised(postings0, i, tokens[..0], weight, term, j) {
      NothingRaised(postings0, i, tokens[..0], weight, term, j);
    }
    for k := 0 to |tokens|
      invariant Tidy(postings)
      invariant forall term, j :: Weight(postings, term, j) == Raised(postings0, i, tokens[..k], weight, term, j)
    {
      var token := tokens[k];
      var bucket := if token in postings then postings[token] else map[];
      TokenAdded(postings, i, token, weight);
      ghost var before := postings;
      postings := postings[token := bucket[i := (if i in bucket then bucket[i] else 0.0) + weight]];
      forall term, j ensures Weight(postings, term, j) == Raised(postings0, i, tokens[..k + 1], weight, term, j) {
        assert Weight(before, term, j) == Raised(postings0, i, tokens[..k], weight, term, j);
        RaisedOnce(postings0, i, tokens, k, weight, term, j);
      }
    }
    assert tokens[..|tokens|] == tokens;
  }

  lemma NothingRaised(postings: Postings, i: Id, tokens: seq<Text>, weight: real, term: Text, j: Id)
    requires tokens == []
    ensures Raised(postings, i, tokens, weight, term, j) == Weight(postings, term, j)
  {
  }

  lemma RaisedOnce(postings: Postings, i: Id, tokens: seq<Text>, k: nat, weight: real, term: Text, j: Id)
    requires k < |tokens|
    ensures Raised(postings, i, tokens[..k + 1], weight, term, j)
         == Raised(postings, i, tokens[..k], weight, term, j) + (if j == i && term == tokens[k] then weight else 0.0)
  {
    hide Weight;
    assert tokens[..k + 1][..k] == tokens[..k];
  }

  lemma TokenAdded(before: Postings, i: Id, token: Text, weight: real)
    requires Tidy(before) && weight > 0.0
    ensures var bucket := if token in before then before[token] else map[];
      var after := before[token := bucket[i := (if i in bucket then bucket[i] else 0.0) + weight]];
      && Tidy(after)
      && forall term, j :: Weight(after, term, j) == Weight(before, term, j) + (if j == i && term == token then weight else 0.0)
  {
    var bucket := if token in before then before[token] else map[];
    var after := before[token := bucket[i := (if i in bucket then bucket[i] else 0.0) + weight]];
    assert i in after[token];
  }

  function AddTo(lists: EntityLists, name: Text, i: Id): EntityLists {
    lists[name := Listed(lists, name) + [i]]
  }

  lemma AddToLists(corpus: ClaimMap, lists: EntityLists, name: Claim -> Text, c: Claim)
    requires ListsOk(corpus, lists, name) && c.id !in corpus
    ensures ListsOk(corpus[c.id := c], AddTo(lists, name(c), c.id), name)
  {
    var lists', corpus' := AddTo(lists, name(c), c.id), corpus[c.id := c];
    forall e
      ensures Distinct(Listed(lists', e)) && forall i :: i in Listed(lists', e) <==> i in corpus' && name(corpus'[i]) == e
    {
      assert Distinct(Listed(lists, e)) && c.id !in Listed(lists, e);
    }
  }

  lemma PostingsGrow(env: Env, corpus: ClaimMap, c: Claim, p0: Postings, p1: Postings, p2: Postings, p3: Postings)
    requires PostingsOk(env, corpus, p0) && c.id !in corpus && Tidy(p3)
    requires forall t, j :: Weight(p1, t, j) == Raised(p0, c.id, env.tokenize(c.subject), SUBJECT_WEIGHT, t, j)
    requires forall t, j :: Weight(p2, t, j) == Raised(p1, c.id, env.tokenize(c.property), PREDICATE_WEIGHT, t, j)
    requires forall t, j :: Weight(p3, t, j) == Raised(p2, c.id, env.tokenize(c.value), OBJECT_WEIGHT, t, j)
    ensures PostingsOk(env, corpus[c.id := c], p3)
  {
    hide Tidy, Weight, TermWeight;
    var corpus' := corpus[c.id := c];
    forall t, j ensures Weight(p3, t, j) == if j in corpus' then TermWeight(env, corpus'[j], t) else 0.0 {
      WeightGrows(env, corpus, c, p0, t, j, Weight(p1, t, j), Weight(p2, t, j), Weight(p3, t, j));
    }
  }

  lemma WeightGrows(env: Env, corpus: ClaimMap, c: Claim, p0: Postings, t: Text, j: Id, w1: real, w2: real, w3: real)
    requires c.id !in corpus && Weight(p0, t, j) == if j in corpus then TermWeight(env, corpus[j], t) else 0.0
    requires w1 == Raised(p0, c.id, env.tokenize(c.subject), SUBJECT_WEIGHT, t, j)
    requires w2 == w1 + if j == c.id then Gain(env.tokenize(c.property), t, PREDICATE_WEIGHT) else 0.0
    requires w3 == w2 + if j == c.id then Gain(env.tokenize(c.value), t, OBJECT_WEIGHT) else 0.0
    ensures var corpus' := corpus[c.id := c]; w3 == if j in corpus' then TermWeight(env, corpus'[j], t) else 0.0
  {
    GainIsWeightedCount(env.tokenize(c.subject), t, SUBJECT_WEIGHT);
    GainIsWeightedCount(env.tokenize(c.property), t, PREDICATE_WEIGHT);
    GainIsWeightedCount(env.tokenize(c.value), t, OBJECT_WEIGHT);
  }

  lemma PostingsTidy(env: Env, corpus: ClaimMap, postings: Postings)
    requires PostingsOk(env, corpus, postings)
    ensures Tidy(postings)
  {
  }

  lemma LengthsGrow(env: Env, corpus: ClaimMap, c: Claim, length: map<Id, real>)
    requires LengthsOk(env, corpus, length) && c.id !in corpus
    ensures LengthsOk(env, corpus[c.id := c], length[c.id := Length(env, c)])
  {
  }

  // ---- The index -----------------------------------------------------------------------

  class ClaimIndex {
    const env: Env
    var byId: ClaimMap
    var order: seq<Id>
    var postings: Postings
    var length: map<Id, real>
    var subjects: EntityLists
    var objects: EntityLists
    var avgdl: real

    /** The tables describe exactly the claims in `indexed`. */
    ghost predicate Describes(indexed: ClaimMap)
      reads this
    {
      && PostingsOk(env, indexed, postings)
      && LengthsOk(env, indexed, length)
      && ListsOk(indexed, subjects, SubjectName(env))
      && ListsOk(indexed, objects, ObjectName(env))
    }

    ghost predicate Valid()
      reads this
    {
      && Keyed(byId)
      && Enumerates(order, byId)
      && Describes(byId)
      && avgdl == AverageLength(env, byId)
    }

    constructor (env: Env, claims: seq<Claim>)
      ensures Valid() && this.env == env && byId == FirstById(claims)
    {
      this.env := env;
      byId, order := map[], [];
      postings, length, subjects, objects, avgdl := map[], map[], map[], map[], 0.0;
      new;
      Load(claims);
      IndexAll();
    }

    method Load(claims: seq<Claim>)
      requires byId == map[] && order == []
      modifies `byId, `order
      ensures byId == FirstById(claims) && Enumerates(order, byId)
    {
      for k := 0 to |claims|
        invariant byId == FirstById(claims[..k]) && Enumerates(order, byId)
      {
        assert claims[..k + 1][..k] == claims[..k];
        var claim := claims[k];
        if claim.id !in byId {
          byId := byId[claim.id := claim];
          order := order + [claim.id];
        }
      }
      assert claims[..|claims|] == claims;
    }

    method IndexAll()
      requires Keyed(byId) && Enumerates(order, byId)
      requires postings == map[] && length == map[] && subjects == map[] && objects == map[]
      modifies `postings, `length, `subjects, `objects, `avgdl
      ensures Valid()
    {
      hide PostingsOk, LengthsOk, ListsOk, Enumerates, IndexedSoFar;
      ghost var indexed: ClaimMap := map[];
      var total := 0.0;
      NothingIndexed(env, byId);
      assert order[..0] == [];
      for k := 0 to |order|
        invariant Describes(indexed) && total == TotalLength(env, indexed)
        invariant IndexedSoFar(byId, order[..k], indexed)
      {
        NextIsNew(byId, order, k, indexed);
        var claim := byId[order[k]];
        IndexOne(claim, indexed);
        TotalLengthAdd(env, indexed, claim.id, claim);
        indexed := indexed[claim.id := claim];
        LengthIndexed(env, indexed, length, claim);
        total := total + length[claim.id];
      }
      assert order[..|order|] == order;
      AllIndexed(byId, order, indexed);
      avgdl := if |order| > 0 then total / |order| as real else 0.0;
    }

    method IndexOne(claim: Claim, ghost indexed: ClaimMap)
      requires Describes(indexed) && claim.id !in indexed
      modifies `postings, `length, `subjects, `objects
      ensures Describes(indexed[claim.id := claim])
    {
      hide PostingsOk, LengthsOk, ListsOk;
      assert Tidy(postings) by { PostingsTidy(env, indexed, postings); }
      var subject, property, value := env.tokenize(claim.subject), env.tokenize(claim.property), env.tokenize(claim.value);
      var p1 := AddTokens(postings, claim.id, subject, SUBJECT_WEIGHT);
      var p2 := AddTokens(p1, claim.id, property, PREDICATE_WEIGHT);
      var p3 := AddTokens(p2, claim.id, value, OBJECT_WEIGHT);
      AddToLists(indexed, subjects, SubjectName(env), claim);
      AddToLists(indexed, objects, ObjectName(env), claim);
      PostingsGrow(env, indexed, claim, postings, p1, p2, p3);
      LengthsGrow(env, indexed, claim, length);
      postings := p3;
      length := length[claim.id := SUBJECT_WEIGHT * |subject| as real + PREDICATE_WEIGHT * |property| as real
                                   + OBJECT_WEIGHT * |value| as real];
      subjects := AddTo(subjects, env.normalize(claim.subject), claim.id);
      objects := AddTo(objects, env.normalize(claim.value), claim.id);
    }

    /** Okapi BM25F; claims are visited in an arbitrary order and the result does not depend on it. */
    method Bm25Scores(query: Text) returns (scores: map<Id, real>)
      requires Valid()
      ensures scores == Bm25(env, byId, env.tokenize(query))
    {
      hide PostingsOk, LengthsOk, ListsOk, AddTerm, Enumerates, Mentioning, AddTermFor;
      var terms := env.tokenize(query);
      scores := map[];
      if byId == map[] {
        EmptyCorpusScoresNothing(env, terms);
        return;
      }
      var seen: set<Text> := {};
      for k := 0 to |terms|
        invariant scores == Bm25(env, byId, terms[..k])
        invariant forall t :: t in seen <==> t in terms[..k]
      {
        var term := terms[k];
        assert terms[..k + 1][..k] == terms[..k] && terms[..k + 1] == terms[..k] + [term];
        if term in seen {
          continue;
        }
        seen := seen + {term};
        Mentions(env, byId, postings, term);
        if term !in postings {
          NothingToAdd(env, byId, scores, term);
          continue;
        }
        scores := AddTermScores(term, scores);
      }
      assert terms[..|terms|] == terms;
    }

    method AddTermScores(term: Text, scores0: map<Id, real>) returns (scores: map<Id, real>)
      requires Valid() && term in postings
      ensures scores == AddTerm(env, byId, scores0, term)
    {
      hide PostingsOk, LengthsOk, ListsOk, Enumerates, Share, AddTermFor, Mentioning, TermWeight, Length, AverageLength, Idf;
      var bucket := postings[term];
      Mentions(env, byId, postings, term);
      var n, df := |byId|, |bucket|;
      assert df == |bucket.Keys|;
      var idf := Idf(env, n, df);
      scores := scores0;
      var done: set<Id> := {};
      AddTermForNone(env, byId, scores0, term);
      while done != bucket.Keys
        invariant done <= bucket.Keys
        invariant scores == AddTermFor(env, byId, scores0, term, done)
        decreases bucket.Keys - done
      {
        var i :| i in bucket.Keys && i !in done;
        LengthKnown(env, byId, length, i);
        AverageLengthPositive(env, byId, term, i);
        AddTermForOneMore(env, byId, scores0, term, done, i);
        assert i in byId;
        var share := Share(idf, bucket[i], length[i], avgdl);
        scores := scores[i := ScoreOf(scores, i) + share];
        done := done + {i};
      }
    }

    method NeighbourList(claim: Claim) returns (out: seq<Id>)
      requires Valid()
      ensures Distinct(out) && forall i :: i in out <==> i in Neighbours(env, byId, claim)
      ensures forall i :: i in out <==> i in byId && i != claim.id && Joins(env, claim, byId[i])
    {
      ListsAreSets(env, byId, subjects, objects, claim);
      var candidates := Listed(subjects, env.normalize(claim.value)) + Listed(objects, env.normalize(claim.subject));
      out := Unique(candidates, claim.id);
    }
  }

  lemma Mentions(env: Env, corpus: ClaimMap, postings: Postings, term: Text)
    requires PostingsOk(env, corpus, postings)
    ensures term in postings ==> postings[term].Keys == Mentioning(env, corpus, term)
    ensures term in postings ==> forall i :: i in postings[term] ==>
      i in corpus && postings[term][i] == TermWeight(env, corpus[i], term) && postings[term][i] > 0.0
    ensures term !in postings ==> Mentioning(env, corpus, term) == {}
  {
    forall i ensures i in Mentioning(env, corpus, term) <==> Weight(postings, term, i) > 0.0 {
    }
  }

  lemma NothingToAdd(env: Env, corpus: ClaimMap, scores: map<Id, real>, term: Text)
    requires Mentioning(env, corpus, term) == {}
    ensures AddTerm(env, corpus, scores, term) == scores
  {
  }

  lemma {:induction false} EmptyCorpusScoresNothing(env: Env, terms: seq<Text>)
    ensures Bm25(env, map[], terms) == map[]
  {
    if terms != [] {
      EmptyCorpusScoresNothing(env, terms[..|terms| - 1]);
      NothingToAdd(env, map[], map[], terms[|terms| - 1]);
    }
  }

  lemma LengthKnown(env: Env, corpus: ClaimMap, length: map<Id, real>, i: Id)
    requires LengthsOk(env, corpus, length) && i in corpus
    ensures i in length && length[i] == Length(env, corpus[i])
  {
  }

  lemma ListsAreSets(env: Env, corpus: ClaimMap, subjects: EntityLists, objects: EntityLists, claim: Claim)
    requires ListsOk(corpus, subjects, SubjectName(env)) && ListsOk(corpus, objects, ObjectName(env))
    ensures var candidates := Listed(subjects, env.normalize(claim.value)) + Listed(objects, env.normalize(claim.subject));
      forall i :: i in candidates && i != claim.id <==> i in Neighbours(env, corpus, claim)
  {
  }

  ghost predicate IndexedSoFar(corpus: ClaimMap, ids: seq<Id>, indexed: ClaimMap) {
    && indexed.Keys <= corpus.Keys
    && forall i :: i in corpus ==> (i in indexed <==> i in ids) && (i in indexed ==> indexed[i] == corpus[i])
  }

  lemma NextIsNew(corpus: ClaimMap, ids: seq<Id>, k: nat, indexed: ClaimMap)
    requires Keyed(corpus) && Enumerates(ids, corpus) && k < |ids| && IndexedSoFar(corpus, ids[..k], indexed)
    ensures ids[k] in corpus && corpus[ids[k]].id !in indexed
    ensures IndexedSoFar(corpus, ids[..k + 1], indexed[ids[k] := corpus[ids[k]]])
  {
    assert ids[k] in ids && ids[..k + 1] == ids[..k] + [ids[k]];
  }

  lemma LengthIndexed(env: Env, indexed: ClaimMap, length: map<Id, real>, c: Claim)
    requires LengthsOk(env, indexed, length) && c.id in indexed && indexed[c.id] == c
    ensures c.id in length && length[c.id] == Length(env, c)
  {
  }

  lemma AllIndexed(corpus: ClaimMap, order: seq<Id>, indexed: ClaimMap)
    requires Enumerates(order, corpus) && IndexedSoFar(corpus, order, indexed)
    ensures indexed == corpus && |order| == |corpus| && (|order| > 0 <==> corpus != map[])
  {
    OrderCounts(order, corpus);
  }

  lemma NothingIndexed(env: Env, corpus: ClaimMap)
    ensures IndexedSoFar(corpus, [], map[])
    ensures PostingsOk(env, map[], map[]) && LengthsOk(env, map[], map[])
    ensures ListsOk(map[], map[], SubjectName(env)) && ListsOk(map[], map[], ObjectName(env))
    ensures TotalLength(env, map[]) == 0.0
  {
  }

  lemma {:induction false} OrderCounts(order: seq<Id>, corpus: ClaimMap)
    requires Enumerates(order, corpus)
    ensures |order| == |corpus|
  {
    if order == [] {
      assert corpus == map[];
    } else {
      var last := order[|order| - 1];
      assert order == order[..|order| - 1] + [last];
      OrderCounts(order[..|order| - 1], corpus - {last});
    }
  }
}
