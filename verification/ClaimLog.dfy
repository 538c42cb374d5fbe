/** The insertion-ordered log of claims that every store implements (grapharc/memory/store.py). */
module ClaimLog {
  import opened Options
  import opened Seqs
  import opened Sorting
  import opened Texts
  import opened Claims

  /** Claims in the order their ids were first stored. */
  type Log = seq<Claim>

  type Normalizer = Text -> Text

  datatype Refusal = UnknownClaim | AlreadySuperseded(superseder: Id) | SupersedesItself

  // ---- Writing -------------------------------------------------------------------------

  /** The position of the claim with this id, or the length of the log. */
  function Position(log: Log, i: Id): (p: nat)
    ensures p <= |log| && (p < |log| ==> log[p].id == i)
    ensures forall k :: 0 <= k < p ==> log[k].id != i
  {
    if log == [] then 0
    else if log[0].id == i then 0
    else 1 + Position(log[1..], i)
  }

  function Has(log: Log, i: Id): bool { Position(log, i) < |log| }

  function Get(log: Log, i: Id): Option<Claim> {
    var p := Position(log, i);
    if p < |log| then Some(log[p]) else None
  }

  /** A claim under a known id replaces the stored one in its place; a new one goes last. */
  function Put(log: Log, c: Claim): Log {
    var p := Position(log, c.id);
    if p < |log| then log[p := c] else log + [c]
  }

  /** The preconditions of `supersede`, in the order they are checked. */
  function Refuses(stored: Option<Claim>, oldId: Id, newId: Id): Option<Refusal> {
    if stored.None? then Some(UnknownClaim)
    else if stored.value.supersededBy.Some? then Some(AlreadySuperseded(stored.value.supersededBy.value))
    else if newId == oldId then Some(SupersedesItself)
    else None
  }

  function Marked(claim: Claim, superseder: Id, at: Time): Claim {
    claim.(supersededBy := Some(superseder), supersededAt := Some(at))
  }

  /** Store the correction, then mark what it corrects. */
  function Corrected(log: Log, oldId: Id, newClaim: Claim, at: Time): Log
    requires Refuses(Get(log, oldId), oldId, newClaim.id).None?
  {
    Put(Put(log, newClaim), Marked(Get(log, oldId).value, newClaim.id, at))
  }

  datatype Op = Add(claim: Claim) | Supersede(oldId: Id, newClaim: Claim)

  function Outcome(log: Log, op: Op): Option<Refusal> {
    match op
    case Add(_) => None
    case Supersede(oldId, c) => Refuses(Get(log, oldId), oldId, c.id)
  }

  /** What an operation leaves behind; a refused one changes nothing. `at` is the clock's answer. */
  function Step(log: Log, op: Op, at: Time): Log {
    if Outcome(log, op).Some? then log
    else match op
      case Add(c) => Put(log, c)
      case Supersede(oldId, c) => Corrected(log, oldId, c, at)
  }

  // ---- Reading -------------------------------------------------------------------------

  function IsCurrentAbout(norm: Normalizer, subject: Text, property: Option<Text>): Claim -> bool {
    (c: Claim) => c.IsCurrent() && norm(c.subject) == norm(subject)
                  && (property.None? || norm(c.property) == norm(property.value))
  }

  function HasKey(norm: Normalizer, subject: Text, property: Text): Claim -> bool {
    (c: Claim) => norm(c.subject) == norm(subject) && norm(c.property) == norm(property)
  }

  function IsDeadEndAbout(norm: Normalizer, subject: Text): Claim -> bool {
    (c: Claim) => !c.IsCurrent() && norm(c.subject) == norm(subject)
  }

  /** `current` where only an absent predicate means "any". */
  function Current(log: Log, norm: Normalizer, subject: Text, property: Option<Text>): seq<Claim> {
    Filter(IsCurrentAbout(norm, subject, property), log)
  }

  /** A predicate that is absent or the empty text is dropped. */
  function Truthy(property: Option<Text>): Option<Text> {
    if property.Some? && property.value.chars == "" then None else property
  }

  function OldestFirst(): (Claim, Claim) -> bool {
    (a: Claim, b: Claim) => a.observedAt <= b.observedAt
  }

  /** Every claim about a key by observation time; the log breaks ties. */
  function History(log: Log, norm: Normalizer, subject: Text, property: Text): seq<Claim> {
    Sort(OldestFirst(), Filter(HasKey(norm, subject, property), log))
  }

  function DeadEnds(log: Log, norm: Normalizer, subject: Text): seq<Claim> {
    Filter(IsDeadEndAbout(norm, subject), log)
  }

  // ---- What writing keeps --------------------------------------------------------------

  lemma PositionUnique(log: Log, k: nat)
    requires DistinctIds(log) && k < |log|
    ensures Position(log, log[k].id) == k
  {
  }

  lemma PutKeepsDistinct(log: Log, c: Claim)
    requires DistinctIds(log)
    ensures DistinctIds(Put(log, c))
  {
  }

  /** Nothing else is removed, changed or moved: append-only. */
  lemma PutChangesOneClaim(log: Log, c: Claim)
    ensures |log| <= |Put(log, c)|
    ensures forall k :: 0 <= k < |log| ==> Put(log, c)[k].id == log[k].id
    ensures forall k :: 0 <= k < |log| && log[k].id != c.id ==> Put(log, c)[k] == log[k]
  {
  }

  lemma GetPut(log: Log, c: Claim, i: Id)
    requires DistinctIds(log)
    ensures Get(Put(log, c), i) == if i == c.id then Some(c) else Get(log, i)
  {
    PutKeepsDistinct(log, c);
    var log' := Put(log, c);
    if i == c.id {
      PositionUnique(log', Position(log, c.id));
    } else if Has(log, i) {
      PositionUnique(log', Position(log, i));
    }
  }

  lemma PutHas(log: Log, c: Claim, i: Id)
    requires DistinctIds(log)
    ensures Has(Put(log, c), i) <==> i == c.id || Has(log, i)
  {
    GetPut(log, c, i);
  }

  lemma StepKeepsDistinct(log: Log, op: Op, at: Time)
    requires DistinctIds(log)
    ensures DistinctIds(Step(log, op, at))
  {
    if Outcome(log, op).None? {
      match op
      case Add(c) => PutKeepsDistinct(log, c);
      case Supersede(oldId, c) =>
        PutKeepsDistinct(log, c);
        PutKeepsDistinct(Put(log, c), Marked(Get(log, oldId).value, c.id, at));
    }
  }

  /** A correction keeps the corrected claim's content and provenance and only links it. */
  lemma CorrectionKeepsProvenance(log: Log, oldId: Id, newClaim: Claim, at: Time)
    requires DistinctIds(log) && Refuses(Get(log, oldId), oldId, newClaim.id).None?
    ensures var log' := Corrected(log, oldId, newClaim, at);
      && Get(log', newClaim.id) == Some(newClaim)
      && Get(log', oldId) == Some(Get(log, oldId).value.(supersededBy := Some(newClaim.id), supersededAt := Some(at)))
      && forall i :: i != oldId && i != newClaim.id ==> Get(log', i) == Get(log, i)
  {
    var log1, stored := Put(log, newClaim), Get(log, oldId).value;
    PutKeepsDistinct(log, newClaim);
    forall i ensures Get(Put(log1, Marked(stored, newClaim.id, at)), i)
                  == if i == oldId then Some(Marked(stored, newClaim.id, at)) else if i == newClaim.id then Some(newClaim) else Get(log, i) {
      GetPut(log, newClaim, i);
      GetPut(log1, Marked(stored, newClaim.id, at), i);
    }
  }

  /** Why a correction is refused: the claim is not stored, or it is already superseded, or it is to be
      replaced by itself. */
  ghost predicate RefusedFor(log: Log, oldId: Id, newId: Id, refused: Option<Refusal>) {
    && (refused == Some(UnknownClaim) <==> forall c :: c in log ==> c.id != oldId)
    && (forall s :: refused == Some(AlreadySuperseded(s)) <==> exists c :: c in log && c.id == oldId && c.supersededBy == Some(s))
    && (refused == Some(SupersedesItself) <==> newId == oldId && exists c :: c in log && c.id == oldId && c.supersededBy.None?)
  }

  lemma RefusalMeans(log: Log, oldId: Id, newClaim: Claim)
    requires DistinctIds(log)
    ensures RefusedFor(log, oldId, newClaim.id, Outcome(log, Supersede(oldId, newClaim)))
  {
    var p := Position(log, oldId);
    assert forall c :: c in log && c.id == oldId ==> p < |log| && c == log[p];
    assert p < |log| ==> log[p] in log;
  }

  // ---- What reading answers ------------------------------------------------------------

  ghost predicate InLogOrder(log: Log, claims: seq<Claim>) {
    forall i, j :: 0 <= i < j < |claims| ==> Position(log, claims[i].id) < Position(log, claims[j].id)
  }

  /** Exactly the claims about the subject, and the property if one is asked for, that nothing has
      superseded, in the order of the log. */
  ghost predicate AnswersCurrent(log: Log, norm: Normalizer, subject: Text, property: Option<Text>, claims: seq<Claim>) {
    && InLogOrder(log, claims)
    && forall c :: c in claims <==> c in log && c.supersededBy.None? && norm(c.subject) == norm(subject)
                                    && (property.None? || norm(c.property) == norm(property.value))
  }

  /** Exactly the claims about the subject and property, superseded or not: those observed earlier first,
      and of those observed together the one first stored first. */
  ghost predicate AnswersHistory(log: Log, norm: Normalizer, subject: Text, property: Text, claims: seq<Claim>) {
    && (forall i, j :: 0 <= i < j < |claims| ==>
          claims[i].observedAt < claims[j].observedAt
          || (claims[i].observedAt == claims[j].observedAt && Position(log, claims[i].id) < Position(log, claims[j].id)))
    && forall c :: c in claims <==> c in log && norm(c.subject) == norm(subject) && norm(c.property) == norm(property)
  }

  /** Exactly the superseded claims about the subject, in the order of the log. */
  ghost predicate AnswersDeadEnds(log: Log, norm: Normalizer, subject: Text, claims: seq<Claim>) {
    && InLogOrder(log, claims)
    && forall c :: c in claims <==> c in log && c.supersededBy.Some? && norm(c.subject) == norm(subject)
  }

  lemma AppendInLogOrder(log: Log, claims: seq<Claim>, last: Claim)
    requires InLogOrder(log, claims) && forall c :: c in claims ==> Position(log, c.id) < Position(log, last.id)
    ensures InLogOrder(log, claims + [last])
  {
    hide Position;
    assert forall i :: 0 <= i < |claims| ==> claims[i] in claims;
  }

  lemma {:induction false} FilterInLogOrder(log: Log, p: Claim -> bool, n: nat)
    requires DistinctIds(log) && n <= |log|
    ensures InLogOrder(log, Filter(p, log[..n]))
  {
    hide *;
    if n == 0 {
      NothingInLogOrder(log, p);
    } else {
      FilterInLogOrder(log, p, n - 1);
      NextInLogOrder(log, p, log[..n - 1], n - 1);
      assert log[..n] == log[..n - 1] + [log[n - 1]];
    }
  }

  lemma NothingInLogOrder(log: Log, p: Claim -> bool)
    ensures InLogOrder(log, Filter(p, log[..0]))
  {
    hide Position;
  }

  lemma NextInLogOrder(log: Log, p: Claim -> bool, front: seq<Claim>, n: nat)
    requires DistinctIds(log) && n < |log| && front == log[..n] && InLogOrder(log, Filter(p, front))
    ensures InLogOrder(log, Filter(p, front + [log[n]]))
  {
    hide *;
    EarlierInLog(log, n);
    FilterLast(p, front, log[n]);
    var found := Filter(p, front);
    assert forall c :: c in found ==> c in front;
    AppendInLogOrder(log, found, log[n]);
  }

  lemma EarlierInLog(log: Log, n: nat)
    requires DistinctIds(log) && n < |log|
    ensures forall c :: c in log[..n] ==> Position(log, c.id) < Position(log, log[n].id)
  {
    hide Position;
    PositionUnique(log, n);
    forall c | c in log[..n] ensures Position(log, c.id) < n {
      var k :| 0 <= k < n && log[k] == c;
      PositionUnique(log, k);
    }
  }

  lemma FoundInLogOrder(log: Log, p: Claim -> bool)
    requires DistinctIds(log)
    ensures InLogOrder(log, Filter(p, log))
  {
    assert log[..|log|] == log;
    FilterInLogOrder(log, p, |log|);
  }

  lemma CurrentIs(log: Log, norm: Normalizer, subject: Text, property: Option<Text>)
    ensures Current(log, norm, subject, property) == Filter(IsCurrentAbout(norm, subject, property), log)
  {
  }

  lemma CurrentMeans(log: Log, norm: Normalizer, subject: Text, property: Option<Text>, c: Claim)
    ensures c in Current(log, norm, subject, property)
       <==> c in log && c.supersededBy.None? && norm(c.subject) == norm(subject)
            && (property.None? || norm(c.property) == norm(property.value))
  {
    var p := IsCurrentAbout(norm, subject, property);
    assert c.IsCurrent() <==> c.supersededBy.None?;
    assert c in Current(log, norm, subject, property) <==> c in log && p(c);
  }

  lemma CurrentAnswers(log: Log, norm: Normalizer, subject: Text, property: Option<Text>)
    requires DistinctIds(log)
    ensures AnswersCurrent(log, norm, subject, property, Current(log, norm, subject, property))
  {
    hide InLogOrder, Current;
    FoundInLogOrder(log, IsCurrentAbout(norm, subject, property));
    CurrentIs(log, norm, subject, property);
    forall c ensures c in Current(log, norm, subject, property)
      <==> c in log && c.supersededBy.None? && norm(c.subject) == norm(subject)
           && (property.None? || norm(c.property) == norm(property.value))
    {
      CurrentMeans(log, norm, subject, property, c);
    }
  }

  lemma DeadEndsAnswer(log: Log, norm: Normalizer, subject: Text)
    requires DistinctIds(log)
    ensures AnswersDeadEnds(log, norm, subject, DeadEnds(log, norm, subject))
  {
    hide InLogOrder;
    var p := IsDeadEndAbout(norm, subject);
    FoundInLogOrder(log, p);
    forall c: Claim ensures p(c) <==> c.supersededBy.Some? && norm(c.subject) == norm(subject) {
      assert c.IsCurrent() <==> c.supersededBy.None?;
    }
  }

  function OldestThenStored(log: Log): (Claim, Claim) -> bool {
    (a: Claim, b: Claim) => a.observedAt < b.observedAt
                            || (a.observedAt == b.observedAt && Position(log, a.id) <= Position(log, b.id))
  }

  /** Sorting by time is sorting by time and place in the log. */
  lemma {:induction false} TiesAsStored(log: Log, claims: seq<Claim>)
    requires InLogOrder(log, claims)
    ensures Sort(OldestFirst(), claims) == Sort(OldestThenStored(log), claims)
  {
    if claims != [] {
      var front, last := claims[..|claims| - 1], claims[|claims| - 1];
      TiesAsStored(log, front);
      var sorted := Sort(OldestThenStored(log), front);
      forall c | c in sorted ensures OldestFirst()(c, last) == OldestThenStored(log)(c, last) {
        SortKeepsElements(OldestThenStored(log), front, c);
      }
      InsertCongruent(OldestFirst(), OldestThenStored(log), sorted, last);
    }
  }

  lemma HistoryAnswers(log: Log, norm: Normalizer, subject: Text, property: Text)
    requires DistinctIds(log)
    ensures AnswersHistory(log, norm, subject, property, History(log, norm, subject, property))
  {
    hide Position;
    var p := HasKey(norm, subject, property);
    var found, order := Filter(p, log), OldestThenStored(log);
    FoundInLogOrder(log, p);
    TiesAsStored(log, found);
    SortSorts(order, found);
    LogOrderIsDistinct(log, found);
    SortKeepsDistinct(order, found);
    var sorted := Sort(order, found);
    forall c ensures c in sorted <==> c in log && norm(c.subject) == norm(subject) && norm(c.property) == norm(property) {
      SortKeepsElements(order, found, c);
      assert p(c) <==> norm(c.subject) == norm(subject) && norm(c.property) == norm(property);
    }
    forall i, j | 0 <= i < j < |sorted| && Position(log, sorted[i].id) == Position(log, sorted[j].id) ensures false {
      assert sorted[i] in log && sorted[j] in log && sorted[i] != sorted[j];
      SamePlaceSameClaim(log, sorted[i], sorted[j]);
    }
  }

  lemma LogOrderIsDistinct(log: Log, claims: seq<Claim>)
    requires InLogOrder(log, claims)
    ensures Distinct(claims)
  {
  }

  lemma SamePlaceSameClaim(log: Log, a: Claim, b: Claim)
    requires DistinctIds(log) && a in log && b in log && Position(log, a.id) == Position(log, b.id)
    ensures a == b
  {
  }

  // ---- Where `current` disagrees -------------------------------------------------------

  /** The stores agree on `current` for every log and subject exactly when the predicate is absent or
      not empty: with an empty one, one store drops the filter and the others look for it. */
  lemma CurrentAgreesIff(norm: Normalizer, property: Option<Text>, other: Text)
    requires norm(other) != norm(Text(""))
    ensures (forall log, subject :: Current(log, norm, subject, Truthy(property)) == Current(log, norm, subject, property))
       <==> property != Some(Text(""))
  {
    if property == Some(Text("")) {
      var c := Claim(Text("c"), other, other, other, other, 0, None, 1.0, None, None);
      EmptyPredicateDisagrees(norm, c);
    } else if property.Some? {
      assert Text(property.value.chars) == property.value;
    }
  }

  lemma EmptyPredicateDisagrees(norm: Normalizer, c: Claim)
    requires c.IsCurrent() && norm(c.property) != norm(Text(""))
    ensures Current([c], norm, c.subject, Truthy(Some(Text("")))) != Current([c], norm, c.subject, Some(Text("")))
  {
    assert c in [c];
    assert c in Current([c], norm, c.subject, Truthy(Some(Text(""))));
    assert c !in Current([c], norm, c.subject, Some(Text("")));
  }
}
