/** The in-process store: a dictionary that remembers insertion order (grapharc/memory/store.py). */
module MemoryBackend {
  import opened Options
  import opened Texts
  import opened Claims
  import opened ClaimLog

  /** The dictionary and its key order hold the log. */
  ghost predicate Remembers(claims: map<Id, Claim>, order: seq<Id>, log: Log) {
    && DistinctIds(log)
    && |order| == |log|
    && (forall k :: 0 <= k < |log| ==> order[k] == log[k].id && order[k] in claims && claims[order[k]] == log[k])
    && (forall i :: i in claims ==> Has(log, i))
  }

  lemma Assigned(claims: map<Id, Claim>, order: seq<Id>, log: Log, c: Claim)
    requires Remembers(claims, order, log) && (c.id in claims <==> Has(log, c.id))
    ensures Remembers(claims[c.id := c], if c.id in claims then order else order + [c.id], Put(log, c))
  {
    hide Position;
    PutKeepsDistinct(log, c);
    StillHas(claims, log, c);
    var p, log' := Position(log, c.id), Put(log, c);
    var order' := if c.id in claims then order else order + [c.id];
    forall k | 0 <= k < |log'| ensures order'[k] == log'[k].id && claims[c.id := c][order'[k]] == log'[k] {
      if k != p {
        assert order[k] == log[k].id != c.id;
      }
    }
  }

  lemma StillHas(claims: map<Id, Claim>, log: Log, c: Claim)
    requires DistinctIds(log) && forall i :: i in claims ==> Has(log, i)
    ensures forall i :: i in claims[c.id := c] ==> Has(Put(log, c), i)
  {
    hide Has, Put;
    forall i | i in claims || i == c.id ensures Has(Put(log, c), i) {
      PutHas(log, c, i);
    }
  }

  class MemoryStore {
    const norm: Normalizer
    var claims: map<Id, Claim>
    var order: seq<Id>
    ghost var log: Log

    ghost predicate Valid()
      reads this
    {
      Remembers(claims, order, log)
    }

    constructor (norm: Normalizer)
      ensures Valid() && log == [] && this.norm == norm
    {
      this.norm, claims, order, log := norm, map[], [], [];
    }

    function Values(): (r: seq<Claim>)
      requires Valid()
      reads this
      ensures r == log
    {
      seq(|order|, k requires 0 <= k < |order| && Valid() reads this => claims[order[k]])
    }

    lemma Lookup(i: Id)
      requires Valid()
      ensures i in claims <==> Has(log, i)
      ensures i in claims ==> Get(log, i) == Some(claims[i])
    {
      if i in claims {
        assert order[Position(log, i)] == i;
      }
      if Has(log, i) {
        assert order[Position(log, i)] == i;
      }
    }

    /** Assign a dictionary entry: an existing key keeps its place, a new one goes last. */
    method Assign(c: Claim)
      requires Valid()
      modifies this
      ensures Valid() && log == Put(old(log), c)
    {
      Lookup(c.id);
      Assigned(claims, order, log, c);
      if c.id !in claims {
        order := order + [c.id];
      }
      claims := claims[c.id := c];
      log := Put(log, c);
    }

    method Add(claim: Claim)
      requires Valid()
      modifies this
      ensures Valid() && log == Step(old(log), Op.Add(claim), 0)
    {
      Assign(claim);
    }

    method Find(i: Id) returns (c: Option<Claim>)
      requires Valid()
      ensures c == Get(log, i)
    {
      Lookup(i);
      c := if i in claims then Some(claims[i]) else None;
    }

    method Supersede(oldId: Id, newClaim: Claim, at: Time) returns (refused: Option<Refusal>)
      requires Valid()
      modifies this
      ensures Valid() && log == Step(old(log), Op.Supersede(oldId, newClaim), at)
      ensures refused == Outcome(old(log), Op.Supersede(oldId, newClaim))
      ensures RefusedFor(old(log), oldId, newClaim.id, refused)
    {
      RefusalMeans(log, oldId, newClaim);
      var stored := Find(oldId);
      refused := Refuses(stored, oldId, newClaim.id);
      if refused.None? {
        Assign(newClaim);
        Assign(Marked(stored.value, newClaim.id, at));
      }
    }

    method CurrentClaims(subject: Text, property: Option<Text>) returns (r: seq<Claim>)
      requires Valid()
      ensures r == Current(log, norm, subject, Truthy(property))
      ensures AnswersCurrent(log, norm, subject, if property == Some(Text("")) then None else property, r)
    {
      var wanted := if property.Some? && property.value.chars != "" then property else None;
      assert wanted == Truthy(property);
      r := Current(Values(), norm, subject, wanted);
      CurrentAnswers(log, norm, subject, wanted);
    }

    method HistoryOf(subject: Text, property: Text) returns (r: seq<Claim>)
      requires Valid()
      ensures r == History(log, norm, subject, property) && AnswersHistory(log, norm, subject, property, r)
    {
      r := History(Values(), norm, subject, property);
      HistoryAnswers(log, norm, subject, property);
    }

    method DeadEndsOf(subject: Text) returns (r: seq<Claim>)
      requires Valid()
      ensures r == DeadEnds(log, norm, subject) && AnswersDeadEnds(log, norm, subject, r)
    {
      r := DeadEnds(Values(), norm, subject);
      DeadEndsAnswer(log, norm, subject);
    }

    method AllClaims() returns (r: seq<Claim>)
      requires Valid()
      ensures r == log
    {
      r := Values();
    }
  }
}
