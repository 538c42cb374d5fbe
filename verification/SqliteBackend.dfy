/** The SQLite store: a table of rows with an upsert on the id (grapharc/memory/sqlite_store.py). */
module SqliteBackend {
  import opened Options
  import opened Seqs
  import opened Sorting
  import opened Texts
  import opened Claims
  import opened ClaimLog
  import opened Tables

  class SqliteStore {
    const norm: Normalizer
    var rows: seq<Row>
    ghost var log: Log

    ghost predicate Valid()
      reads this
    {
      DistinctIds(log) && Holds(norm, rows, log)
    }

    constructor (norm: Normalizer)
      ensures Valid() && log == [] && this.norm == norm
    {
      this.norm, rows, log := norm, [], [];
    }

    /** The row with this primary key. */
    method FindRow(i: Id) returns (p: nat)
      requires Valid()
      ensures p == Position(log, i)
    {
      assert rows[0..] == rows;
      p := 0;
      while p < |rows|
        invariant p <= |rows| && Position(log, i) == p + Position(log[p..], i)
      {
        assert ClaimsOf(rows)[p] == log[p];
        if rows[p].claim.id == i {
          return;
        }
        assert log[p..][1..] == log[p + 1..];
        p := p + 1;
      }
    }

    /** A new row takes a rowid above all others; an existing one is updated where it stands. */
    method Upsert(c: Claim)
      requires Valid()
      modifies this
      ensures Valid() && log == Put(old(log), c)
    {
      var p := FindRow(c.id);
      PutKeepsDistinct(log, c);
      if p < |rows| {
        HoldsReplaced(norm, rows, log, p, c);
        rows := rows[p := RowFor(norm, c, rows[p].stamp)];
      } else {
        var rowid := if |rows| > 0 then rows[|rows| - 1].stamp + 1 else 1;
        forall r | r in rows ensures r.stamp < rowid {
          var k :| 0 <= k < |rows| && rows[k] == r;
          assert k < |rows| - 1 ==> rows[k].stamp < rows[|rows| - 1].stamp;
        }
        HoldsAppended(norm, rows, log, c, rowid);
        rows := rows + [RowFor(norm, c, rowid)];
      }
      log := Put(log, c);
    }

    method Add(claim: Claim)
      requires Valid()
      modifies this
      ensures Valid() && log == Step(old(log), Op.Add(claim), 0)
    {
      Upsert(claim);
    }

    method Find(i: Id) returns (c: Option<Claim>)
      requires Valid()
      ensures c == Get(log, i)
    {
      var p := FindRow(i);
      assert p < |rows| ==> ClaimsOf(rows)[p] == log[p];
      c := if p < |rows| then Some(rows[p].claim) else None;
    }

    /** One immediate transaction: the checks, the upsert of the correction, the update of the old row. */
    method Supersede(oldId: Id, newClaim: Claim, at: Time) returns (refused: Option<Refusal>)
      requires Valid()
      modifies this
      ensures Valid() && log == Step(old(log), Op.Supersede(oldId, newClaim), at)
      ensures refused == Outcome(old(log), Op.Supersede(oldId, newClaim))
      ensures RefusedFor(old(log), oldId, newClaim.id, refused)
    {
      hide RefusedFor;
      RefusalMeans(log, oldId, newClaim);
      var stored := Find(oldId);
      refused := Refuses(stored, oldId, newClaim.id);
      if refused.None? {
        GetPut(log, newClaim, oldId);
        Upsert(newClaim);
        var p := FindRow(oldId);
        assert ClaimsOf(rows)[p] == log[p] == stored.value;
        var marked := Marked(rows[p].claim, newClaim.id, at);
        assert rows[p] in rows;
        HoldsReplaced(norm, rows, log, p, marked);
        PutKeepsDistinct(log, marked);
        rows := rows[p := rows[p].(claim := marked)];
        log := Put(log, marked);
      }
    }

    method CurrentClaims(subject: Text, property: Option<Text>) returns (r: seq<Claim>)
      requires Valid()
      ensures r == Current(log, norm, subject, property) && AnswersCurrent(log, norm, subject, property, r)
    {
      hide AnswersCurrent;
      CurrentAnswers(log, norm, subject, property);
      var found := Filter(AskCurrent(norm, subject, property), rows);
      r := ClaimsOf(Sort(ByStamp(), found));
      FilterIncreasing(rows, AskCurrent(norm, subject, property));
      AlreadySorted(found);
      AnswersAgree(norm, rows, log, subject, property);
    }

    method HistoryOf(subject: Text, property: Text) returns (r: seq<Claim>)
      requires Valid()
      ensures r == History(log, norm, subject, property) && AnswersHistory(log, norm, subject, property, r)
    {
      hide AnswersHistory;
      HistoryAnswers(log, norm, subject, property);
      r := ClaimsOf(Sort(ByTimeThenStamp(), Filter(AskKey(norm, subject, property), rows)));
      AnswersAgree(norm, rows, log, subject, Some(property));
    }

    method DeadEndsOf(subject: Text) returns (r: seq<Claim>)
      requires Valid()
      ensures r == DeadEnds(log, norm, subject) && AnswersDeadEnds(log, norm, subject, r)
    {
      hide AnswersDeadEnds;
      DeadEndsAnswer(log, norm, subject);
      var found := Filter(AskDeadEnds(norm, subject), rows);
      r := ClaimsOf(Sort(ByStamp(), found));
      FilterIncreasing(rows, AskDeadEnds(norm, subject));
      AlreadySorted(found);
      AnswersAgree(norm, rows, log, subject, None);
    }

    method AllClaims() returns (r: seq<Claim>)
      requires Valid()
      ensures r == log
    {
      r := ClaimsOf(Sort(ByStamp(), rows));
      AlreadySorted(rows);
    }
  }
}
