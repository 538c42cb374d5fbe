/** Rows stamped in insertion order, and what ordered queries over them return. */
module Tables {
  import opened Options
  import opened Seqs
  import opened Sorting
  import opened Texts
  import opened Claims
  import opened ClaimLog

  /** A stored claim, its lookup columns, and the stamp that orders it: a rowid or a sequence number. */
  datatype Row = Row(claim: Claim, subjectNorm: Text, propertyNorm: Text, stamp: nat)

  function RowFor(norm: Normalizer, c: Claim, stamp: nat): Row {
    Row(c, norm(c.subject), norm(c.property), stamp)
  }

  function ClaimsOf(rows: seq<Row>): (r: seq<Claim>)
    ensures |r| == |rows|
  {
    seq(|rows|, k requires 0 <= k < |rows| => rows[k].claim)
  }

  ghost predicate Increasing(rows: seq<Row>) {
    forall i, j :: 0 <= i < j < |rows| ==> rows[i].stamp < rows[j].stamp
  }

  ghost predicate Normed(norm: Normalizer, rows: seq<Row>) {
    forall r :: r in rows ==> r.subjectNorm == norm(r.claim.subject) && r.propertyNorm == norm(r.claim.property)
  }

  /** The rows hold the log: same claims, in stamp order, with their lookup columns. */
  ghost predicate Holds(norm: Normalizer, rows: seq<Row>, log: Log) {
    ClaimsOf(rows) == log && Increasing(rows) && Normed(norm, rows)
  }

  function ByStamp(): (Row, Row) -> bool { (a: Row, b: Row) => a.stamp <= b.stamp }

  function ByTimeThenStamp(): (Row, Row) -> bool {
    (a: Row, b: Row) => a.claim.observedAt < b.claim.observedAt
                        || (a.claim.observedAt == b.claim.observedAt && a.stamp <= b.stamp)
  }

  // ---- Filtering commutes with forgetting the columns ----------------------------------

  lemma {:induction false} FilterClaims(rows: seq<Row>, p: Row -> bool, q: Claim -> bool)
    requires forall r :: r in rows ==> p(r) == q(r.claim)
    ensures ClaimsOf(Filter(p, rows)) == Filter(q, ClaimsOf(rows))
  {
    if rows != [] {
      var front := rows[..|rows| - 1];
      SplitLast(rows);
      assert ClaimsOf(rows)[..|rows| - 1] == ClaimsOf(front);
      FilterClaims(front, p, q);
    }
  }

  lemma {:induction false} FilterIncreasing(rows: seq<Row>, p: Row -> bool)
    requires Increasing(rows)
    ensures Increasing(Filter(p, rows))
  {
    if rows != [] {
      var front := rows[..|rows| - 1];
      FilterIncreasing(front, p);
      forall r | r in Filter(p, front) ensures r.stamp < rows[|rows| - 1].stamp {
        assert r in front;
      }
    }
  }

  // ---- Ordered by stamp ----------------------------------------------------------------

  lemma {:induction false} AlreadySorted(rows: seq<Row>)
    requires Increasing(rows)
    ensures Sort(ByStamp(), rows) == rows
  {
    if rows != [] {
      AlreadySorted(rows[..|rows| - 1]);
      assert rows == rows[..|rows| - 1] + [rows[|rows| - 1]];
    }
  }

  // ---- Ordered by time, then stamp -----------------------------------------------------

  lemma {:induction false} InsertByTime(rows: seq<Row>, r: Row)
    requires forall x :: x in rows ==> x.stamp < r.stamp
    ensures ClaimsOf(Insert(ByTimeThenStamp(), rows, r)) == Insert(OldestFirst(), ClaimsOf(rows), r.claim)
  {
    if rows != [] {
      var front, last := rows[..|rows| - 1], rows[|rows| - 1];
      assert last in rows && ClaimsOf(rows)[..|rows| - 1] == ClaimsOf(front);
      assert ClaimsOf(rows)[|rows| - 1] == last.claim;
      InsertByTime(front, r);
      assert ByTimeThenStamp()(last, r) == OldestFirst()(last.claim, r.claim);
    }
  }

  /** Ordering by time with the stamp as tie-break is the stable sort by time. */
  lemma {:induction false} SortByTime(rows: seq<Row>)
    requires Increasing(rows)
    ensures ClaimsOf(Sort(ByTimeThenStamp(), rows)) == Sort(OldestFirst(), ClaimsOf(rows))
  {
    if rows != [] {
      var front, last := rows[..|rows| - 1], rows[|rows| - 1];
      assert ClaimsOf(rows)[..|rows| - 1] == ClaimsOf(front);
      SortByTime(front);
      forall x | x in Sort(ByTimeThenStamp(), front) ensures x.stamp < last.stamp {
        SortKeepsElements(ByTimeThenStamp(), front, x);
      }
      InsertByTime(Sort(ByTimeThenStamp(), front), last);
    }
  }

  // ---- Rows in any order ---------------------------------------------------------------

  lemma OrdersAreTotal()
    ensures TotalPreorder(ByStamp()) && TotalPreorder(ByTimeThenStamp())
  {
  }

  /** Fetched in any order, the matching rows of a held log sort to the same answer. */
  lemma FetchedInAnyOrder(rows: seq<Row>, fetched: seq<Row>)
    requires Increasing(rows) && multiset(fetched) == multiset(rows)
    ensures Sort(ByStamp(), fetched) == rows
    ensures Sort(ByTimeThenStamp(), fetched) == Sort(ByTimeThenStamp(), rows)
  {
    OrdersAreTotal();
    SameElements(fetched, rows);
    forall x, y | x in fetched && y in fetched && x.stamp == y.stamp ensures x == y {
      assert x in rows && y in rows;
    }
    SortIgnoresOrder(ByStamp(), fetched, rows);
    SortIgnoresOrder(ByTimeThenStamp(), fetched, rows);
    AlreadySorted(rows);
  }

  // ---- Writing a row -------------------------------------------------------------------

  lemma HoldsReplaced(norm: Normalizer, rows: seq<Row>, log: Log, p: nat, c: Claim)
    requires Holds(norm, rows, log) && p < |rows|
    ensures Holds(norm, rows[p := RowFor(norm, c, rows[p].stamp)], log[p := c])
  {
    var rows' := rows[p := RowFor(norm, c, rows[p].stamp)];
    assert ClaimsOf(rows') == log[p := c];
    forall r | r in rows' ensures r.subjectNorm == norm(r.claim.subject) && r.propertyNorm == norm(r.claim.property) {
      assert r in rows || r == rows'[p];
    }
  }

  lemma HoldsAppended(norm: Normalizer, rows: seq<Row>, log: Log, c: Claim, stamp: nat)
    requires Holds(norm, rows, log) && forall r :: r in rows ==> r.stamp < stamp
    ensures Holds(norm, rows + [RowFor(norm, c, stamp)], log + [c])
  {
    assert ClaimsOf(rows + [RowFor(norm, c, stamp)]) == log + [c];
  }

  // ---- The queries the stores ask ------------------------------------------------------

  function AskCurrent(norm: Normalizer, subject: Text, property: Option<Text>): Row -> bool {
    (r: Row) => r.claim.supersededBy.None? && r.subjectNorm == norm(subject)
                && (property.None? || r.propertyNorm == norm(property.value))
  }

  function AskKey(norm: Normalizer, subject: Text, property: Text): Row -> bool {
    (r: Row) => r.subjectNorm == norm(subject) && r.propertyNorm == norm(property)
  }

  function AskDeadEnds(norm: Normalizer, subject: Text): Row -> bool {
    (r: Row) => r.claim.supersededBy.Some? && r.subjectNorm == norm(subject)
  }

  /** Matching on the stored columns finds what matching on the claims would. */
  lemma AnswersAgree(norm: Normalizer, rows: seq<Row>, log: Log, subject: Text, property: Option<Text>)
    requires Holds(norm, rows, log)
    ensures ClaimsOf(Filter(AskCurrent(norm, subject, property), rows)) == Current(log, norm, subject, property)
    ensures ClaimsOf(Filter(AskDeadEnds(norm, subject), rows)) == DeadEnds(log, norm, subject)
    ensures property.Some? ==>
      ClaimsOf(Sort(ByTimeThenStamp(), Filter(AskKey(norm, subject, property.value), rows)))
      == History(log, norm, subject, property.value)
  {
    FilterClaims(rows, AskCurrent(norm, subject, property), IsCurrentAbout(norm, subject, property));
    FilterClaims(rows, AskDeadEnds(norm, subject), IsDeadEndAbout(norm, subject));
    if property.Some? {
      FilterIncreasing(rows, AskKey(norm, subject, property.value));
      SortByTime(Filter(AskKey(norm, subject, property.value), rows));
      FilterClaims(rows, AskKey(norm, subject, property.value), HasKey(norm, subject, property.value));
    }
  }
}
