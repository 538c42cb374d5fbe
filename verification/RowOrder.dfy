/** Order inside the ranks: barycenter sweeps over the rows (grapharc/observe/layout.py). */
module RowOrder {
  import opened Digraph
  import opened Ranking
  import opened Seqs
  import opened Sorting

  type Rows = seq<seq<Id>>

  const ORDER_SWEEPS: nat := 3

  // ---- What a sweep does to the rows ---------------------------------------------------

  /** The index of each name in `row`. */
  function Positions(row: seq<Id>): map<Id, nat> {
    if row == [] then map[] else Positions(row[..|row| - 1])[row[|row| - 1] := |row| - 1]
  }

  /** The positions of those of `names` that are in the adjacent row, repeated as often as named. */
  function Anchors(position: map<Id, nat>, names: seq<Id>): seq<nat> {
    if names == [] then []
    else
      var rest := Anchors(position, names[..|names| - 1]);
      var last := names[|names| - 1];
      if last in position then rest + [position[last]] else rest
  }

  function Sum(xs: seq<nat>): nat {
    if xs == [] then 0 else Sum(xs[..|xs| - 1]) + xs[|xs| - 1]
  }

  /** Where a name wants to be: the mean position of its neighbours, or where it is. */
  function Barycenter(anchors: seq<nat>, index: nat): real {
    if anchors == [] then index as real else Sum(anchors) as real / |anchors| as real
  }

  /** The sources of the edges into `v`, one for each edge, in edge order. */
  function Above(edges: seq<Arrow>, v: Id): seq<Id> {
    if edges == [] then []
    else
      var e := edges[|edges| - 1];
      Above(edges[..|edges| - 1], v) + if e.target == v then [e.source] else []
  }

  datatype Direction = Up | Down

  function Neighbours(edges: seq<Arrow>, toward: Direction, v: Id): seq<Id> {
    match toward
    case Up => Above(edges, v)
    case Down => Below(edges, v)
  }

  function SortKey(edges: seq<Arrow>, toward: Direction, adjacent: seq<Id>, row: seq<Id>, v: Id): real {
    Barycenter(Anchors(Positions(adjacent), Neighbours(edges, toward, v)),
               if v in Positions(row) then Positions(row)[v] else 0)
  }

  function KeyOrder(edges: seq<Arrow>, toward: Direction, adjacent: seq<Id>, row: seq<Id>): (Id, Id) -> bool {
    (a, b) => SortKey(edges, toward, adjacent, row, a) <= SortKey(edges, toward, adjacent, row, b)
  }

  function SortRow(edges: seq<Arrow>, toward: Direction, adjacent: seq<Id>, row: seq<Id>): seq<Id> {
    Sort(KeyOrder(edges, toward, adjacent, row), row)
  }

  /** Each row but the first is sorted against the row above it, top to bottom. */
  function SweepDown(edges: seq<Arrow>, rows: Rows): (swept: Rows)
    ensures |swept| == |rows|
  {
    if |rows| < 2 then rows
    else
      var upper := SweepDown(edges, rows[..|rows| - 1]);
      upper + [SortRow(edges, Up, upper[|rows| - 2], rows[|rows| - 1])]
  }

  /** Each row but the last is sorted against the row below it, bottom to top. */
  function SweepUp(edges: seq<Arrow>, rows: Rows): (swept: Rows)
    ensures |swept| == |rows|
  {
    if |rows| < 2 then rows
    else
      var lower := SweepUp(edges, rows[1..]);
      [SortRow(edges, Down, lower[0], rows[0])] + lower
  }

  function RowOf(ids: seq<Id>, rank: map<Id, nat>, k: nat): seq<Id> {
    Filter(v => v in rank && rank[v] == k, ids)
  }

  function RankRows(ids: seq<Id>, rank: map<Id, nat>, count: nat): Rows {
    seq(count, k requires 0 <= k < count => RowOf(ids, rank, k))
  }

  function Ordered(edges: seq<Arrow>, rows: Rows): Rows {
    SweepDown(edges, SweepUp(edges, SweepDown(edges, rows)))
  }

  // ---- What the sweeps keep and what they reach ----------------------------------------

  ghost predicate SameRows(rows: Rows, rows': Rows) {
    |rows| == |rows'| && forall k :: 0 <= k < |rows| ==> multiset(rows[k]) == multiset(rows'[k])
  }

  lemma {:induction false} SweepDownKeepsRows(edges: seq<Arrow>, rows: Rows)
    ensures SameRows(rows, SweepDown(edges, rows))
  {
    if |rows| >= 2 {
      var n := |rows| - 1;
      SweepDownKeepsRows(edges, rows[..n]);
      SortPermutes(KeyOrder(edges, Up, SweepDown(edges, rows[..n])[n - 1], rows[n]), rows[n]);
      forall k | 0 <= k < |rows| ensures multiset(rows[k]) == multiset(SweepDown(edges, rows)[k]) {
        assert k < n ==> rows[..n][k] == rows[k];
      }
    }
  }

  lemma {:induction false} SweepUpKeepsRows(edges: seq<Arrow>, rows: Rows)
    ensures SameRows(rows, SweepUp(edges, rows))
  {
    if |rows| >= 2 {
      SweepUpKeepsRows(edges, rows[1..]);
      SortPermutes(KeyOrder(edges, Down, SweepUp(edges, rows[1..])[0], rows[0]), rows[0]);
      forall k | 0 <= k < |rows| ensures multiset(rows[k]) == multiset(SweepUp(edges, rows)[k]) {
        assert k > 0 ==> rows[1..][k - 1] == rows[k];
      }
    }
  }

  /** The sweeps reorder rows and never move a node to another row. */
  lemma OrderedKeepsRows(edges: seq<Arrow>, rows: Rows)
    ensures SameRows(rows, Ordered(edges, rows))
  {
    SweepDownKeepsRows(edges, rows);
    SweepUpKeepsRows(edges, SweepDown(edges, rows));
    SweepDownKeepsRows(edges, SweepUp(edges, SweepDown(edges, rows)));
  }

  /** The mean position of a node's neighbours in the row above. */
  ghost function Pull(edges: seq<Arrow>, above: seq<Id>, v: Id): seq<nat> {
    Anchors(Positions(above), Above(edges, v))
  }

  /** Nodes with a neighbour in the row above stand in the order of their barycenters. */
  ghost predicate Settled(edges: seq<Arrow>, above: seq<Id>, row: seq<Id>) {
    forall i, j :: 0 <= i < j < |row| && Pull(edges, above, row[i]) != [] && Pull(edges, above, row[j]) != [] ==>
      Barycenter(Pull(edges, above, row[i]), 0) <= Barycenter(Pull(edges, above, row[j]), 0)
  }

  lemma SortRowSettles(edges: seq<Arrow>, above: seq<Id>, row: seq<Id>)
    ensures Settled(edges, above, SortRow(edges, Up, above, row))
  {
    var le := KeyOrder(edges, Up, above, row);
    SortSorts(le, row);
    var r := Sort(le, row);
    forall i, j | 0 <= i < j < |r| && Pull(edges, above, r[i]) != [] && Pull(edges, above, r[j]) != []
      ensures Barycenter(Pull(edges, above, r[i]), 0) <= Barycenter(Pull(edges, above, r[j]), 0)
    {
      assert le(r[i], r[j]);
    }
  }

  /** A downward sweep settles every row against the final state of the row above it. */
  lemma {:induction false} SweepDownSettles(edges: seq<Arrow>, rows: Rows, k: nat)
    requires 1 <= k < |rows|
    ensures Settled(edges, SweepDown(edges, rows)[k - 1], SweepDown(edges, rows)[k])
  {
    hide Settled, SortRow;
    var n := |rows| - 1;
    var upper := SweepDown(edges, rows[..n]);
    if k == n {
      SortRowSettles(edges, upper[n - 1], rows[n]);
    } else {
      SweepDownSettles(edges, rows[..n], k);
    }
  }

  // ---- Ties ----------------------------------------------------------------------------

  /** `a` stands before `b` in the row. */
  ghost predicate Precedes(row: seq<Id>, a: Id, b: Id) {
    exists i, j :: 0 <= i < j < |row| && row[i] == a && row[j] == b
  }

  /** Nodes with equal barycenters keep the order they had before the sort. */
  lemma SortRowKeepsTies(edges: seq<Arrow>, toward: Direction, adjacent: seq<Id>, row: seq<Id>, a: Id, b: Id)
    requires SortKey(edges, toward, adjacent, row, a) == SortKey(edges, toward, adjacent, row, b)
    ensures Precedes(SortRow(edges, toward, adjacent, row), a, b) <==> Precedes(row, a, b)
  {
    hide SortKey;
    var le := KeyOrder(edges, toward, adjacent, row);
    SortStable(le, row, a);
    TiesPrecede(le, row, a, b);
    TiesPrecede(le, Sort(le, row), a, b);
  }

  /** Two tied elements stand in the same order among their ties. */
  lemma TiesPrecede(le: (Id, Id) -> bool, row: seq<Id>, a: Id, b: Id)
    requires le(a, b) && le(b, a) && le(a, a)
    ensures Precedes(row, a, b) <==> Precedes(Ties(le, row, a), a, b)
  {
    FilterPrecedes(x => le(x, a) && le(a, x), row, a, b);
  }

  lemma {:induction false} FilterPrecedes(p: Id -> bool, row: seq<Id>, a: Id, b: Id)
    requires p(a) && p(b)
    ensures Precedes(row, a, b) <==> Precedes(Filter(p, row), a, b)
  {
    if row != [] {
      var front, last := row[..|row| - 1], row[|row| - 1];
      FilterPrecedes(p, front, a, b);
      SplitLast(row);
      FilterLast(p, front, last);
      PrecedesLast(front, last, a, b);
      PrecedesLast(Filter(p, front), last, a, b);
      assert a in front <==> a in Filter(p, front);
    }
  }

  lemma PrecedesLast(row: seq<Id>, last: Id, a: Id, b: Id)
    ensures Precedes(row + [last], a, b) <==> Precedes(row, a, b) || (a in row && last == b)
  {
    var all := row + [last];
    if Precedes(row, a, b) {
      var i, j :| 0 <= i < j < |row| && row[i] == a && row[j] == b;
      assert all[i] == a && all[j] == b;
    }
    if a in row && last == b {
      var i :| 0 <= i < |row| && row[i] == a;
      assert all[i] == a && all[|row|] == b;
    }
  }

  /** Where a sweep leaves each row: sorted, from the order it had, against the swept row next to it. */
  lemma {:induction false} SweepDownRow(edges: seq<Arrow>, rows: Rows, k: nat)
    requires 1 <= k < |rows|
    ensures SweepDown(edges, rows)[k] == SortRow(edges, Up, SweepDown(edges, rows)[k - 1], rows[k])
  {
    hide SortRow;
    if k < |rows| - 1 {
      SweepDownRow(edges, rows[..|rows| - 1], k);
    }
  }

  lemma {:induction false} SweepUpRow(edges: seq<Arrow>, rows: Rows, k: nat)
    requires k + 1 < |rows|
    ensures SweepUp(edges, rows)[k] == SortRow(edges, Down, SweepUp(edges, rows)[k + 1], rows[k])
  {
    hide SortRow;
    if k > 0 {
      SweepUpRow(edges, rows[1..], k - 1);
    }
  }

  /** Through a sweep in either direction, tied nodes of a row keep their order. */
  lemma SweepKeepsTies(edges: seq<Arrow>, rows: Rows, k: nat, a: Id, b: Id)
    requires k < |rows|
    ensures 1 <= k && SortKey(edges, Up, SweepDown(edges, rows)[k - 1], rows[k], a)
                      == SortKey(edges, Up, SweepDown(edges, rows)[k - 1], rows[k], b) ==>
      (Precedes(SweepDown(edges, rows)[k], a, b) <==> Precedes(rows[k], a, b))
    ensures k + 1 < |rows| && SortKey(edges, Down, SweepUp(edges, rows)[k + 1], rows[k], a)
                              == SortKey(edges, Down, SweepUp(edges, rows)[k + 1], rows[k], b) ==>
      (Precedes(SweepUp(edges, rows)[k], a, b) <==> Precedes(rows[k], a, b))
  {
    hide SortKey, SortRow, Precedes, SweepDown, SweepUp;
    if 1 <= k {
      SweepDownRow(edges, rows, k);
      var above := SweepDown(edges, rows)[k - 1];
      if SortKey(edges, Up, above, rows[k], a) == SortKey(edges, Up, above, rows[k], b) {
        SortRowKeepsTies(edges, Up, above, rows[k], a, b);
      }
    }
    if k + 1 < |rows| {
      SweepUpRow(edges, rows, k);
      var below := SweepUp(edges, rows)[k + 1];
      if SortKey(edges, Down, below, rows[k], a) == SortKey(edges, Down, below, rows[k], b) {
        SortRowKeepsTies(edges, Down, below, rows[k], a, b);
      }
    }
  }

  // ---- The passes, said of edges and places --------------------------------------------

  /** How many edges join `v` to this neighbour in the adjacent row. */
  ghost function Joining(edges: seq<Arrow>, toward: Direction, v: Id, neighbour: Id): nat {
    match toward
    case Up => multiset(edges)[Arrow(neighbour, v)]
    case Down => multiset(edges)[Arrow(v, neighbour)]
  }

  /** The edges that join `v` to the adjacent row. */
  ghost function JoiningAll(edges: seq<Arrow>, toward: Direction, v: Id, adjacent: seq<Id>): nat {
    if adjacent == [] then 0
    else
      var n := |adjacent| - 1;
      JoiningAll(edges, toward, v, adjacent[..n]) + Joining(edges, toward, v, adjacent[n])
  }

  /** The places of their other ends, added up. */
  ghost function PlacesAdded(edges: seq<Arrow>, toward: Direction, v: Id, adjacent: seq<Id>): nat {
    if adjacent == [] then 0
    else
      var n := |adjacent| - 1;
      PlacesAdded(edges, toward, v, adjacent[..n]) + n * Joining(edges, toward, v, adjacent[n])
  }

  /** The mean place, over the edges that join `v` to the adjacent row, of their other ends; without such
      an edge, the place it has. */
  ghost predicate WantsPlace(edges: seq<Arrow>, toward: Direction, adjacent: seq<Id>, row: seq<Id>, v: Id, place: real) {
    var n := JoiningAll(edges, toward, v, adjacent);
    if n == 0 then exists i :: 0 <= i < |row| && row[i] == v && place == i as real
    else place * n as real == PlacesAdded(edges, toward, v, adjacent) as real
  }

  /** The row's nodes in the order of the places they want, and as they were where those are equal. */
  ghost predicate RowSorted(edges: seq<Arrow>, toward: Direction, adjacent: seq<Id>, before: seq<Id>, after: seq<Id>) {
    multiset(after) == multiset(before) && exists places :: SortedByPlaces(edges, toward, adjacent, before, after, places)
  }

  ghost predicate SortedByPlaces(edges: seq<Arrow>, toward: Direction, adjacent: seq<Id>, before: seq<Id>, after: seq<Id>,
                                 places: seq<real>) {
    && |places| == |after|
    && (forall i :: 0 <= i < |after| ==> WantsPlace(edges, toward, adjacent, before, after[i], places[i]))
    && forall i, j :: 0 <= i < j < |after| ==>
         places[i] < places[j] || (places[i] == places[j] && Precedes(before, after[i], after[j]))
  }

  /** One pass: away from the row that stays as it is, each row is sorted against the row before it in its
      new order. */
  ghost predicate Passed(edges: seq<Arrow>, toward: Direction, before: Rows, after: Rows) {
    && |after| == |before| && before != []
    && (toward == Up ==> after[0] == before[0])
    && (toward == Down ==> after[|after| - 1] == before[|after| - 1])
    && forall k, a :: 0 <= k < |after| && 0 <= a < |after| && (if toward == Up then a == k - 1 else a == k + 1) ==>
         RowSorted(edges, toward, after[a], before[k], after[k])
  }

  /** As many rows as ranks, but at least one: in each the nodes of that rank, as they are listed. */
  ghost predicate FilledByRank(ids: seq<Id>, rank: map<Id, nat>, rows: Rows) {
    && |rows| >= 1 && (|rows| > 1 ==> exists v :: v in ids && v in rank && rank[v] == |rows| - 1)
    && (forall v :: v in ids ==> v in rank && rank[v] < |rows|)
    && forall k :: 0 <= k < |rows| ==>
         && (forall v :: v in rows[k] <==> v in ids && v in rank && rank[v] == k)
         && forall i, j :: 0 <= i < j < |rows[k]| ==> Precedes(ids, rows[k][i], rows[k][j])
  }

  /** Three passes over the rows of the ranks: down, up, and down again. */
  ghost predicate SweptThrice(ids: seq<Id>, rank: map<Id, nat>, edges: seq<Arrow>, rows: Rows) {
    exists start, first, second ::
      FilledByRank(ids, rank, start) && Passed(edges, Up, start, first) && Passed(edges, Down, first, second)
      && Passed(edges, Up, second, rows)
  }

  lemma {:induction false} JoiningIs(edges: seq<Arrow>, toward: Direction, v: Id, w: Id)
    ensures multiset(Neighbours(edges, toward, v))[w] == Joining(edges, toward, v, w)
  {
    if edges != [] {
      var front, e := edges[..|edges| - 1], edges[|edges| - 1];
      JoiningIs(front, toward, v, w);
      SplitLast(edges);
      if toward == Up {
        assert Above(edges, v) == Above(front, v) + if e.target == v then [e.source] else [];
      } else {
        assert Below(edges, v) == Below(front, v) + if e.source == v then [e.target] else [];
      }
    }
  }

  lemma {:induction false} PositionsIff(row: seq<Id>, w: Id)
    ensures w in Positions(row) <==> w in row
    ensures w in row ==> Positions(row)[w] < |row| && row[Positions(row)[w]] == w
  {
    if row != [] {
      PositionsIff(row[..|row| - 1], w);
      SplitLast(row);
    }
  }

  /** How often a name is named, over a row; and the places it is named for, added up. */
  ghost function Named(names: seq<Id>, adjacent: seq<Id>): nat {
    if adjacent == [] then 0
    else Named(names, adjacent[..|adjacent| - 1]) + multiset(names)[adjacent[|adjacent| - 1]]
  }

  ghost function NamedPlaces(names: seq<Id>, adjacent: seq<Id>): nat {
    if adjacent == [] then 0
    else
      var n := |adjacent| - 1;
      NamedPlaces(names, adjacent[..n]) + n * multiset(names)[adjacent[n]]
  }

  lemma {:induction false} NoneNamed(adjacent: seq<Id>)
    ensures Named([], adjacent) == NamedPlaces([], adjacent) == 0
  {
    if adjacent != [] {
      NoneNamed(adjacent[..|adjacent| - 1]);
    }
  }

  lemma {:induction false} OneMoreName(names: seq<Id>, last: Id, adjacent: seq<Id>)
    requires Distinct(adjacent)
    ensures Named(names + [last], adjacent) == Named(names, adjacent) + if last in adjacent then 1 else 0
    ensures NamedPlaces(names + [last], adjacent)
         == NamedPlaces(names, adjacent) + if last in Positions(adjacent) then Positions(adjacent)[last] else 0
  {
    if adjacent != [] {
      var n := |adjacent| - 1;
      OneMoreName(names, last, adjacent[..n]);
      SplitLast(adjacent);
      PositionsIff(adjacent[..n], last);
      CountOneMore(names, last, adjacent[n], n);
      assert last == adjacent[n] ==> last !in adjacent[..n];
    }
  }

  lemma CountOneMore(names: seq<Id>, last: Id, v: Id, n: nat)
    ensures multiset(names + [last])[v] == multiset(names)[v] + if last == v then 1 else 0
    ensures n * multiset(names + [last])[v] == n * multiset(names)[v] + if last == v then n else 0
  {
    var before, after := multiset(names)[v], multiset(names + [last])[v];
    assert after == before + if last == v then 1 else 0;
    assert n * (before + 1) == n * before + n;
  }

  lemma {:induction false} AnchorsCount(names: seq<Id>, adjacent: seq<Id>)
    requires Distinct(adjacent)
    ensures |Anchors(Positions(adjacent), names)| == Named(names, adjacent)
    ensures Sum(Anchors(Positions(adjacent), names)) == NamedPlaces(names, adjacent)
  {
    if names == [] {
      NoneNamed(adjacent);
    } else {
      var front, last := names[..|names| - 1], names[|names| - 1];
      AnchorsCount(front, adjacent);
      OneMoreName(front, last, adjacent);
      PositionsIff(adjacent, last);
      assert names == front + [last];
      var rest := Anchors(Positions(adjacent), front);
      assert last in adjacent ==> (rest + [Positions(adjacent)[last]])[..|rest|] == rest;
    }
  }

  lemma {:induction false} NamedAreJoining(edges: seq<Arrow>, toward: Direction, v: Id, adjacent: seq<Id>)
    ensures Named(Neighbours(edges, toward, v), adjacent) == JoiningAll(edges, toward, v, adjacent)
    ensures NamedPlaces(Neighbours(edges, toward, v), adjacent) == PlacesAdded(edges, toward, v, adjacent)
  {
    if adjacent != [] {
      hide Joining, Neighbours;
      var n := |adjacent| - 1;
      NamedAreJoining(edges, toward, v, adjacent[..n]);
      JoiningIs(edges, toward, v, adjacent[n]);
    }
  }

  /** The key a node is sorted by is the place it wants. */
  lemma KeyIsWanted(edges: seq<Arrow>, toward: Direction, adjacent: seq<Id>, row: seq<Id>, v: Id)
    requires Distinct(adjacent) && v in row
    ensures WantsPlace(edges, toward, adjacent, row, v, SortKey(edges, toward, adjacent, row, v))
  {
    hide Neighbours, Anchors, Positions, Sum, Barycenter, JoiningAll, PlacesAdded, Named, NamedPlaces, Distinct;
    AnchorsCount(Neighbours(edges, toward, v), adjacent);
    NamedAreJoining(edges, toward, v, adjacent);
    PositionsIff(row, v);
    MeanOfAnchors(Anchors(Positions(adjacent), Neighbours(edges, toward, v)), Positions(row)[v]);
  }

  lemma MeanOfAnchors(anchors: seq<nat>, index: nat)
    ensures if anchors == [] then Barycenter(anchors, index) == index as real
            else Barycenter(anchors, index) * |anchors| as real == Sum(anchors) as real
  {
    if anchors != [] {
      QuotientBack(Sum(anchors) as real, |anchors| as real);
    }
  }

  lemma QuotientBack(a: real, b: real)
    requires b > 0.0
    ensures a / b * b == a
  {
  }

  lemma SortRowIsSorted(edges: seq<Arrow>, toward: Direction, adjacent: seq<Id>, row: seq<Id>)
    requires Distinct(adjacent) && Distinct(row)
    ensures RowSorted(edges, toward, adjacent, row, SortRow(edges, toward, adjacent, row))
  {
    hide SortKey, WantsPlace, Precedes, SortRow;
    var sorted := SortRow(edges, toward, adjacent, row);
    SortRowIs(edges, toward, adjacent, row);
    SameElements(sorted, row);
    var places := seq(|sorted|, i requires 0 <= i < |sorted| => SortKey(edges, toward, adjacent, row, sorted[i]));
    forall i | 0 <= i < |sorted| ensures WantsPlace(edges, toward, adjacent, row, sorted[i], places[i]) {
      assert sorted[i] in sorted;
      KeyIsWanted(edges, toward, adjacent, row, sorted[i]);
    }
    forall i, j | 0 <= i < j < |sorted|
      ensures places[i] < places[j] || (places[i] == places[j] && Precedes(row, sorted[i], sorted[j]))
    {
      if places[i] == places[j] {
        StandsBefore(sorted, i, j);
        SortRowKeepsTies(edges, toward, adjacent, row, sorted[i], sorted[j]);
      }
    }
    assert SortedByPlaces(edges, toward, adjacent, row, sorted, places);
  }

  lemma SortRowIs(edges: seq<Arrow>, toward: Direction, adjacent: seq<Id>, row: seq<Id>)
    ensures var sorted := SortRow(edges, toward, adjacent, row);
      && multiset(sorted) == multiset(row)
      && forall i, j :: 0 <= i < j < |sorted| ==>
           SortKey(edges, toward, adjacent, row, sorted[i]) <= SortKey(edges, toward, adjacent, row, sorted[j])
  {
    hide SortKey;
    var le, sorted := KeyOrder(edges, toward, adjacent, row), SortRow(edges, toward, adjacent, row);
    SortSorts(le, row);
    SortPermutes(le, row);
    forall i, j | 0 <= i < j < |sorted|
      ensures SortKey(edges, toward, adjacent, row, sorted[i]) <= SortKey(edges, toward, adjacent, row, sorted[j])
    {
      assert le(sorted[i], sorted[j]);
    }
  }

  lemma StandsBefore(row: seq<Id>, i: nat, j: nat)
    requires i < j < |row|
    ensures Precedes(row, row[i], row[j])
  {
  }

  lemma DownPassed(edges: seq<Arrow>, rows: Rows)
    requires DistinctRows(rows) && rows != []
    ensures Passed(edges, Up, rows, SweepDown(edges, rows)) && DistinctRows(SweepDown(edges, rows))
  {
    hide SweepDown, RowSorted, Distinct;
    var swept := SweepDown(edges, rows);
    SweepDownKeepsRows(edges, rows);
    SameRowsDistinct(rows, swept);
    FirstStays(edges, rows);
    forall k | 1 <= k < |rows| ensures RowSorted(edges, Up, swept[k - 1], rows[k], swept[k]) {
      SweepDownRow(edges, rows, k);
      SortRowIsSorted(edges, Up, swept[k - 1], rows[k]);
    }
  }

  lemma {:induction false} FirstStays(edges: seq<Arrow>, rows: Rows)
    requires rows != []
    ensures SweepDown(edges, rows)[0] == rows[0]
  {
    hide SortRow;
    if |rows| >= 2 {
      FirstStays(edges, rows[..|rows| - 1]);
    }
  }

  lemma {:induction false} LastStays(edges: seq<Arrow>, rows: Rows)
    requires rows != []
    ensures SweepUp(edges, rows)[|rows| - 1] == rows[|rows| - 1]
  {
    hide SortRow;
    if |rows| >= 2 {
      LastStays(edges, rows[1..]);
    }
  }

  lemma UpPassed(edges: seq<Arrow>, rows: Rows)
    requires DistinctRows(rows) && rows != []
    ensures Passed(edges, Down, rows, SweepUp(edges, rows)) && DistinctRows(SweepUp(edges, rows))
  {
    hide SweepUp, RowSorted, Distinct;
    var swept := SweepUp(edges, rows);
    SweepUpKeepsRows(edges, rows);
    SameRowsDistinct(rows, swept);
    LastStays(edges, rows);
    forall k | 0 <= k < |rows| - 1 ensures RowSorted(edges, Down, swept[k + 1], rows[k], swept[k]) {
      SweepUpRow(edges, rows, k);
      SortRowIsSorted(edges, Down, swept[k + 1], rows[k]);
    }
  }

  lemma {:induction false} FilterKeepsOrder(p: Id -> bool, ids: seq<Id>, i: nat, j: nat)
    requires i < j < |Filter(p, ids)|
    ensures Precedes(ids, Filter(p, ids)[i], Filter(p, ids)[j])
  {
    var kept := Filter(p, ids);
    StandsBefore(kept, i, j);
    assert kept[i] in kept && kept[j] in kept;
    FilterPrecedes(p, ids, kept[i], kept[j]);
  }

  lemma {:induction false} LastRankIsTaken(ids: seq<Id>, rank: map<Id, nat>)
    requires forall v :: v in ids ==> v in rank
    ensures RowCount(ids, rank) > 1 ==> exists v :: v in ids && v in rank && rank[v] == RowCount(ids, rank) - 1
  {
    if ids != [] {
      LastRankIsTaken(ids[..|ids| - 1], rank);
      SplitLast(ids);
    }
  }

  lemma RanksFillRows(ids: seq<Id>, rank: map<Id, nat>)
    requires forall v :: v in ids ==> v in rank
    ensures FilledByRank(ids, rank, RankRows(ids, rank, RowCount(ids, rank)))
  {
    hide Precedes, RowCount;
    LastRankIsTaken(ids, rank);
    var rows := RankRows(ids, rank, RowCount(ids, rank));
    forall k: nat, i: nat, j: nat | k < |rows| && i < j < |rows[k]| ensures Precedes(ids, rows[k][i], rows[k][j]) {
      FilterKeepsOrder(v => v in rank && rank[v] == k, ids, i, j);
    }
  }

  /** The rows that are left are those of three passes. */
  lemma OrderedIsSwept(ids: seq<Id>, rank: map<Id, nat>, edges: seq<Arrow>)
    requires Distinct(ids) && forall v :: v in ids ==> v in rank
    ensures SweptThrice(ids, rank, edges, Ordered(edges, RankRows(ids, rank, RowCount(ids, rank))))
  {
    hide FilledByRank, Passed, SweepDown, SweepUp, RankRows, DistinctRows;
    var start := RankRows(ids, rank, RowCount(ids, rank));
    RanksFillRows(ids, rank);
    RankRowsDistinct(ids, rank, RowCount(ids, rank));
    assert start != [] by { HasRows(ids, rank, RowCount(ids, rank)); }
    DownPassed(edges, start);
    var first := SweepDown(edges, start);
    UpPassed(edges, first);
    DownPassed(edges, SweepUp(edges, first));
  }

  lemma HasRows(ids: seq<Id>, rank: map<Id, nat>, count: nat)
    ensures |RankRows(ids, rank, count)| == count
  {
  }

  // ---- The method ----------------------------------------------------------------------

  function Get(neighbours: map<Id, seq<Id>>, v: Id): seq<Id> {
    if v in neighbours then neighbours[v] else []
  }

  method NeighbourMaps(edges: seq<Arrow>) returns (down: map<Id, seq<Id>>, up: map<Id, seq<Id>>)
    ensures forall v :: Get(down, v) == Below(edges, v) && Get(up, v) == Above(edges, v)
  {
    down, up := map[], map[];
    for k := 0 to |edges|
      invariant forall v :: Get(down, v) == Below(edges[..k], v)
      invariant forall v :: Get(up, v) == Above(edges[..k], v)
    {
      var e := edges[k];
      assert edges[..k + 1][..k] == edges[..k];
      down := down[e.source := Get(down, e.source) + [e.target]];
      up := up[e.target := Get(up, e.target) + [e.source]];
    }
    assert edges[..|edges|] == edges;
  }

  method SortOneRow(edges: seq<Arrow>, toward: Direction, neighbours: map<Id, seq<Id>>,
                    adjacent: seq<Id>, row: seq<Id>) returns (r: seq<Id>)
    requires forall v :: Get(neighbours, v) == Neighbours(edges, toward, v)
    requires Distinct(row)
    ensures r == SortRow(edges, toward, adjacent, row)
  {
    hide Barycenter, Neighbours, Anchors, Sum, Sort;
    var position: map<Id, nat> := map[];
    for i := 0 to |adjacent|
      invariant position == Positions(adjacent[..i])
    {
      assert adjacent[..i + 1][..i] == adjacent[..i];
      position := position[adjacent[i] := i];
    }
    assert adjacent[..|adjacent|] == adjacent;
    var keyed: map<Id, real> := map[];
    for i := 0 to |row|
      invariant forall k :: 0 <= k < i ==>
        row[k] in keyed && keyed[row[k]] == SortKey(edges, toward, adjacent, row, row[k])
    {
      var name := row[i];
      var anchors := Anchors(position, Get(neighbours, name));
      PositionsAt(row, i);
      keyed := keyed[name := Barycenter(anchors, i)];
    }
    var le := (a, b) => a in keyed && b in keyed && keyed[a] <= keyed[b];
    r := Sort(le, row);
    SortCongruent(le, KeyOrder(edges, toward, adjacent, row), row);
  }

  lemma {:induction false} PositionsAt(row: seq<Id>, i: nat)
    requires Distinct(row) && i < |row|
    ensures row[i] in Positions(row) && Positions(row)[row[i]] == i
  {
    if i < |row| - 1 {
      PositionsAt(row[..|row| - 1], i);
    }
  }

  ghost predicate DistinctRows(rows: Rows) {
    forall k :: 0 <= k < |rows| ==> Distinct(rows[k])
  }

  lemma SameRowsDistinct(rows: Rows, rows': Rows)
    requires DistinctRows(rows) && SameRows(rows, rows')
    ensures DistinctRows(rows')
  {
    forall k | 0 <= k < |rows'| ensures Distinct(rows'[k]) {
      PermutationDistinct(rows[k], rows'[k]);
    }
  }

  lemma PermutationDistinct(xs: seq<Id>, ys: seq<Id>)
    requires Distinct(xs) && multiset(xs) == multiset(ys)
    ensures Distinct(ys)
  {
    forall i, j | 0 <= i < j < |ys| ensures ys[i] != ys[j] {
      if ys[i] == ys[j] {
        TwiceCounts(ys, i, j);
        CountedOnce(xs, ys[i]);
      }
    }
  }

  /** One more than the largest rank in use; one empty row when there is no node. */
  function RowCount(ids: seq<Id>, rank: map<Id, nat>): (n: nat)
    requires forall v :: v in ids ==> v in rank
    ensures n >= 1 && forall v :: v in ids ==> rank[v] < n
  {
    if ids == [] then 1
    else
      var n := RowCount(ids[..|ids| - 1], rank);
      assert ids == ids[..|ids| - 1] + [ids[|ids| - 1]];
      if rank[ids[|ids| - 1]] >= n then rank[ids[|ids| - 1]] + 1 else n
  }

  method FillRows(ids: seq<Id>, rank: map<Id, nat>) returns (rows: Rows)
    requires forall v :: v in ids ==> v in rank
    ensures rows == RankRows(ids, rank, RowCount(ids, rank))
  {
    var count := 1;
    for k := 0 to |ids|
      invariant count == RowCount(ids[..k], rank)
    {
      assert ids[..k + 1][..k] == ids[..k];
      count := if rank[ids[k]] >= count then rank[ids[k]] + 1 else count;
    }
    assert ids[..|ids|] == ids;
    rows := seq(count, k => []);
    for k := 0 to |ids|
      invariant rows == RankRows(ids[..k], rank, count)
    {
      var v := ids[k];
      FillOne(ids, k, rank, count);
      rows := rows[rank[v] := rows[rank[v]] + [v]];
    }
  }

  lemma FillOne(ids: seq<Id>, k: nat, rank: map<Id, nat>, count: nat)
    requires k < |ids| && ids[k] in rank && rank[ids[k]] < count
    ensures var rows, r := RankRows(ids[..k], rank, count), rank[ids[k]];
      RankRows(ids[..k + 1], rank, count) == rows[r := rows[r] + [ids[k]]]
  {
    assert ids[..k + 1] == ids[..k] + [ids[k]];
    forall r | 0 <= r < count
      ensures RowOf(ids[..k + 1], rank, r) == RowOf(ids[..k], rank, r) + if rank[ids[k]] == r then [ids[k]] else []
    {
      FilterLast(v => v in rank && rank[v] == r, ids[..k], ids[k]);
    }
  }

  lemma OneRow(edges: seq<Arrow>, rows: Rows)
    requires |rows| < 2
    ensures SweepDown(edges, rows) == SweepUp(edges, rows) == rows
  {
  }

  lemma DownStep(edges: seq<Arrow>, rows0: Rows, i: nat)
    requires 1 <= i < |rows0|
    ensures var rows := SweepDown(edges, rows0[..i]) + rows0[i..];
      && rows[i] == rows0[i]
      && SweepDown(edges, rows0[..i + 1]) + rows0[i + 1..] == rows[i := SortRow(edges, Up, rows[i - 1], rows[i])]
  {
    assert rows0[..i + 1][..i] == rows0[..i];
  }

  lemma UpStep(edges: seq<Arrow>, rows0: Rows, i: nat)
    requires i + 1 < |rows0|
    ensures var rows := rows0[..i + 1] + SweepUp(edges, rows0[i + 1..]);
      && rows[i] == rows0[i]
      && rows0[..i] + SweepUp(edges, rows0[i..]) == rows[i := SortRow(edges, Down, rows[i + 1], rows[i])]
  {
    assert rows0[i..][1..] == rows0[i + 1..];
    assert rows0[..i + 1] == rows0[..i] + [rows0[i]];
    ReplaceMiddle(rows0[..i], rows0[i], SortRow(edges, Down, SweepUp(edges, rows0[i + 1..])[0], rows0[i]),
                  SweepUp(edges, rows0[i + 1..]));
  }

  lemma ReplaceMiddle<T>(before: seq<T>, x: T, y: T, after: seq<T>)
    ensures (before + [x] + after)[|before| := y] == before + ([y] + after)
  {
  }

  method Sweep(edges: seq<Arrow>, toward: Direction, neighbours: map<Id, seq<Id>>, rows0: Rows) returns (rows: Rows)
    requires forall v :: Get(neighbours, v) == Neighbours(edges, toward, v)
    requires DistinctRows(rows0) && |rows0| >= 2
    ensures rows == if toward == Up then SweepDown(edges, rows0) else SweepUp(edges, rows0)
  {
    hide SweepDown, SweepUp, SortRow;
    assert SweepDown(edges, rows0[..1]) == rows0[..1] && SweepUp(edges, rows0[|rows0| - 1..]) == rows0[|rows0| - 1..] by {
      OneRow(edges, rows0[..1]);
      OneRow(edges, rows0[|rows0| - 1..]);
    }
    rows := rows0;
    if toward == Up {
      for i := 1 to |rows|
        invariant |rows| == |rows0| && rows == SweepDown(edges, rows0[..i]) + rows0[i..]
      {
        DownStep(edges, rows0, i);
        var r := SortOneRow(edges, Up, neighbours, rows[i - 1], rows[i]);
        rows := rows[i := r];
      }
      assert rows0[..|rows|] == rows0;
    } else {
      var i := |rows| - 1;
      while i > 0
        invariant 0 <= i < |rows| == |rows0| && rows == rows0[..i] + SweepUp(edges, rows0[i..])
      {
        i := i - 1;
        UpStep(edges, rows0, i);
        var r := SortOneRow(edges, Down, neighbours, rows[i + 1], rows[i]);
        rows := rows[i := r];
      }
      assert rows0[0..] == rows0;
    }
  }

  lemma RankRowsDistinct(ids: seq<Id>, rank: map<Id, nat>, count: nat)
    requires Distinct(ids)
    ensures DistinctRows(RankRows(ids, rank, count))
  {
    forall k | 0 <= k < count ensures Distinct(RankRows(ids, rank, count)[k]) {
      FilterDistinct(v => v in rank && rank[v] == k, ids);
    }
  }

  method OrderedRows(ids: seq<Id>, rank: map<Id, nat>, edges: seq<Arrow>) returns (rows: Rows)
    requires Distinct(ids) && forall v :: v in ids ==> v in rank
    ensures rows == Ordered(edges, RankRows(ids, rank, RowCount(ids, rank)))
    ensures SameRows(RankRows(ids, rank, RowCount(ids, rank)), rows)
    ensures forall k :: 1 <= k < |rows| ==> Settled(edges, rows[k - 1], rows[k])
    ensures SweptThrice(ids, rank, edges, rows)
  {
    hide SweptThrice, Settled, SameRows, DistinctRows, SweepDown, SweepUp, RankRows;
    rows := FillRows(ids, rank);
    RankRowsDistinct(ids, rank, RowCount(ids, rank));
    OrderedKeepsRows(edges, rows);
    ghost var filled := rows;
    var down, up := NeighbourMaps(edges);
    for pass := 0 to ORDER_SWEEPS
      invariant |rows| == |filled| && DistinctRows(rows)
      invariant rows == AfterPasses(edges, filled, pass)
      invariant pass > 0 ==> |rows| >= 2
    {
      if |rows| < 2 {
        OneRow(edges, filled);
        break;
      }
      SweepDownKeepsRows(edges, rows);
      SweepUpKeepsRows(edges, rows);
      if pass % 2 == 0 {
        SameRowsDistinct(rows, SweepDown(edges, rows));
        rows := Sweep(edges, Up, up, rows);
      } else {
        SameRowsDistinct(rows, SweepUp(edges, rows));
        rows := Sweep(edges, Down, down, rows);
      }
    }
    assert rows == Ordered(edges, filled) by {
      assert |filled| >= 2 ==> AfterPasses(edges, filled, 1) == SweepDown(edges, filled);
      assert |filled| >= 2 ==> AfterPasses(edges, filled, 2) == SweepUp(edges, SweepDown(edges, filled));
    }
    OrderedIsSwept(ids, rank, edges);
    forall k | 1 <= k < |rows| ensures Settled(edges, rows[k - 1], rows[k]) {
      SweepDownSettles(edges, SweepUp(edges, SweepDown(edges, filled)), k);
    }
  }

  ghost function AfterPasses(edges: seq<Arrow>, rows: Rows, passes: nat): Rows {
    if passes == 0 then rows
    else
      var before := AfterPasses(edges, rows, passes - 1);
      if (passes - 1) % 2 == 0 then SweepDown(edges, before) else SweepUp(edges, before)
  }
}
