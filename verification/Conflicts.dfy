/** Detecting, reporting and resolving contradictions (grapharc/memory/contradiction.py). */
module Conflicts {
  import opened Options
  import opened Seqs
  import opened Sorting
  import opened Texts
  import opened Claims
  import opened ClaimLog
  import opened MemoryBackend
  import opened StoreAgreement

  datatype Key = Key(subject: Text, property: Text)

  /** Current claims that share a key and do not all have the same value, oldest first. */
  datatype ConflictGroup = ConflictGroup(subject: Text, property: Text, claims: seq<Claim>)

  datatype Contradiction = Contradiction(incoming: Claim, existing: Claim)

  function KeyOf(norm: Normalizer, c: Claim): Key { Key(norm(c.subject), norm(c.property)) }

  function GroupKey(norm: Normalizer, g: ConflictGroup): Key { Key(norm(g.subject), norm(g.property)) }

  // ---- Orders --------------------------------------------------------------------------

  function OldestThenId(): (Claim, Claim) -> bool {
    (a: Claim, b: Claim) => a.observedAt < b.observedAt || (a.observedAt == b.observedAt && TextLe(a.id, b.id))
  }

  predicate KeyLe(a: Key, b: Key) {
    (a.subject != b.subject && TextLe(a.subject, b.subject)) || (a.subject == b.subject && TextLe(a.property, b.property))
  }

  function KeyOrder(): (Key, Key) -> bool { (a: Key, b: Key) => KeyLe(a, b) }

  function ByKey(norm: Normalizer): (ConflictGroup, ConflictGroup) -> bool {
    (a: ConflictGroup, b: ConflictGroup) => KeyLe(GroupKey(norm, a), GroupKey(norm, b))
  }

  lemma ClaimOrder(claims: seq<Claim>)
    requires DistinctIds(claims)
    ensures TotalPreorder(OldestThenId()) && Antisymmetric(OldestThenId(), claims)
  {
    hide TextLe;
    TextOrder();
  }

  lemma KeysAreOrdered(norm: Normalizer)
    ensures TotalPreorder(KeyOrder()) && TotalPreorder(ByKey(norm))
    ensures forall a, b :: KeyLe(a, b) && KeyLe(b, a) ==> a == b
  {
    hide TextLe;
    TextOrder();
  }

  // ---- What a report contains ----------------------------------------------------------

  function WithKey(norm: Normalizer, k: Key): Claim -> bool {
    (c: Claim) => c.IsCurrent() && KeyOf(norm, c) == k
  }

  function Members(norm: Normalizer, claims: seq<Claim>, k: Key): seq<Claim> {
    Sort(OldestThenId(), Filter(WithKey(norm, k), claims))
  }

  predicate Disagree(norm: Normalizer, members: seq<Claim>) {
    exists a, b :: a in members && b in members && norm(a.value) != norm(b.value)
  }

  function GroupOf(members: seq<Claim>): ConflictGroup
    requires members != []
  {
    ConflictGroup(members[0].subject, members[0].property, members)
  }

  predicate Reported(norm: Normalizer, claims: seq<Claim>, g: ConflictGroup) {
    var members := Members(norm, claims, GroupKey(norm, g));
    members != [] && Disagree(norm, members) && g == GroupOf(members)
  }

  /** One group for every key whose current claims disagree, in key order, and no other. */
  ghost predicate IsReport(norm: Normalizer, claims: seq<Claim>, groups: seq<ConflictGroup>) {
    && Sorted(ByKey(norm), groups) && Distinct(groups)
    && (forall g :: g in groups ==> Reported(norm, claims, g))
    && (forall k :: Disagree(norm, Members(norm, claims, k)) ==> exists g :: g in groups && GroupKey(norm, g) == k)
  }

  lemma MemberIff(norm: Normalizer, claims: seq<Claim>, k: Key, c: Claim)
    ensures c in Members(norm, claims, k) <==> c in claims && c.IsCurrent() && KeyOf(norm, c) == k
  {
    SortKeepsElements(OldestThenId(), Filter(WithKey(norm, k), claims), c);
    assert WithKey(norm, k)(c) <==> c.IsCurrent() && KeyOf(norm, c) == k;
  }

  lemma GroupHasKey(norm: Normalizer, claims: seq<Claim>, k: Key)
    requires Members(norm, claims, k) != []
    ensures GroupKey(norm, GroupOf(Members(norm, claims, k))) == k
  {
    MemberIff(norm, claims, k, Members(norm, claims, k)[0]);
  }

  /** Where two lists of claims have the same members under every key, there is one report. */
  lemma ReportIsUnique(norm: Normalizer, claims: seq<Claim>, groups: seq<ConflictGroup>,
                       claims': seq<Claim>, groups': seq<ConflictGroup>)
    requires IsReport(norm, claims, groups) && IsReport(norm, claims', groups')
    requires forall k :: Members(norm, claims, k) == Members(norm, claims', k)
    ensures groups == groups'
  {
    hide Members, Disagree, KeyLe;
    KeysAreOrdered(norm);
    SameGroups(norm, claims, groups, claims', groups');
    SameGroups(norm, claims', groups', claims, groups);
    SameSetSameMultiset(groups, groups');
    forall g, h | g in groups && h in groups && ByKey(norm)(g, h) && ByKey(norm)(h, g) ensures g == h {
      assert Reported(norm, claims, g) && Reported(norm, claims, h);
    }
    SortedIsUnique(ByKey(norm), groups, groups');
  }

  lemma SameGroups(norm: Normalizer, claims: seq<Claim>, groups: seq<ConflictGroup>,
                   claims': seq<Claim>, groups': seq<ConflictGroup>)
    requires IsReport(norm, claims, groups) && IsReport(norm, claims', groups')
    requires forall k :: Members(norm, claims, k) == Members(norm, claims', k)
    ensures forall g :: g in groups ==> g in groups'
  {
    hide Members, Disagree, ByKey;
    forall g | g in groups ensures g in groups' {
      assert Reported(norm, claims, g);
      var h :| h in groups' && GroupKey(norm, h) == GroupKey(norm, g);
      assert Reported(norm, claims', h);
    }
  }

  // ---- What a report says --------------------------------------------------------------

  /** Oldest first; claims observed at one time are in the order of their ids. */
  ghost predicate InTime(claims: seq<Claim>) {
    forall i, j :: 0 <= i < j < |claims| ==>
      claims[i].observedAt < claims[j].observedAt
      || (claims[i].observedAt == claims[j].observedAt && TextLe(claims[i].id, claims[j].id))
  }

  /** Exactly the current claims of one subject and property, in time, under the names the oldest gives
      them; two of them have different values. */
  ghost predicate IsGroup(norm: Normalizer, claims: seq<Claim>, g: ConflictGroup) {
    && g.claims != [] && g.subject == g.claims[0].subject && g.property == g.claims[0].property
    && (forall c :: c in g.claims <==>
          c in claims && c.supersededBy.None? && norm(c.subject) == norm(g.subject) && norm(c.property) == norm(g.property))
    && InTime(g.claims)
    && exists a, b :: a in g.claims && b in g.claims && norm(a.value) != norm(b.value)
  }

  /** Two current claims about one subject and property with different values. */
  predicate Contradict(norm: Normalizer, a: Claim, b: Claim) {
    && a.supersededBy.None? && b.supersededBy.None?
    && norm(a.subject) == norm(b.subject) && norm(a.property) == norm(b.property) && norm(a.value) != norm(b.value)
  }

  /** One group comes before another: by subject, then by property, and never under the same two names. */
  predicate GroupBefore(norm: Normalizer, g: ConflictGroup, h: ConflictGroup) {
    if norm(g.subject) == norm(h.subject)
    then norm(g.property) != norm(h.property) && TextLe(norm(g.property), norm(h.property))
    else TextLe(norm(g.subject), norm(h.subject))
  }

  /** Every contradiction is in a group, every group shows one, and the groups are in order. */
  ghost predicate ShowsAll(norm: Normalizer, claims: seq<Claim>, groups: seq<ConflictGroup>) {
    && (forall g :: g in groups ==> IsGroup(norm, claims, g))
    && (forall a, b :: a in claims && b in claims && Contradict(norm, a, b) ==>
          exists g :: g in groups && a in g.claims && b in g.claims)
    && (forall i, j :: 0 <= i < j < |groups| ==> GroupBefore(norm, groups[i], groups[j]))
  }

  lemma MembersInTime(norm: Normalizer, claims: seq<Claim>, k: Key)
    ensures InTime(Members(norm, claims, k))
  {
    hide TextLe, Filter;
    ClaimOrder([]);
    SortSorts(OldestThenId(), Filter(WithKey(norm, k), claims));
  }

  lemma ReportedIsGroup(norm: Normalizer, claims: seq<Claim>, g: ConflictGroup)
    requires Reported(norm, claims, g)
    ensures IsGroup(norm, claims, g)
  {
    hide Members, InTime;
    var k := GroupKey(norm, g);
    MembersInTime(norm, claims, k);
    forall c ensures c in g.claims <==>
      c in claims && c.supersededBy.None? && norm(c.subject) == norm(g.subject) && norm(c.property) == norm(g.property)
    {
      MemberIff(norm, claims, k, c);
    }
  }

  lemma ReportShowsAll(norm: Normalizer, claims: seq<Claim>, groups: seq<ConflictGroup>)
    requires IsReport(norm, claims, groups)
    ensures ShowsAll(norm, claims, groups)
  {
    hide Members, TextLe, IsGroup;
    forall g | g in groups ensures IsGroup(norm, claims, g) {
      ReportedIsGroup(norm, claims, g);
    }
    forall a, b | a in claims && b in claims && Contradict(norm, a, b)
      ensures exists g :: g in groups && a in g.claims && b in g.claims
    {
      MemberIff(norm, claims, KeyOf(norm, a), a);
      MemberIff(norm, claims, KeyOf(norm, a), b);
      var g :| g in groups && GroupKey(norm, g) == KeyOf(norm, a);
      assert Reported(norm, claims, g);
    }
    forall i, j | 0 <= i < j < |groups| ensures GroupBefore(norm, groups[i], groups[j]) {
      assert Reported(norm, claims, groups[i]) && Reported(norm, claims, groups[j]);
      assert ByKey(norm)(groups[i], groups[j]);
    }
  }

  // ---- Building the report -------------------------------------------------------------

  /** Current claims by key, and the keys in order of first appearance. */
  method Buckets(norm: Normalizer, claims: seq<Claim>) returns (buckets: map<Key, seq<Claim>>, keys: seq<Key>)
    ensures Distinct(keys) && forall k :: k in keys <==> k in buckets
    ensures forall k :: k in buckets <==> Filter(WithKey(norm, k), claims) != []
    ensures forall k :: k in buckets ==> buckets[k] == Filter(WithKey(norm, k), claims)
  {
    hide Filter, WithKey;
    buckets, keys := map[], [];
    NoBuckets(norm);
    for i := 0 to |claims|
      invariant Distinct(keys) && forall k :: k in keys <==> k in buckets
      invariant forall k :: k in buckets <==> Filter(WithKey(norm, k), claims[..i]) != []
      invariant forall k :: k in buckets ==> buckets[k] == Filter(WithKey(norm, k), claims[..i])
    {
      var c := claims[i];
      var key := KeyOf(norm, c);
      assert claims[..i + 1] == claims[..i] + [c];
      BucketsGrow(norm, claims[..i], c);
      if c.IsCurrent() {
        if key !in buckets {
          buckets := buckets[key := []];
          keys := keys + [key];
        }
        buckets := buckets[key := buckets[key] + [c]];
      }
    }
    assert claims[..|claims|] == claims;
  }

  lemma NoBuckets(norm: Normalizer)
    ensures forall k :: Filter(WithKey(norm, k), []) == []
  {
  }

  function Bucketed(norm: Normalizer, k: Key, claims: seq<Claim>, c: Claim): seq<Claim> {
    Filter(WithKey(norm, k), claims) + if c.IsCurrent() && KeyOf(norm, c) == k then [c] else []
  }

  lemma BucketsGrow(norm: Normalizer, claims: seq<Claim>, c: Claim)
    ensures forall k :: Filter(WithKey(norm, k), claims + [c]) == Bucketed(norm, k, claims, c)
  {
    forall k ensures Filter(WithKey(norm, k), claims + [c]) == Bucketed(norm, k, claims, c) {
      FilterLast(WithKey(norm, k), claims, c);
      assert WithKey(norm, k)(c) <==> c.IsCurrent() && KeyOf(norm, c) == k;
    }
  }

  /** Fewer than two distinct values is no disagreement. */
  lemma FewValuesAgree(norm: Normalizer, members: seq<Claim>)
    ensures |set c | c in members :: norm(c.value)| < 2 <==> !Disagree(norm, members)
  {
    var values := set c | c in members :: norm(c.value);
    if |values| < 2 {
      forall a, b | a in members && b in members ensures norm(a.value) == norm(b.value) {
        OneElement(values, norm(a.value), norm(b.value));
      }
    } else {
      var v, w := TwoElements(values);
      var a :| a in members && norm(a.value) == v;
      var b :| b in members && norm(b.value) == w;
    }
  }

  lemma OneElement<T>(s: set<T>, a: T, b: T)
    requires |s| < 2 && a in s && b in s
    ensures a == b
  {
    if a != b {
      assert {a, b} <= s;
      SubsetSize({a, b}, s);
    }
  }

  lemma TwoElements<T>(s: set<T>) returns (a: T, b: T)
    requires |s| >= 2
    ensures a in s && b in s && a != b
  {
    a :| a in s;
    assert |s - {a}| >= 1;
    b :| b in s - {a};
  }

  /** The report on the first `i` keys. */
  ghost predicate ReportSoFar(norm: Normalizer, claims: seq<Claim>, keys: seq<Key>, groups: seq<ConflictGroup>) {
    && Sorted(ByKey(norm), groups) && Distinct(groups)
    && (forall g :: g in groups ==> Reported(norm, claims, g) && GroupKey(norm, g) in keys)
    && (forall k :: k in keys && Disagree(norm, Members(norm, claims, k)) ==> exists g :: g in groups && GroupKey(norm, g) == k)
  }

  lemma ReportGrows(norm: Normalizer, claims: seq<Claim>, keys: seq<Key>, groups: seq<ConflictGroup>, k: Key)
    requires ReportSoFar(norm, claims, keys, groups)
    requires k !in keys && forall j :: j in keys ==> KeyLe(j, k)
    requires Members(norm, claims, k) != []
    ensures var members := Members(norm, claims, k);
      ReportSoFar(norm, claims, keys + [k], if Disagree(norm, members) then groups + [GroupOf(members)] else groups)
  {
    hide Members, Disagree, KeyLe;
    GroupHasKey(norm, claims, k);
    var members := Members(norm, claims, k);
    var groups' := if Disagree(norm, members) then groups + [GroupOf(members)] else groups;
    forall i, j | 0 <= i < j < |groups'| ensures ByKey(norm)(groups'[i], groups'[j]) && groups'[i] != groups'[j] {
      if j == |groups| {
        assert groups[i] in groups;
      }
    }
    forall h | h in keys + [k] && Disagree(norm, Members(norm, claims, h))
      ensures exists g :: g in groups' && GroupKey(norm, g) == h
    {
      if h == k {
        assert groups'[|groups|] == GroupOf(members);
      } else {
        var g :| g in groups && GroupKey(norm, g) == h;
        assert g in groups';
      }
    }
  }

  lemma SortedKeys(keys: seq<Key>)
    requires Distinct(keys)
    ensures Sorted(KeyOrder(), Sort(KeyOrder(), keys)) && Distinct(Sort(KeyOrder(), keys))
    ensures forall k :: k in Sort(KeyOrder(), keys) <==> k in keys
  {
    KeysAreOrdered(x => x);
    SortSorts(KeyOrder(), keys);
    SortKeepsDistinct(KeyOrder(), keys);
    forall k ensures k in Sort(KeyOrder(), keys) <==> k in keys {
      SortKeepsElements(KeyOrder(), keys, k);
    }
  }

  lemma NothingReportedYet(norm: Normalizer, claims: seq<Claim>)
    ensures ReportSoFar(norm, claims, [], [])
  {
  }

  lemma ReportIsComplete(norm: Normalizer, claims: seq<Claim>, keys: seq<Key>, groups: seq<ConflictGroup>)
    requires ReportSoFar(norm, claims, keys, groups)
    requires forall k :: Filter(WithKey(norm, k), claims) != [] ==> k in keys
    ensures IsReport(norm, claims, groups)
  {
    hide Disagree, Members, Reported;
    forall k | Disagree(norm, Members(norm, claims, k)) ensures k in keys {
      DisagreementHasBucket(norm, claims, k);
    }
  }

  method GroupConflicts(norm: Normalizer, claims: seq<Claim>) returns (groups: seq<ConflictGroup>)
    ensures IsReport(norm, claims, groups) && ShowsAll(norm, claims, groups)
  {
    hide ReportSoFar, ShowsAll, IsReport, Sorted, Distinct, Filter, Sort, Disagree, KeyLe;
    var buckets, keys := Buckets(norm, claims);
    var sorted := Sort(KeyOrder(), keys);
    SortedKeys(keys);
    NothingReportedYet(norm, claims);
    groups := [];
    for i := 0 to |sorted|
      invariant ReportSoFar(norm, claims, sorted[..i], groups)
    {
      var k := sorted[i];
      assert k in sorted;
      var members := Sort(OldestThenId(), buckets[k]);
      BucketMembers(norm, claims, k);
      FewValuesAgree(norm, members);
      NextKey(sorted, i);
      ReportGrows(norm, claims, sorted[..i], groups, k);
      assert sorted[..i + 1] == sorted[..i] + [k];
      if |set c | c in members :: norm(c.value)| >= 2 {
        groups := groups + [ConflictGroup(members[0].subject, members[0].property, members)];
      }
    }
    assert sorted[..|sorted|] == sorted;
    ReportIsComplete(norm, claims, sorted, groups);
    ReportShowsAll(norm, claims, groups);
  }

  lemma NextKey(sorted: seq<Key>, i: nat)
    requires i < |sorted| && Sorted(KeyOrder(), sorted) && Distinct(sorted)
    ensures sorted[i] !in sorted[..i] && forall j :: j in sorted[..i] ==> KeyLe(j, sorted[i])
  {
    hide KeyLe;
    forall j | j in sorted[..i] ensures KeyLe(j, sorted[i]) {
      var n :| 0 <= n < i && sorted[n] == j;
      assert KeyOrder()(sorted[n], sorted[i]);
    }
  }

  lemma BucketMembers(norm: Normalizer, claims: seq<Claim>, k: Key)
    requires Filter(WithKey(norm, k), claims) != []
    ensures Members(norm, claims, k) != []
  {
    SortPermutes(OldestThenId(), Filter(WithKey(norm, k), claims));
    SameElements(Members(norm, claims, k), Filter(WithKey(norm, k), claims));
  }

  lemma DisagreementHasBucket(norm: Normalizer, claims: seq<Claim>, k: Key)
    requires Disagree(norm, Members(norm, claims, k))
    ensures Filter(WithKey(norm, k), claims) != []
  {
    var a :| a in Members(norm, claims, k);
    SortKeepsElements(OldestThenId(), Filter(WithKey(norm, k), claims), a);
  }

  // ---- The entity-scoped report --------------------------------------------------------

  /** One of the entities normalizes to this name. */
  predicate Names(norm: Normalizer, entities: seq<Text>, name: Text) {
    exists e :: e in entities && norm(e) == name
  }

  function InScope(norm: Normalizer, entities: seq<Text>): ConflictGroup -> bool {
    (g: ConflictGroup) => Names(norm, entities, norm(g.subject))
  }

  /** The stored current claims about the entities, each once. */
  ghost predicate IsScope(norm: Normalizer, log: Log, entities: seq<Text>, claims: seq<Claim>) {
    && DistinctIds(claims)
    && forall c :: c in claims <==> c in log && c.IsCurrent() && Names(norm, entities, norm(c.subject))
  }

  /** Within scope the members of a key are all of them; outside there are none. */
  lemma ScopedMembers(norm: Normalizer, log: Log, entities: seq<Text>, claims: seq<Claim>, k: Key)
    requires DistinctIds(log) && IsScope(norm, log, entities, claims)
    ensures Members(norm, claims, k) == if Names(norm, entities, k.subject) then Members(norm, log, k) else []
  {
    var p := WithKey(norm, k);
    if Names(norm, entities, k.subject) {
      FilterDistinct(p, claims);
      FilterDistinct(p, log);
      SameSetSameMultiset(Filter(p, claims), Filter(p, log));
      ClaimOrder(claims);
      assert Antisymmetric(OldestThenId(), Filter(p, claims));
      SortIgnoresOrder(OldestThenId(), Filter(p, claims), Filter(p, log));
    } else {
      assert forall c :: c in claims ==> !p(c);
      assert forall c :: c !in Filter(p, claims);
    }
  }

  lemma {:induction false} FilterSorted<T>(le: (T, T) -> bool, p: T -> bool, xs: seq<T>)
    requires Sorted(le, xs)
    ensures Sorted(le, Filter(p, xs))
  {
    if xs != [] {
      var front := xs[..|xs| - 1];
      var rest := Filter(p, front);
      FilterSorted(le, p, front);
      forall i | 0 <= i < |rest| ensures le(rest[i], xs[|xs| - 1]) {
        assert rest[i] in rest;
        var k :| 0 <= k < |front| && front[k] == rest[i];
        assert xs[k] == rest[i];
      }
    }
  }

  /** The report on the scope is the full report restricted to the named subjects. */
  lemma ScopedReport(norm: Normalizer, log: Log, entities: seq<Text>, claims: seq<Claim>,
                     full: seq<ConflictGroup>, scoped: seq<ConflictGroup>)
    requires DistinctIds(log) && IsScope(norm, log, entities, claims)
    requires IsReport(norm, log, full) && IsReport(norm, claims, scoped)
    ensures scoped == Filter(InScope(norm, entities), full)
  {
    hide Members, Disagree, KeyLe, Names, IsScope;
    var restricted := Filter(InScope(norm, entities), full);
    forall k ensures Members(norm, claims, k) == if Names(norm, entities, k.subject) then Members(norm, log, k) else [] {
      ScopedMembers(norm, log, entities, claims, k);
    }
    FilterSorted(ByKey(norm), InScope(norm, entities), full);
    FilterDistinct(InScope(norm, entities), full);
    EmptyAgrees(norm);
    forall g | g in restricted ensures Reported(norm, claims, g) {
      assert Reported(norm, log, g) && InScope(norm, entities)(g);
    }
    forall k | Disagree(norm, Members(norm, claims, k)) ensures exists g :: g in restricted && GroupKey(norm, g) == k {
      var g :| g in full && GroupKey(norm, g) == k;
      assert InScope(norm, entities)(g);
    }
    ReportIsUnique(norm, claims, scoped, claims, restricted);
  }

  lemma EmptyAgrees(norm: Normalizer)
    ensures !Disagree(norm, [])
  {
  }

  lemma NothingInScope(norm: Normalizer, log: Log)
    ensures IsScope(norm, log, [], []) && SeenIds([], {})
  {
  }

  lemma ScopeIsStored(norm: Normalizer, log: Log, entities: seq<Text>, claims: seq<Claim>, entity: Text)
    requires IsScope(norm, log, entities, claims)
    ensures DistinctIds(claims)
    ensures forall c :: c in claims || c in Current(log, norm, entity, None) ==> c in log
  {
  }

  lemma ScopeGrows(norm: Normalizer, log: Log, entities: seq<Text>, entity: Text, before: seq<Claim>, claims: seq<Claim>)
    requires IsScope(norm, log, entities, before) && DistinctIds(claims)
    requires forall c :: c in claims <==> c in before || c in Current(log, norm, entity, None)
    ensures IsScope(norm, log, entities + [entity], claims)
  {
    forall c ensures c in claims <==> c in log && c.IsCurrent() && Names(norm, entities + [entity], norm(c.subject)) {
      assert IsCurrentAbout(norm, entity, None)(c) <==> c.IsCurrent() && norm(c.subject) == norm(entity);
      assert Names(norm, entities + [entity], norm(c.subject)) <==> Names(norm, entities, norm(c.subject)) || norm(entity) == norm(c.subject);
    }
  }

  lemma SameIdSameClaim(log: Log, a: Claim, b: Claim)
    requires DistinctIds(log) && a in log && b in log && a.id == b.id
    ensures a == b
  {
  }

  ghost predicate SeenIds(claims: seq<Claim>, seen: set<Id>) {
    && (forall c :: c in claims ==> c.id in seen)
    && (forall s :: s in seen ==> exists c :: c in claims && c.id == s)
  }

  /** Append the claims whose ids were not seen before. */
  method Collect(ghost log: Log, before: seq<Claim>, seen0: set<Id>, found: seq<Claim>)
    returns (claims: seq<Claim>, seen: set<Id>)
    requires DistinctIds(log) && forall c :: c in before || c in found ==> c in log
    requires DistinctIds(before) && SeenIds(before, seen0)
    ensures DistinctIds(claims) && SeenIds(claims, seen)
    ensures forall c :: c in claims <==> c in before || c in found
  {
    claims, seen := before, seen0;
    for j := 0 to |found|
      invariant DistinctIds(claims) && SeenIds(claims, seen)
      invariant forall c :: c in claims <==> c in before || c in found[..j]
    {
      assert found[..j + 1] == found[..j] + [found[j]];
      assert found[j] in found;
      if found[j].id !in seen {
        seen := seen + {found[j].id};
        claims := claims + [found[j]];
        assert found[j] in claims;
      } else {
        var c :| c in claims && c.id == found[j].id;
        SameIdSameClaim(log, c, found[j]);
      }
    }
    assert found[..|found|] == found;
  }

  lemma DistinctLog(store: MemoryStore)
    requires store.Valid()
    ensures DistinctIds(store.log)
  {
  }

  /** Collect what the store holds as current about each entity, without repeats. */
  method Scoped(store: MemoryStore, entities: seq<Text>) returns (claims: seq<Claim>)
    requires store.Valid()
    ensures IsScope(store.norm, store.log, entities, claims)
  {
    hide MemoryStore.Valid, Filter, SeenIds, IsScope, DistinctIds;
    DistinctLog(store);
    claims := [];
    NothingInScope(store.norm, store.log);
    var seen: set<Id> := {};
    for i := 0 to |entities|
      invariant SeenIds(claims, seen) && IsScope(store.norm, store.log, entities[..i], claims)
    {
      var found := store.CurrentClaims(entities[i], None);
      ghost var before := claims;
      ScopeIsStored(store.norm, store.log, entities[..i], claims, entities[i]);
      claims, seen := Collect(store.log, claims, seen, found);
      ScopeGrows(store.norm, store.log, entities[..i], entities[i], before, claims);
      assert entities[..i + 1] == entities[..i] + [entities[i]];
    }
    assert entities[..|entities|] == entities;
  }

  method Unresolved(store: MemoryStore, entities: Option<seq<Text>>) returns (groups: seq<ConflictGroup>)
    requires store.Valid()
    ensures entities.None? ==> IsReport(store.norm, store.log, groups) && ShowsAll(store.norm, store.log, groups)
    ensures entities.Some? ==> forall full :: IsReport(store.norm, store.log, full) ==>
      groups == Filter(InScope(store.norm, entities.value), full)
  {
    if entities.None? {
      var claims := store.AllClaims();
      groups := GroupConflicts(store.norm, claims);
    } else {
      var claims := Scoped(store, entities.value);
      groups := GroupConflicts(store.norm, claims);
      forall full | IsReport(store.norm, store.log, full) ensures groups == Filter(InScope(store.norm, entities.value), full) {
        ScopedReport(store.norm, store.log, entities.value, claims, full, groups);
      }
    }
  }

  // ---- Detection -----------------------------------------------------------------------

  function IsRival(norm: Normalizer, claim: Claim): Claim -> bool {
    (c: Claim) => c.id != claim.id && norm(c.value) != norm(claim.value)
  }

  /** The current claims found under the subject and predicate that disagree, oldest first. */
  function Rivals(norm: Normalizer, log: Log, claim: Claim, property: Option<Text>): seq<Claim> {
    Sort(OldestThenId(), Filter(IsRival(norm, claim), Current(log, norm, claim.subject, property)))
  }

  lemma RivalIff(norm: Normalizer, log: Log, claim: Claim, c: Claim)
    ensures c in Rivals(norm, log, claim, Some(claim.property))
       <==> c in log && c.IsCurrent() && KeyOf(norm, c) == KeyOf(norm, claim) && c.id != claim.id && norm(c.value) != norm(claim.value)
  {
    var property := Some(claim.property);
    SortKeepsElements(OldestThenId(), Filter(IsRival(norm, claim), Current(log, norm, claim.subject, property)), c);
    assert IsRival(norm, claim)(c) <==> c.id != claim.id && norm(c.value) != norm(claim.value);
    assert IsCurrentAbout(norm, claim.subject, property)(c) <==> c.IsCurrent() && KeyOf(norm, c) == KeyOf(norm, claim);
  }

  /** A stored current claim has a rival exactly when the full scan reports a group under its key. */
  lemma RivalIffReported(norm: Normalizer, log: Log, claim: Claim, report: seq<ConflictGroup>)
    requires DistinctIds(log) && claim in log && claim.IsCurrent() && IsReport(norm, log, report)
    ensures Rivals(norm, log, claim, Some(claim.property)) != []
       <==> exists g :: g in report && GroupKey(norm, g) == KeyOf(norm, claim)
  {
    hide Rivals, Members;
    var key := KeyOf(norm, claim);
    var rivals := Rivals(norm, log, claim, Some(claim.property));
    MemberIff(norm, log, key, claim);
    if rivals != [] {
      RivalIff(norm, log, claim, rivals[0]);
      MemberIff(norm, log, key, rivals[0]);
    }
    if Disagree(norm, Members(norm, log, key)) {
      var a, b :| a in Members(norm, log, key) && b in Members(norm, log, key) && norm(a.value) != norm(b.value);
      var other := if norm(a.value) != norm(claim.value) then a else b;
      MemberIff(norm, log, key, other);
      SameIdSameValue(norm, log, claim, other);
      RivalIff(norm, log, claim, other);
    }
    forall g | g in report ensures Reported(norm, log, g) {
    }
  }

  lemma SameIdSameValue(norm: Normalizer, log: Log, a: Claim, b: Claim)
    requires DistinctIds(log) && a in log && b in log && norm(a.value) != norm(b.value)
    ensures a.id != b.id
  {
    if a.id == b.id {
      SameIdSameClaim(log, a, b);
      assert false;
    }
  }

  /** Exactly the stored claims that are current, about the subject and the property (any, if it is the
      empty text), under another id and with another value, in time. */
  ghost predicate IsDisputedBy(norm: Normalizer, log: Log, claim: Claim, rivals: seq<Claim>) {
    && InTime(rivals)
    && forall c :: c in rivals <==>
         c in log && c.supersededBy.None? && c.id != claim.id && norm(c.subject) == norm(claim.subject)
         && (claim.property.chars == "" || norm(c.property) == norm(claim.property)) && norm(c.value) != norm(claim.value)
  }

  /** What detection answers: the claim against each stored claim that disputes it. */
  ghost predicate Detected(norm: Normalizer, log: Log, claim: Claim, found: seq<Contradiction>) {
    exists rivals :: IsDisputedBy(norm, log, claim, rivals) && |found| == |rivals|
      && forall k :: 0 <= k < |found| ==> found[k] == Contradiction(claim, rivals[k])
  }

  lemma RivalsDispute(norm: Normalizer, log: Log, claim: Claim)
    ensures IsDisputedBy(norm, log, claim, Rivals(norm, log, claim, Truthy(Some(claim.property))))
  {
    hide TextLe;
    var property := Truthy(Some(claim.property));
    var held := Filter(IsRival(norm, claim), Current(log, norm, claim.subject, property));
    ClaimOrder([]);
    SortSorts(OldestThenId(), held);
    forall c ensures c in Sort(OldestThenId(), held) <==>
      c in log && c.supersededBy.None? && c.id != claim.id && norm(c.subject) == norm(claim.subject)
      && (claim.property.chars == "" || norm(c.property) == norm(claim.property)) && norm(c.value) != norm(claim.value)
    {
      SortKeepsElements(OldestThenId(), held, c);
      assert IsRival(norm, claim)(c) <==> c.id != claim.id && norm(c.value) != norm(claim.value);
      CurrentMeans(log, norm, claim.subject, property, c);
    }
  }

  method Detect(store: MemoryStore, claim: Claim) returns (found: seq<Contradiction>)
    requires store.Valid()
    ensures Detected(store.norm, store.log, claim, found)
    ensures var rivals := Rivals(store.norm, store.log, claim, Truthy(Some(claim.property)));
      |found| == |rivals| && forall k :: 0 <= k < |found| ==> found[k] == Contradiction(claim, rivals[k])
    ensures claim in store.log && claim.IsCurrent() && claim.property.chars != "" ==>
      forall report :: IsReport(store.norm, store.log, report) ==>
        (found != [] <==> exists g :: g in report && GroupKey(store.norm, g) == KeyOf(store.norm, claim))
  {
    hide IsReport, IsDisputedBy, Filter, Sort, IsCurrentAbout;
    assert DistinctIds(store.log);
    RivalsDispute(store.norm, store.log, claim);
    var held := store.CurrentClaims(claim.subject, Some(claim.property));
    var rivals := Sort(OldestThenId(), Filter(IsRival(store.norm, claim), held));
    found := seq(|rivals|, k requires 0 <= k < |rivals| => Contradiction(claim, rivals[k]));
    if claim in store.log && claim.IsCurrent() && claim.property.chars != "" {
      forall report | IsReport(store.norm, store.log, report)
        ensures found != [] <==> exists g :: g in report && GroupKey(store.norm, g) == KeyOf(store.norm, claim)
      {
        RivalIffReported(store.norm, store.log, claim, report);
      }
    }
  }

  /** The claim is stored whatever it disagrees with, and the answer describes the store with it. */
  method AddAndDetect(store: MemoryStore, claim: Claim) returns (found: seq<Contradiction>)
    requires store.Valid()
    modifies store
    ensures store.Valid() && store.log == Put(old(store.log), claim)
    ensures Detected(store.norm, store.log, claim, found)
    ensures var rivals := Rivals(store.norm, store.log, claim, Truthy(Some(claim.property)));
      |found| == |rivals| && forall k :: 0 <= k < |found| ==> found[k] == Contradiction(claim, rivals[k])
  {
    store.Add(claim);
    found := Detect(store, claim);
  }

  // ---- Resolution ----------------------------------------------------------------------

  function Differs(norm: Normalizer, newest: Claim): Claim -> bool {
    (c: Claim) => norm(c.value) != norm(newest.value)
  }

  /** What each older member that disagrees with the newest is paired with the newest for. */
  function Disputed(norm: Normalizer, g: ConflictGroup): seq<Claim>
    requires g.claims != []
  {
    Filter(Differs(norm, g.claims[|g.claims| - 1]), g.claims[..|g.claims| - 1])
  }

  function Contradictions(norm: Normalizer, g: ConflictGroup): (r: seq<Contradiction>)
    requires g.claims != []
    ensures |r| == |Disputed(norm, g)|
    ensures forall k :: 0 <= k < |r| ==> r[k] == Contradiction(g.claims[|g.claims| - 1], Disputed(norm, g)[k])
  {
    var disputed := Disputed(norm, g);
    seq(|disputed|, k requires 0 <= k < |disputed| => Contradiction(g.claims[|g.claims| - 1], disputed[k]))
  }

  lemma DisagreeingPair(norm: Normalizer, claims: seq<Claim>, g: ConflictGroup)
    requires Reported(norm, claims, g)
    ensures exists a, b :: a in g.claims && b in g.claims && norm(a.value) != norm(b.value)
  {
    hide Members;
  }

  /** A reported group always has a pair to resolve. */
  lemma ReportedHasContradictions(norm: Normalizer, claims: seq<Claim>, g: ConflictGroup)
    requires Reported(norm, claims, g)
    ensures Contradictions(norm, g) != []
  {
    hide Members, Filter, Disagree;
    DisagreeingPair(norm, claims, g);
    var newest := g.claims[|g.claims| - 1];
    var a, b :| a in g.claims && b in g.claims && norm(a.value) != norm(b.value);
    var other := if norm(a.value) != norm(newest.value) then a else b;
    assert Differs(norm, newest)(other);
    assert other in g.claims[..|g.claims| - 1];
    assert other in Disputed(norm, g);
  }

  /** `after` is `before` with the first `done` disputed claims corrected, the k-th of them at `ticks[k]`,
      and nothing else touched. */
  ghost predicate PartlyResolved(before: Log, after: Log, newest: Claim, disputed: seq<Claim>, ticks: seq<Time>, done: nat)
    requires done <= |disputed| == |ticks|
  {
    && |after| == |before|
    && (forall q, k :: 0 <= q < |before| && 0 <= k < done && before[q] == disputed[k] ==>
          after[q] == Marked(before[q], newest.id, ticks[k]))
    && (forall q :: 0 <= q < |before| && before[q] !in disputed[..done] ==> after[q] == before[q])
  }

  /** Every correction of a group, each at its own tick. */
  ghost predicate GroupResolved(norm: Normalizer, before: Log, after: Log, g: ConflictGroup, ticks: seq<Time>)
    requires g.claims != [] && |ticks| == |Disputed(norm, g)|
  {
    PartlyResolved(before, after, g.claims[|g.claims| - 1], Disputed(norm, g), ticks, |ticks|)
  }

  lemma MarkedOrKept(before: Log, after: Log, newest: Claim, disputed: seq<Claim>, ticks: seq<Time>, done: nat, q: nat)
    requires done <= |disputed| == |ticks| && q < |before|
    requires PartlyResolved(before, after, newest, disputed, ticks, done)
    ensures before[q] in disputed[..done] ==> after[q].supersededBy == Some(newest.id) && after[q].id == before[q].id
    ensures before[q] !in disputed[..done] ==> after[q] == before[q]
  {
    if before[q] in disputed[..done] {
      var k :| 0 <= k < done && disputed[k] == before[q];
    }
  }

  ghost predicate CanResolve(log: Log, newest: Claim, disputed: seq<Claim>) {
    && DistinctIds(log) && Distinct(disputed)
    && newest in log && newest.IsCurrent() && newest !in disputed
    && forall c :: c in disputed ==> c in log && c.IsCurrent()
  }

  lemma LengthKept(before: Log, after: Log, newest: Claim, disputed: seq<Claim>, ticks: seq<Time>, done: nat)
    requires done <= |disputed| == |ticks| && PartlyResolved(before, after, newest, disputed, ticks, done)
    ensures |after| == |before|
  {
  }

  lemma PositionKept(before: Log, after: Log, newest: Claim, disputed: seq<Claim>, ticks: seq<Time>, done: nat, c: Claim)
    requires CanResolve(before, newest, disputed) && done <= |disputed| == |ticks|
    requires PartlyResolved(before, after, newest, disputed, ticks, done)
    requires c in before && c !in disputed[..done]
    ensures var p := Position(after, c.id); p < |after| == |before| && after[p] == before[p] == c
    ensures DistinctIds(after)
  {
    forall q | 0 <= q < |before| ensures after[q].id == before[q].id {
      MarkedOrKept(before, after, newest, disputed, ticks, done, q);
    }
    var p :| 0 <= p < |before| && before[p] == c;
    PositionUnique(after, p);
    PositionUnique(before, p);
  }

  /** The next pair is not refused. */
  lemma NextNotRefused(before: Log, after: Log, newest: Claim, disputed: seq<Claim>, ticks: seq<Time>, done: nat)
    requires CanResolve(before, newest, disputed) && done < |disputed| == |ticks|
    requires PartlyResolved(before, after, newest, disputed, ticks, done)
    ensures Outcome(after, Op.Supersede(disputed[done].id, newest)) == None
    ensures var c, p := disputed[done], Position(after, disputed[done].id);
      p < |after| == |before| && before[p] == c && Step(after, Op.Supersede(c.id, newest), ticks[done]) == after[p := Marked(c, newest.id, ticks[done])]
  {
    hide PartlyResolved;
    var c := disputed[done];
    assert c in disputed && c !in disputed[..done] && newest !in disputed[..done];
    PositionKept(before, after, newest, disputed, ticks, done, c);
    PositionKept(before, after, newest, disputed, ticks, done, newest);
    if c.id == newest.id {
      SameIdSameClaim(before, c, newest);
    }
    assert Put(after, newest) == after;
  }

  /** The next pair corrects just its claim. */
  lemma ResolveOne(before: Log, after: Log, newest: Claim, disputed: seq<Claim>, ticks: seq<Time>, done: nat)
    requires CanResolve(before, newest, disputed) && done < |disputed| == |ticks|
    requires PartlyResolved(before, after, newest, disputed, ticks, done)
    ensures Outcome(after, Op.Supersede(disputed[done].id, newest)) == None
    ensures PartlyResolved(before, Step(after, Op.Supersede(disputed[done].id, newest), ticks[done]),
                           newest, disputed, ticks, done + 1)
  {
    hide Outcome, Step, Position;
    NextNotRefused(before, after, newest, disputed, ticks, done);
    var c, p := disputed[done], Position(after, disputed[done].id);
    assert disputed[..done + 1] == disputed[..done] + [c];
    forall q | 0 <= q < |before| && before[q] == c ensures q == p {
      assert before[q].id == before[p].id;
    }
  }

  function OtherThan(norm: Normalizer, k: Key): ConflictGroup -> bool {
    (g: ConflictGroup) => GroupKey(norm, g) != k
  }

  lemma {:induction false} FilterPointwise<T>(p: T -> bool, xs: seq<T>, ys: seq<T>)
    requires |xs| == |ys| && forall q :: 0 <= q < |xs| ==> xs[q] == ys[q] || (!p(xs[q]) && !p(ys[q]))
    ensures Filter(p, xs) == Filter(p, ys)
  {
    if xs != [] {
      hide Filter;
      var n := |xs| - 1;
      FilterPointwise(p, xs[..n], ys[..n]);
      FilterFront(p, xs);
      FilterFront(p, ys);
    }
  }

  /** After every pair of a group: the key no longer disagrees, every other key is as it was. */
  lemma ResolvedMembers(norm: Normalizer, before: Log, after: Log, g: ConflictGroup, ticks: seq<Time>, k: Key)
    requires DistinctIds(before) && Reported(norm, before, g)
    requires |ticks| == |Disputed(norm, g)| && GroupResolved(norm, before, after, g, ticks)
    ensures k != GroupKey(norm, g) ==> Members(norm, after, k) == Members(norm, before, k)
    ensures k == GroupKey(norm, g) ==> !Disagree(norm, Members(norm, after, k))
  {
    hide Members, Disagree;
    if k == GroupKey(norm, g) {
      forall a | a in Members(norm, after, k) ensures norm(a.value) == norm(g.claims[|g.claims| - 1].value) {
        SurvivorAgrees(norm, before, after, g, ticks, a);
      }
      AllAlike(norm, Members(norm, after, k), norm(g.claims[|g.claims| - 1].value));
    } else {
      var p := WithKey(norm, k);
      forall q | 0 <= q < |before| ensures before[q] == after[q] || (!p(before[q]) && !p(after[q])) {
        DisputedIsMember(norm, before, g, before[q]);
        MarkedOrKept(before, after, g.claims[|g.claims| - 1], Disputed(norm, g), ticks, |ticks|, q);
      }
      FilterPointwise(p, after, before);
      SameFilterSameMembers(norm, before, after, k);
    }
  }

  lemma AllAlike(norm: Normalizer, members: seq<Claim>, value: Text)
    requires forall a :: a in members ==> norm(a.value) == value
    ensures !Disagree(norm, members)
  {
  }

  lemma SameFilterSameMembers(norm: Normalizer, before: Log, after: Log, k: Key)
    requires Filter(WithKey(norm, k), after) == Filter(WithKey(norm, k), before)
    ensures Members(norm, after, k) == Members(norm, before, k)
  {
  }

  lemma DisputedIsMember(norm: Normalizer, log: Log, g: ConflictGroup, c: Claim)
    requires Reported(norm, log, g)
    ensures c in Disputed(norm, g) ==> c in log && c.IsCurrent() && KeyOf(norm, c) == GroupKey(norm, g)
    ensures c in Disputed(norm, g) ==> norm(c.value) != norm(g.claims[|g.claims| - 1].value)
  {
    hide Members, Disagree;
    MemberIff(norm, log, GroupKey(norm, g), c);
    assert c in Disputed(norm, g) ==> Differs(norm, g.claims[|g.claims| - 1])(c);
  }

  lemma SurvivorAgrees(norm: Normalizer, before: Log, after: Log, g: ConflictGroup, ticks: seq<Time>, a: Claim)
    requires DistinctIds(before) && Reported(norm, before, g)
    requires |ticks| == |Disputed(norm, g)| && GroupResolved(norm, before, after, g, ticks)
    requires a in Members(norm, after, GroupKey(norm, g))
    ensures norm(a.value) == norm(g.claims[|g.claims| - 1].value)
  {
    hide Members, Disagree, PartlyResolved, Sort;
    var k, newest := GroupKey(norm, g), g.claims[|g.claims| - 1];
    assert |after| == |before| by { LengthKept(before, after, newest, Disputed(norm, g), ticks, |ticks|); }
    MemberIff(norm, after, k, a);
    var q :| 0 <= q < |after| && after[q] == a;
    assert Disputed(norm, g)[..|ticks|] == Disputed(norm, g);
    MarkedOrKept(before, after, newest, Disputed(norm, g), ticks, |ticks|, q);
    assert before[q] == a;
    MemberIff(norm, before, k, a);
    assert Differs(norm, newest)(a) <==> norm(a.value) != norm(newest.value);
  }

  lemma GroupCanResolve(norm: Normalizer, log: Log, g: ConflictGroup)
    requires DistinctIds(log) && Reported(norm, log, g)
    ensures CanResolve(log, g.claims[|g.claims| - 1], Disputed(norm, g))
  {
    var newest, p := g.claims[|g.claims| - 1], WithKey(norm, GroupKey(norm, g));
    MemberIff(norm, log, GroupKey(norm, g), newest);
    FilterDistinct(p, log);
    SortKeepsDistinct(OldestThenId(), Filter(p, log));
    FilterDistinct(Differs(norm, newest), g.claims[..|g.claims| - 1]);
    forall c | c in Disputed(norm, g) ensures c in log && c.IsCurrent() && c != newest {
      DisputedIsMember(norm, log, g, c);
    }
  }

  lemma ReportWithout(norm: Normalizer, before: Log, after: Log, k: Key, report: seq<ConflictGroup>)
    requires IsReport(norm, before, report)
    requires forall j :: j != k ==> Members(norm, after, j) == Members(norm, before, j)
    requires !Disagree(norm, Members(norm, after, k))
    ensures IsReport(norm, after, Filter(OtherThan(norm, k), report))
  {
    hide Members, Disagree, KeyLe;
    var rest := Filter(OtherThan(norm, k), report);
    FilterSorted(ByKey(norm), OtherThan(norm, k), report);
    FilterDistinct(OtherThan(norm, k), report);
    forall g | g in rest ensures Reported(norm, after, g) {
      assert Reported(norm, before, g) && OtherThan(norm, k)(g);
    }
    forall j | Disagree(norm, Members(norm, after, j)) ensures exists g :: g in rest && GroupKey(norm, g) == j {
      var g :| g in report && GroupKey(norm, g) == j;
      assert OtherThan(norm, k)(g);
    }
  }

  /** Supersede each pair's existing claim with its incoming one. */
  method ResolvePairs(store: MemoryStore, pairs: seq<Contradiction>, newest: Claim, ghost disputed: seq<Claim>,
                      ticks: seq<Time>) returns (refused: seq<Option<Refusal>>)
    requires store.Valid() && CanResolve(store.log, newest, disputed)
    requires |pairs| == |disputed| == |ticks|
    requires forall k :: 0 <= k < |pairs| ==> pairs[k] == Contradiction(newest, disputed[k])
    modifies store
    ensures store.Valid()
    ensures |refused| == |ticks| && forall r :: r in refused ==> r == None
    ensures PartlyResolved(old(store.log), store.log, newest, disputed, ticks, |disputed|)
  {
    hide MemoryStore.Valid, CanResolve, Step, Outcome;
    refused := [];
    ghost var before := store.log;
    for k := 0 to |pairs|
      invariant store.Valid() && |refused| == k && forall r :: r in refused ==> r == None
      invariant PartlyResolved(before, store.log, newest, disputed, ticks, k)
    {
      ResolveOne(before, store.log, newest, disputed, ticks, k);
      var r := store.Supersede(pairs[k].existing.id, pairs[k].incoming, ticks[k]);
      refused := refused + [r];
    }
  }

  lemma ResolvedReport(norm: Normalizer, before: Log, after: Log, g: ConflictGroup, ticks: seq<Time>, report: seq<ConflictGroup>)
    requires DistinctIds(before) && Reported(norm, before, g) && IsReport(norm, before, report)
    requires |ticks| == |Disputed(norm, g)| && GroupResolved(norm, before, after, g, ticks)
    ensures IsReport(norm, after, Filter(OtherThan(norm, GroupKey(norm, g)), report))
  {
    hide IsReport, GroupResolved, Members, Disagree, Disputed;
    forall k ensures k != GroupKey(norm, g) ==> Members(norm, after, k) == Members(norm, before, k) {
      ResolvedMembers(norm, before, after, g, ticks, k);
    }
    ResolvedMembers(norm, before, after, g, ticks, GroupKey(norm, g));
    ReportWithout(norm, before, after, GroupKey(norm, g), report);
  }

  /** The newest claim of the group, the last by id of those observed last, is kept, and so is everything
      that agrees with it or is outside the group; every other claim of the group stays in its place with
      its content, marked with the newest and one of the ticks. */
  ghost predicate NewestKept(norm: Normalizer, before: Log, after: Log, g: ConflictGroup, newest: Claim, ticks: seq<Time>) {
    && newest in g.claims
    && (forall c :: c in g.claims ==>
          c.observedAt < newest.observedAt || (c.observedAt == newest.observedAt && TextLe(c.id, newest.id)))
    && |after| == |before|
    && forall q :: 0 <= q < |before| ==>
         if before[q] in g.claims && norm(before[q].value) != norm(newest.value)
         then after[q].supersededAt.Some? && after[q].supersededAt.value in ticks
              && after[q] == before[q].(supersededBy := Some(newest.id), supersededAt := after[q].supersededAt)
         else after[q] == before[q]
  }

  lemma LastIsNewest(claims: seq<Claim>, c: Claim)
    requires InTime(claims) && c in claims
    ensures var newest := claims[|claims| - 1];
      c.observedAt < newest.observedAt || (c.observedAt == newest.observedAt && TextLe(c.id, newest.id))
  {
    hide TextLe;
    TextOrder();
    var k :| 0 <= k < |claims| && claims[k] == c;
  }

  lemma DisputedIff(norm: Normalizer, g: ConflictGroup, c: Claim)
    requires g.claims != []
    ensures c in Disputed(norm, g) <==> c in g.claims && norm(c.value) != norm(g.claims[|g.claims| - 1].value)
  {
    var n := |g.claims| - 1;
    assert Differs(norm, g.claims[n])(c) <==> norm(c.value) != norm(g.claims[n].value);
    assert c in g.claims && c != g.claims[n] ==> c in g.claims[..n];
  }

  lemma ResolvedAt(before: Log, after: Log, newest: Claim, disputed: seq<Claim>, ticks: seq<Time>, q: nat)
    requires |disputed| == |ticks| && q < |before| && PartlyResolved(before, after, newest, disputed, ticks, |ticks|)
    ensures |after| == |before|
    ensures if before[q] in disputed
            then after[q].supersededAt.Some? && after[q].supersededAt.value in ticks
                 && after[q] == before[q].(supersededBy := Some(newest.id), supersededAt := after[q].supersededAt)
            else after[q] == before[q]
  {
    assert disputed[..|ticks|] == disputed;
    if before[q] in disputed {
      var k :| 0 <= k < |disputed| && disputed[k] == before[q];
      assert ticks[k] in ticks;
    }
  }

  lemma ResolvedKeepsNewest(norm: Normalizer, before: Log, after: Log, g: ConflictGroup, ticks: seq<Time>)
    requires Reported(norm, before, g)
    requires |ticks| == |Disputed(norm, g)| && GroupResolved(norm, before, after, g, ticks)
    ensures NewestKept(norm, before, after, g, g.claims[|g.claims| - 1], ticks)
  {
    hide Members, Disagree, Reported, TextLe, InTime, PartlyResolved, Disputed;
    ReportedIsGroup(norm, before, g);
    var newest, disputed := g.claims[|g.claims| - 1], Disputed(norm, g);
    forall c | c in g.claims
      ensures c.observedAt < newest.observedAt || (c.observedAt == newest.observedAt && TextLe(c.id, newest.id))
    {
      LastIsNewest(g.claims, c);
    }
    LengthKept(before, after, newest, disputed, ticks, |ticks|);
    forall q | 0 <= q < |before|
      ensures if before[q] in g.claims && norm(before[q].value) != norm(newest.value)
              then after[q].supersededAt.Some? && after[q].supersededAt.value in ticks
                   && after[q] == before[q].(supersededBy := Some(newest.id), supersededAt := after[q].supersededAt)
              else after[q] == before[q]
    {
      DisputedIff(norm, g, before[q]);
      ResolvedAt(before, after, newest, disputed, ticks, q);
    }
  }

  /** Resolve a reported group pair by pair in favour of its newest claim. No pair is refused; each
      corrected claim stays with its provenance, marked with the newest claim and its own tick; and the
      report loses exactly this group. */
  method Resolve(store: MemoryStore, g: ConflictGroup, ticks: seq<Time>) returns (refused: seq<Option<Refusal>>)
    requires store.Valid() && Reported(store.norm, store.log, g)
    requires |ticks| == |Contradictions(store.norm, g)|
    modifies store
    ensures store.Valid()
    ensures |refused| == |ticks| && forall r :: r in refused ==> r == None
    ensures GroupResolved(store.norm, old(store.log), store.log, g, ticks)
    ensures exists newest :: NewestKept(store.norm, old(store.log), store.log, g, newest, ticks)
    ensures forall report :: IsReport(store.norm, old(store.log), report) ==>
      IsReport(store.norm, store.log, Filter(OtherThan(store.norm, GroupKey(store.norm, g)), report))
  {
    hide IsReport, Disagree, Sort, Filter, PartlyResolved, Disputed, CanResolve, NewestKept;
    ghost var before := store.log;
    GroupCanResolve(store.norm, before, g);
    refused := ResolvePairs(store, Contradictions(store.norm, g), g.claims[|g.claims| - 1], Disputed(store.norm, g), ticks);
    ResolvedKeepsNewest(store.norm, before, store.log, g, ticks);
    forall report | IsReport(store.norm, before, report)
      ensures IsReport(store.norm, store.log, Filter(OtherThan(store.norm, GroupKey(store.norm, g)), report))
    {
      ResolvedReport(store.norm, before, store.log, g, ticks, report);
    }
  }

  // ---- Stale pairs ---------------------------------------------------------------------

  ghost predicate NotWritten(ops: seq<Op>, i: Id) {
    forall op :: op in ops ==> Written(op).id != i
  }

  lemma SupersededStays(log: Log, op: Op, at: Time, i: Id)
    requires DistinctIds(log) && Get(log, i).Some? && !Get(log, i).value.IsCurrent() && Written(op).id != i
    ensures Get(Step(log, op, at), i) == Get(log, i)
  {
    if Outcome(log, op).None? {
      match op
      case Add(c) => GetPut(log, c, i);
      case Supersede(oldId, c) => CorrectionKeepsProvenance(log, oldId, c, at);
    }
  }

  /** A superseded claim stays as it is until its id is written again. */
  lemma {:induction false} SupersededUntilWritten(log: Log, ops: seq<Op>, ticks: seq<Time>, k: nat, i: Id)
    requires DistinctIds(log) && k <= |ops| == |ticks| && NotWritten(ops[k..], i)
    requires Get(RunFrom(log, ops[..k], ticks[..k]), i).Some? && !Get(RunFrom(log, ops[..k], ticks[..k]), i).value.IsCurrent()
    ensures Get(RunFrom(log, ops, ticks), i) == Get(RunFrom(log, ops[..k], ticks[..k]), i)
    decreases |ops|
  {
    hide Get, Step;
    if k == |ops| {
      assert ops[..k] == ops && ticks[..k] == ticks;
    } else {
      var n := |ops| - 1;
      assert ops[..n][..k] == ops[..k] && ticks[..n][..k] == ticks[..k];
      assert ops[k..][n - k] == ops[n] && ops[..n][k..] == ops[k..][..n - k];
      SupersededUntilWritten(log, ops[..n], ticks[..n], k, i);
      RunKeepsDistinct(log, ops[..n], ticks[..n]);
      SupersededStays(RunFrom(log, ops[..n], ticks[..n]), ops[n], ticks[n], i);
    }
  }

  /** Once a pair's existing claim has been superseded, by anything, resolving the pair is refused at
      every later point of the run, names that superseder and changes nothing, until the claim's id is
      written again. */
  lemma StalePairIsRefused(log: Log, ops: seq<Op>, ticks: seq<Time>, k: nat, pair: Contradiction, superseder: Id, at: Time)
    requires DistinctIds(log) && k <= |ops| == |ticks| && NotWritten(ops[k..], pair.existing.id)
    requires Get(RunFrom(log, ops[..k], ticks[..k]), pair.existing.id).Some?
    requires Get(RunFrom(log, ops[..k], ticks[..k]), pair.existing.id).value.supersededBy == Some(superseder)
    ensures var end, resolve := RunFrom(log, ops, ticks), Op.Supersede(pair.existing.id, pair.incoming);
      Outcome(end, resolve) == Some(AlreadySuperseded(superseder)) && Step(end, resolve, at) == end
  {
    SupersededUntilWritten(log, ops, ticks, k, pair.existing.id);
  }

  lemma CorrectionMarks(log: Log, op: Op, at: Time)
    requires DistinctIds(log) && op.Supersede? && Outcome(log, op).None?
    ensures Get(Step(log, op, at), op.oldId).Some?
    ensures Get(Step(log, op, at), op.oldId).value.supersededBy == Some(op.newClaim.id)
  {
    hide Get, Corrected;
    CorrectionKeepsProvenance(log, op.oldId, op.newClaim, at);
  }

  /** A correction that was not refused makes every pair about the claim stale. */
  lemma CorrectionMakesStale(log: Log, ops: seq<Op>, ticks: seq<Time>, k: nat, pair: Contradiction, at: Time)
    requires DistinctIds(log) && k < |ops| == |ticks| && NotWritten(ops[k + 1..], pair.existing.id)
    requires ops[k].Supersede? && ops[k].oldId == pair.existing.id
    requires Outcome(RunFrom(log, ops[..k], ticks[..k]), ops[k]).None?
    ensures var end, resolve := RunFrom(log, ops, ticks), Op.Supersede(pair.existing.id, pair.incoming);
      Outcome(end, resolve) == Some(AlreadySuperseded(ops[k].newClaim.id)) && Step(end, resolve, at) == end
  {
    hide Get, Step, Outcome, RunFrom;
    RunKeepsDistinct(log, ops[..k], ticks[..k]);
    RunOneMore(log, ops, ticks, k);
    CorrectionMarks(RunFrom(log, ops[..k], ticks[..k]), ops[k], ticks[k]);
    StalePairIsRefused(log, ops, ticks, k + 1, pair, ops[k].newClaim.id, at);
  }
}
