/** The two artifact stores: dictionaries in memory, and rows with blob files (grapharc/memory/artifacts.py). */
module ArtifactStores {
  import opened Options
  import opened Seqs
  import opened Sorting
  import opened Texts
  import opened Claims
  import opened Artifacts

  // ---- The contract over the ledger ----------------------------------------------------

  /** What a put answers: the errors of preparing it, a repeated id, or the artifact. */
  function Answer(o: Outside, rows: seq<Artifact>, r: Request, id: Id, now: Time): (answer: Prepared)
    ensures answer == Bad(EmptyName) <==> o.blank(r.name)
    ensures answer == Bad(EmptySource) <==> !o.blank(r.name) && o.blank(r.source)
    ensures answer == Bad(RepeatedId) <==> !o.blank(r.name) && !o.blank(r.source) && exists a :: a in rows && a.id == id
  {
    var p := Prepare(o, r, id, now);
    if p.Good? && HasRow(rows, id) then Bad(RepeatedId) else p
  }

  function OldestVersion(): (Artifact, Artifact) -> bool {
    (a: Artifact, b: Artifact) => a.createdAt < b.createdAt || (a.createdAt == b.createdAt && TextLe(a.id, b.id))
  }

  function IsNamed(name: Text): Artifact -> bool { (a: Artifact) => a.name == name }

  function IsFrom(run: Text): Artifact -> bool { (a: Artifact) => a.runId == Some(run) }

  function VersionsOf(rows: seq<Artifact>, name: Text): seq<Artifact> {
    Sort(OldestVersion(), Filter(IsNamed(name), rows))
  }

  function LastOf(versions: seq<Artifact>): Option<Artifact> {
    if versions == [] then None else Some(versions[|versions| - 1])
  }

  ghost predicate DistinctRows(rows: seq<Artifact>) {
    forall i, j :: 0 <= i < j < |rows| ==> rows[i].id != rows[j].id
  }

  lemma VersionOrder(rows: seq<Artifact>)
    requires DistinctRows(rows)
    ensures TotalPreorder(OldestVersion()) && Antisymmetric(OldestVersion(), rows)
  {
    hide TextLe;
    TextOrder();
  }

  /** Exactly the stored artifacts of that name, each once: the older before the newer, those of one time
      in the order of their ids. */
  ghost predicate ListsVersions(rows: seq<Artifact>, name: Text, versions: seq<Artifact>) {
    && (forall a :: a in versions <==> a in rows && a.name == name)
    && forall i, j :: 0 <= i < j < |versions| ==>
         versions[i].createdAt < versions[j].createdAt
         || (versions[i].createdAt == versions[j].createdAt && versions[i].id != versions[j].id
             && TextLe(versions[i].id, versions[j].id))
  }

  /** There is a latest version when there is an artifact of that name, and none of them is newer. */
  ghost predicate IsNewest(rows: seq<Artifact>, name: Text, latest: Option<Artifact>) {
    && (latest.Some? <==> exists a :: a in rows && a.name == name)
    && (latest.Some? ==>
          && latest.value in rows && latest.value.name == name
          && forall a :: a in rows && a.name == name ==>
               a.createdAt < latest.value.createdAt || (a.createdAt == latest.value.createdAt && TextLe(a.id, latest.value.id)))
  }

  lemma VersionsAreListed(rows: seq<Artifact>, name: Text)
    requires DistinctRows(rows)
    ensures ListsVersions(rows, name, VersionsOf(rows, name))
  {
    hide TextLe;
    var found, versions := Filter(IsNamed(name), rows), VersionsOf(rows, name);
    VersionOrder(rows);
    SortSorts(OldestVersion(), found);
    forall a ensures a in versions <==> a in rows && a.name == name {
      SortKeepsElements(OldestVersion(), found, a);
      assert IsNamed(name)(a) <==> a.name == name;
    }
    DistinctAreDistinct(rows);
    FilterDistinct(IsNamed(name), rows);
    SortKeepsDistinct(OldestVersion(), found);
    forall i, j | 0 <= i < j < |versions| ensures versions[i].id != versions[j].id {
      assert versions[i] in rows && versions[j] in rows;
    }
  }

  lemma DistinctAreDistinct(rows: seq<Artifact>)
    requires DistinctRows(rows)
    ensures Distinct(rows) && forall a, b :: a in rows && b in rows && a.id == b.id ==> a == b
  {
  }

  lemma LatestIsNewest(rows: seq<Artifact>, name: Text)
    requires DistinctRows(rows)
    ensures IsNewest(rows, name, LastOf(VersionsOf(rows, name)))
  {
    hide TextLe, VersionsOf;
    TextOrder();
    VersionsAreListed(rows, name);
    var versions := VersionsOf(rows, name);
    if a :| a in rows && a.name == name {
      assert a in versions;
    }
    if versions != [] {
      assert versions[|versions| - 1] in versions;
      forall a | a in rows && a.name == name
        ensures a.createdAt < versions[|versions| - 1].createdAt
          || (a.createdAt == versions[|versions| - 1].createdAt && TextLe(a.id, versions[|versions| - 1].id))
      {
        assert a in versions;
      }
    }
  }

  /** Rows that come back in any order have the same versions: the order does not depend on insertion. */
  lemma VersionsIgnoreInsertion(rows: seq<Artifact>, rows': seq<Artifact>, name: Text)
    requires DistinctRows(rows) && multiset(rows) == multiset(rows')
    ensures VersionsOf(rows, name) == VersionsOf(rows', name)
  {
    VersionOrder(rows);
    FilterPermutes(IsNamed(name), rows, rows');
    assert Antisymmetric(OldestVersion(), Filter(IsNamed(name), rows));
    SortIgnoresOrder(OldestVersion(), Filter(IsNamed(name), rows), Filter(IsNamed(name), rows'));
  }

  /** The bytes that were put under the id, or unknown if nothing was. */
  ghost predicate ReadsEntry(ledger: Ledger, id: Id, r: ReadResult) {
    && (r == UnknownArtifact <==> forall e :: e in ledger ==> e.artifact.id != id)
    && (forall e :: e in ledger && e.artifact.id == id ==> r == Read(e.payload))
  }

  lemma LedgerReads(ledger: Ledger, id: Id)
    requires DistinctRows(RowsOf(ledger))
    ensures ReadsEntry(ledger, id, ReadLedger(ledger, id))
  {
    var rows := RowsOf(ledger);
    var p := RowPosition(rows, id);
    forall e | e in ledger && e.artifact.id == id ensures p < |ledger| && ledger[p] == e {
      var k :| 0 <= k < |ledger| && ledger[k] == e;
      assert rows[k] == e.artifact && rows[k].id == id;
    }
    assert p < |ledger| ==> ledger[p] in ledger && rows[p] == ledger[p].artifact;
  }

  // ---- In memory -----------------------------------------------------------------------

  ghost predicate RowsRemembered(artifacts: map<Id, Artifact>, order: seq<Id>, ledger: Ledger) {
    && |order| == |ledger|
    && DistinctRows(RowsOf(ledger))
    && (forall k :: 0 <= k < |ledger| ==> order[k] == ledger[k].artifact.id && order[k] in artifacts
                                          && artifacts[order[k]] == ledger[k].artifact)
    && (forall i :: i in artifacts ==> HasRow(RowsOf(ledger), i))
  }

  ghost predicate BytesRemembered(hash: Bytes -> Digest, blobs: map<Digest, Bytes>, ledger: Ledger) {
    forall k :: 0 <= k < |ledger| ==> ledger[k].artifact.sha256 in blobs && blobs[ledger[k].artifact.sha256] == ledger[k].payload
                                      && ledger[k].artifact.sha256 == hash(ledger[k].payload)
  }

  ghost predicate Remembers(hash: Bytes -> Digest, artifacts: map<Id, Artifact>, order: seq<Id>,
                            blobs: map<Digest, Bytes>, ledger: Ledger) {
    RowsRemembered(artifacts, order, ledger) && BytesRemembered(hash, blobs, ledger)
  }

  lemma Remembered(hash: Bytes -> Digest, artifacts: map<Id, Artifact>, order: seq<Id>,
                   blobs: map<Digest, Bytes>, ledger: Ledger, a: Artifact, payload: Bytes)
    requires Injective(hash) && Remembers(hash, artifacts, order, blobs, ledger)
    requires a.id !in artifacts && a.sha256 == hash(payload)
    ensures Remembers(hash, artifacts[a.id := a], order + [a.id], blobs[a.sha256 := payload], ledger + [Entry(a, payload)])
    ensures !HasRow(RowsOf(ledger), a.id)
  {
    hide RowsRemembered;
    RowRemembered(artifacts, order, ledger, a, payload);
  }

  lemma RowRemembered(artifacts: map<Id, Artifact>, order: seq<Id>, ledger: Ledger, a: Artifact, payload: Bytes)
    requires RowsRemembered(artifacts, order, ledger) && a.id !in artifacts
    ensures RowsRemembered(artifacts[a.id := a], order + [a.id], ledger + [Entry(a, payload)])
    ensures !HasRow(RowsOf(ledger), a.id)
  {
    var ledger' := ledger + [Entry(a, payload)];
    assert RowsOf(ledger') == RowsOf(ledger) + [a];
    forall i | i in artifacts || i == a.id ensures HasRow(RowsOf(ledger'), i) {
      if i == a.id {
        assert RowsOf(ledger')[|ledger|].id == i;
      } else {
        var k :| 0 <= k < |RowsOf(ledger)| && RowsOf(ledger)[k].id == i;
        assert RowsOf(ledger')[k].id == i;
      }
    }
  }

  class MemoryArtifactStore {
    const o: Outside
    var artifacts: map<Id, Artifact>
    var order: seq<Id>
    var blobs: map<Digest, Bytes>
    ghost var ledger: Ledger

    ghost predicate Valid()
      reads this
    {
      Injective(o.hash) && Remembers(o.hash, artifacts, order, blobs, ledger)
    }

    constructor (o: Outside)
      requires Injective(o.hash)
      ensures Valid() && ledger == [] && this.o == o
    {
      this.o, artifacts, order, blobs, ledger := o, map[], [], map[], [];
    }

    function Values(): (r: seq<Artifact>)
      requires Valid()
      reads this
      ensures r == RowsOf(ledger)
    {
      seq(|order|, k requires 0 <= k < |order| && Valid() reads this => artifacts[order[k]])
    }

    lemma Lookup(id: Id)
      requires Valid()
      ensures id in artifacts <==> HasRow(RowsOf(ledger), id)
      ensures id in artifacts ==> var p := RowPosition(RowsOf(ledger), id);
        p < |ledger| && artifacts[id] == ledger[p].artifact
    {
      var rows := RowsOf(ledger);
      if HasRow(rows, id) {
        var k :| 0 <= k < |rows| && rows[k].id == id;
        assert order[k] == id;
        assert RowPosition(rows, id) == k;
      }
    }

    method Put(r: Request, id: Id, now: Time) returns (p: Prepared)
      requires Valid()
      modifies this
      ensures Valid() && p == Answer(o, old(RowsOf(ledger)), r, id, now)
      ensures ledger == if p.Good? then old(ledger) + [Entry(p.artifact, p.payload)] else old(ledger)
    {
      p := Prepare(o, r, id, now);
      Lookup(id);
      if p.Good? {
        if id in artifacts {
          p := Bad(RepeatedId);
        } else {
          Remembered(o.hash, artifacts, order, blobs, ledger, p.artifact, p.payload);
          blobs := blobs[p.artifact.sha256 := p.payload];
          artifacts, order := artifacts[id := p.artifact], order + [id];
          ledger := ledger + [Entry(p.artifact, p.payload)];
        }
      }
    }

    method ReadBytes(id: Id) returns (r: ReadResult)
      requires Valid()
      ensures r == ReadLedger(ledger, id) && ReadsEntry(ledger, id, r)
    {
      Lookup(id);
      LedgerReads(ledger, id);
      if id !in artifacts {
        r := UnknownArtifact;
      } else {
        r := Read(blobs[artifacts[id].sha256]);
      }
    }

    method Versions(name: Text) returns (r: seq<Artifact>)
      requires Valid()
      ensures r == VersionsOf(RowsOf(ledger), name) && ListsVersions(RowsOf(ledger), name, r)
    {
      hide ListsVersions;
      VersionsAreListed(RowsOf(ledger), name);
      r := Sort(OldestVersion(), Filter(IsNamed(name), Values()));
    }

    method Latest(name: Text) returns (r: Option<Artifact>)
      requires Valid()
      ensures r == LastOf(VersionsOf(RowsOf(ledger), name)) && IsNewest(RowsOf(ledger), name, r)
    {
      hide ListsVersions, IsNewest;
      LatestIsNewest(RowsOf(ledger), name);
      var found := Versions(name);
      r := if found != [] then Some(found[|found| - 1]) else None;
    }

    method ByRun(run: Text) returns (r: seq<Artifact>)
      requires Valid()
      ensures r == Filter(IsFrom(run), RowsOf(ledger))
      ensures forall a :: a in r <==> a in RowsOf(ledger) && a.runId == Some(run)
    {
      r := Filter(IsFrom(run), Values());
    }

    method AllArtifacts() returns (r: seq<Artifact>)
      requires Valid()
      ensures r == RowsOf(ledger)
    {
      r := Values();
    }
  }

  // ---- On disk -------------------------------------------------------------------------

  /** Events of other attempts: they never act on `t`, and a crash takes other processes only. */
  predicate SparesToken(t: Token, e: Event) {
    if e.Crash? then t !in e.tokens else e.token != t
  }

  predicate Undisturbed(others: seq<seq<Event>>) {
    forall k :: 0 <= k < |others| ==> others[k] == []
  }

  class SqliteArtifactStore {
    const o: Outside
    var disk: Disk
    ghost var ledger: Ledger
    ghost var events: seq<Event>

    ghost predicate Valid()
      reads this
    {
      Injective(o.hash) && World(disk, ledger) == Run(o.hash, events)
    }

    constructor (o: Outside)
      requires Injective(o.hash)
      ensures Valid() && ledger == [] && this.o == o
    {
      this.o, disk, ledger, events := o, Disk([], map[], map[], map[]), [], [];
    }

    method Perform(e: Event)
      requires Valid() && Enabled(o.hash, disk, e)
      modifies this
      ensures Valid() && disk == Apply(o.hash, old(disk), e) && events == old(events) + [e]
      ensures ledger == Record(old(ledger), old(disk), e) && old(ledger) <= ledger
    {
      hide Apply, Enabled, Run;
      RunTo(o.hash, events, e);
      ledger := Record(ledger, disk, e);
      disk := Apply(o.hash, disk, e);
      events := events + [e];
    }

    /** Whatever other writers do meanwhile, in any order, and whichever of them crash. */
    method Meanwhile(others: seq<Event>, t: Token)
      requires Valid() && forall e :: e in others ==> SparesToken(t, e)
      modifies this
      ensures Valid() && old(ledger) <= ledger
      ensures t in disk.writers <==> t in old(disk).writers
      ensures t in disk.writers ==> disk.writers[t] == old(disk).writers[t]
      ensures others == [] ==> ledger == old(ledger)
    {
      hide Valid, Run;
      for k := 0 to |others|
        invariant Valid() && old(ledger) <= ledger
        invariant t in disk.writers <==> t in old(disk).writers
        invariant t in disk.writers ==> disk.writers[t] == old(disk).writers[t]
        invariant others == [] ==> ledger == old(ledger)
      {
        assert others[k] in others;
        if Enabled(o.hash, disk, others[k]) {
          Perform(others[k]);
        }
      }
    }

    lemma RowsStand()
      requires Valid()
      ensures RowsOf(ledger) == disk.rows && DistinctRows(disk.rows)
    {
      RunIsSound(o.hash, events);
      assert forall k :: 0 <= k < |ledger| ==> RowsOf(ledger)[k] == ledger[k].artifact;
    }

    lemma Facts(t: Token)
      requires Valid()
      ensures RowsOf(ledger) == disk.rows && DistinctRows(disk.rows)
      ensures t in disk.writers && disk.writers[t].phase.Writing? ==> t in disk.temps
    {
      RowsStand();
      RunIsSound(o.hash, events);
      assert t in disk.writers ==> WriterFine(o.hash, disk, t, disk.writers[t]);
    }

    /** Place the content, while others work between any two steps. */
    method WriteBlob(t: Token, payload: Bytes, others: seq<seq<Event>>)
      requires Valid() && t in disk.writers && disk.writers[t].payload == payload && disk.writers[t].phase == Begun
      requires |others| == 3 && forall k, e :: 0 <= k < 3 && e in others[k] ==> SparesToken(t, e)
      modifies this
      ensures Valid() && old(ledger) <= ledger
      ensures t in disk.writers && disk.writers[t] == old(disk).writers[t].(phase := Placed)
      ensures Undisturbed(others) ==> ledger == old(ledger)
    {
      hide Valid, Run;
      Perform(CheckExists(t));
      Meanwhile(others[0], t);
      if disk.writers[t].phase == Placed {
        return;
      }
      Perform(Write(t, |payload|));
      Meanwhile(others[1], t);
      Facts(t);
      Perform(Replace(t));
      Meanwhile(others[2], t);
    }

    /** A put among other writers: what it returns can be read back, a repeated id is refused, and no
        recorded put is disturbed. */
    method Put(r: Request, id: Id, now: Time, t: Token, others: seq<seq<Event>>) returns (p: Prepared)
      requires Valid() && t !in disk.writers && t !in disk.temps
      requires |others| == 4 && forall k, e :: 0 <= k < 4 && e in others[k] ==> SparesToken(t, e)
      modifies this
      ensures Valid() && old(ledger) <= ledger
      ensures Prepare(o, r, id, now).Bad? ==> p == Prepare(o, r, id, now) && disk == old(disk)
      ensures Prepare(o, r, id, now).Good? ==> p == Prepare(o, r, id, now) || p == Bad(RepeatedId)
      ensures p.Good? ==> ledger != [] && ledger[|ledger| - 1] == Entry(p.artifact, p.payload)
      ensures p.Good? ==> ReadDisk(disk, id) == Read(p.payload)
      ensures p == Bad(RepeatedId) ==> HasRow(disk.rows, id)
      ensures Undisturbed(others) ==> p == Answer(o, old(RowsOf(ledger)), r, id, now)
      ensures Undisturbed(others) ==> ledger == old(ledger) + if p.Good? then [Entry(p.artifact, p.payload)] else []
    {
      hide Valid, Run, Apply, ReadDisk;
      p := Prepare(o, r, id, now);
      if p.Good? {
        Start(t, p.artifact, p.payload);
        Meanwhile(others[0], t);
        WriteBlob(t, p.payload, others[1..]);
        Facts(t);
        if HasRow(disk.rows, id) {
          Perform(Insert(t));
          Facts(t);
          p := Bad(RepeatedId);
        } else {
          Commit(t);
        }
      }
    }

    method Start(t: Token, a: Artifact, payload: Bytes)
      requires Valid() && t !in disk.writers && t !in disk.temps && a.sha256 == o.hash(payload) && a.sizeBytes == |payload|
      modifies this
      ensures Valid() && old(ledger) <= ledger
      ensures t in disk.writers && disk.writers[t] == Writer(a, payload, Begun) && ledger == old(ledger)
    {
      hide Valid, Run;
      Perform(Begin(t, a, payload));
    }

    method Commit(t: Token)
      requires Valid() && At(disk, t) == Some(Placed) && !HasRow(disk.rows, disk.writers[t].artifact.id)
      modifies this
      ensures Valid() && ledger == old(ledger) + [Entry(old(disk).writers[t].artifact, old(disk).writers[t].payload)]
      ensures ReadDisk(disk, old(disk).writers[t].artifact.id) == Read(old(disk).writers[t].payload)
    {
      hide Run, Apply, ReadDisk;
      PutThenRead(o.hash, events, [], t);
      assert events + [Insert(t)] + [] == events + [Insert(t)];
      Perform(Insert(t));
    }

    // ---- Queries -----------------------------------------------------------------------

    method ReadBytes(id: Id) returns (r: ReadResult)
      requires Valid()
      ensures r == ReadLedger(ledger, id) && ReadsEntry(ledger, id, r)
    {
      hide Run, DistinctRows, ReadsEntry;
      RowsStand();
      LedgerReads(ledger, id);
      r := ReadDisk(disk, id);
      ReadsBack(o.hash, events, id);
    }

    method Versions(name: Text) returns (r: seq<Artifact>)
      requires Valid()
      ensures r == VersionsOf(RowsOf(ledger), name) && ListsVersions(RowsOf(ledger), name, r)
    {
      hide ListsVersions, DistinctRows, Run;
      RowsStand();
      VersionsAreListed(RowsOf(ledger), name);
      r := Sort(OldestVersion(), Filter(IsNamed(name), disk.rows));
    }

    method Latest(name: Text) returns (r: Option<Artifact>)
      requires Valid()
      ensures r == LastOf(VersionsOf(RowsOf(ledger), name)) && IsNewest(RowsOf(ledger), name, r)
    {
      hide ListsVersions, IsNewest, DistinctRows, Run;
      RowsStand();
      LatestIsNewest(RowsOf(ledger), name);
      var found := Versions(name);
      r := if found != [] then Some(found[|found| - 1]) else None;
    }

    method ByRun(run: Text) returns (r: seq<Artifact>)
      requires Valid()
      ensures r == Filter(IsFrom(run), RowsOf(ledger))
      ensures forall a :: a in r <==> a in RowsOf(ledger) && a.runId == Some(run)
    {
      hide DistinctRows, Run;
      RowsStand();
      r := Filter(IsFrom(run), disk.rows);
    }

    method AllArtifacts() returns (r: seq<Artifact>)
      requires Valid()
      ensures r == RowsOf(ledger)
    {
      hide DistinctRows, Run;
      RowsStand();
      r := disk.rows;
    }
  }
}
