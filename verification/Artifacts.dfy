/** Artifact writes as steps that a crash may end anywhere: blob first, row second
    (grapharc/memory/artifacts.py). */
module Artifacts {
  import opened Options
  import opened Texts
  import opened Claims

  newtype Byte = b: int | 0 <= b < 256

  type Bytes = seq<Byte>

  type Digest(==, !new, 0)

  /** The unique suffix of a temporary file: one for each attempt to write a blob. */
  type Token(==, !new, 0)

  datatype Artifact = Artifact(
    id: Id, name: Text, mediaType: Text, sizeBytes: nat, sha256: Digest, createdAt: Time,
    source: Text, runId: Option<Text>, node: Option<Text>, parents: seq<Id>, claimIds: seq<Id>)

  ghost predicate Injective(hash: Bytes -> Digest) {
    forall x, y :: hash(x) == hash(y) ==> x == y
  }

  // ---- Preparing a put -----------------------------------------------------------------

  datatype Content = Binary(bytes: Bytes) | Str(text: Text)

  datatype Request = Request(
    name: Text, content: Content, source: Text, mediaType: Option<Text>, runId: Option<Text>,
    node: Option<Text>, parents: seq<Id>, claimIds: seq<Id>)

  datatype PutError = EmptyName | EmptySource | RepeatedId

  datatype Prepared = Bad(error: PutError) | Good(artifact: Artifact, payload: Bytes)

  /** What the program gets from outside: the digest, the UTF-8 encoding, and which texts are blank. */
  datatype Outside = Outside(hash: Bytes -> Digest, encode: Text -> Bytes, blank: Text -> bool)

  function MediaType(asked: Option<Text>, content: Content): Text {
    if asked.Some? && asked.value.chars != "" then asked.value
    else if content.Str? then Text("text/plain; charset=utf-8")
    else Text("application/octet-stream")
  }

  function Prepare(o: Outside, r: Request, id: Id, now: Time): (p: Prepared)
    ensures p.Bad? <==> o.blank(r.name) || o.blank(r.source)
    ensures p.Bad? ==> p.error == if o.blank(r.name) then EmptyName else EmptySource
    ensures p.Good? ==> p.artifact.sha256 == o.hash(p.payload) && p.artifact.sizeBytes == |p.payload|
    ensures p.Good? ==> r.content == Binary(p.payload) || (r.content.Str? && p.payload == o.encode(r.content.text))
    ensures p.Good? && r.mediaType.Some? && r.mediaType.value.chars != "" ==> p.artifact.mediaType == r.mediaType.value
    ensures p.Good? && (r.mediaType.None? || r.mediaType.value.chars == "") ==>
      p.artifact.mediaType.chars == if r.content.Str? then "text/plain; charset=utf-8" else "application/octet-stream"
    ensures p.Good? ==> p.artifact.id == id && p.artifact.name == r.name && p.artifact.source == r.source && p.artifact.runId == r.runId
    ensures p.Good? ==> p.artifact.createdAt == now && p.artifact.node == r.node
    ensures p.Good? ==> p.artifact.parents == r.parents && p.artifact.claimIds == r.claimIds
  {
    if o.blank(r.name) then Bad(EmptyName)
    else if o.blank(r.source) then Bad(EmptySource)
    else
      var payload := if r.content.Str? then o.encode(r.content.text) else r.content.bytes;
      Good(Artifact(id, r.name, MediaType(r.mediaType, r.content), |payload|, o.hash(payload), now,
                    r.source, r.runId, r.node, r.parents, r.claimIds), payload)
  }

  // ---- The machine ---------------------------------------------------------------------

  /** Where one attempt stands: before the exists-check, with that many bytes in its temporary file,
      or with the blob in place. */
  datatype Phase = Begun | Writing(written: nat) | Placed

  datatype Writer = Writer(artifact: Artifact, payload: Bytes, phase: Phase)

  /** Rows in rowid order, files at blob paths, temporary files, and the attempts in flight. */
  datatype Disk = Disk(rows: seq<Artifact>, blobs: map<Digest, Bytes>, temps: map<Token, Bytes>, writers: map<Token, Writer>)

  datatype Event =
    | Begin(token: Token, artifact: Artifact, payload: Bytes)
    | CheckExists(token: Token)
    | Write(token: Token, upTo: nat)
    | Replace(token: Token)
    | Abandon(token: Token)
    | Insert(token: Token)
    | Crash(tokens: set<Token>)

  function At(disk: Disk, t: Token): Option<Phase> {
    if t in disk.writers then Some(disk.writers[t].phase) else None
  }

  /** Which events the program and its environment allow. */
  predicate Enabled(hash: Bytes -> Digest, disk: Disk, e: Event) {
    match e
    case Begin(t, a, payload) => t !in disk.writers && t !in disk.temps && a.sha256 == hash(payload) && a.sizeBytes == |payload|
    case CheckExists(t) => At(disk, t) == Some(Begun)
    case Write(t, upTo) => t in disk.writers && disk.writers[t].phase.Writing?
                           && disk.writers[t].phase.written <= upTo <= |disk.writers[t].payload|
    case Replace(t) => t in disk.writers && t in disk.temps
                       && disk.writers[t].phase == Writing(|disk.writers[t].payload|)
    case Abandon(t) => t in disk.writers && disk.writers[t].phase.Writing?
    case Insert(t) => At(disk, t) == Some(Placed)
    case Crash(_) => true
  }

  function Moved(disk: Disk, t: Token, phase: Phase): map<Token, Writer>
    requires t in disk.writers
  {
    disk.writers[t := disk.writers[t].(phase := phase)]
  }

  function Apply(hash: Bytes -> Digest, disk: Disk, e: Event): Disk
    requires Enabled(hash, disk, e)
  {
    match e
    case Begin(t, a, payload) => disk.(writers := disk.writers[t := Writer(a, payload, Begun)])
    case CheckExists(t) =>
      if disk.writers[t].artifact.sha256 in disk.blobs then disk.(writers := Moved(disk, t, Placed))
      else disk.(temps := disk.temps[t := []], writers := Moved(disk, t, Writing(0)))
    case Write(t, upTo) =>
      disk.(temps := disk.temps[t := disk.writers[t].payload[..upTo]], writers := Moved(disk, t, Writing(upTo)))
    case Replace(t) =>
      disk.(blobs := disk.blobs[disk.writers[t].artifact.sha256 := disk.temps[t]], temps := disk.temps - {t},
            writers := Moved(disk, t, Placed))
    case Abandon(t) => disk.(temps := disk.temps - {t}, writers := disk.writers - {t})
    case Insert(t) =>
      var a := disk.writers[t].artifact;
      disk.(rows := if HasRow(disk.rows, a.id) then disk.rows else disk.rows + [a], writers := disk.writers - {t})
    case Crash(ts) => disk.(writers := disk.writers - ts)
  }

  predicate HasRow(rows: seq<Artifact>, id: Id) {
    exists k :: 0 <= k < |rows| && rows[k].id == id
  }

  // ---- The abstract store --------------------------------------------------------------

  datatype Entry = Entry(artifact: Artifact, payload: Bytes)

  /** The puts that succeeded, in order. */
  type Ledger = seq<Entry>

  function RowsOf(ledger: Ledger): seq<Artifact> {
    seq(|ledger|, k requires 0 <= k < |ledger| => ledger[k].artifact)
  }

  /** A put takes effect all at once, when its row is inserted; every other step changes nothing. */
  function Record(ledger: Ledger, disk: Disk, e: Event): Ledger {
    if e.Insert? && e.token in disk.writers && !HasRow(disk.rows, disk.writers[e.token].artifact.id)
    then ledger + [Entry(disk.writers[e.token].artifact, disk.writers[e.token].payload)]
    else ledger
  }

  datatype World = World(disk: Disk, ledger: Ledger)

  function Next(hash: Bytes -> Digest, w: World, e: Event): World {
    if Enabled(hash, w.disk, e) then World(Apply(hash, w.disk, e), Record(w.ledger, w.disk, e)) else w
  }

  /** Any interleaving of writers and crashes; an event that is not enabled does not happen. */
  function Run(hash: Bytes -> Digest, events: seq<Event>): World {
    if events == [] then World(Disk([], map[], map[], map[]), [])
    else Next(hash, Run(hash, events[..|events| - 1]), events[|events| - 1])
  }

  // ---- What every step keeps -----------------------------------------------------------

  /** Every file at a blob path is complete: its bytes hash to its name. */
  ghost predicate BlobsWhole(hash: Bytes -> Digest, disk: Disk) {
    forall d :: d in disk.blobs ==> hash(disk.blobs[d]) == d
  }

  /** No row without content. */
  ghost predicate RowsHaveBlobs(disk: Disk) {
    forall k :: 0 <= k < |disk.rows| ==> disk.rows[k].sha256 in disk.blobs
  }

  ghost predicate WriterFine(hash: Bytes -> Digest, disk: Disk, t: Token, w: Writer) {
    && w.artifact.sha256 == hash(w.payload) && w.artifact.sizeBytes == |w.payload|
    && (w.phase.Begun? ==> t !in disk.temps)
    && (w.phase.Writing? ==> w.phase.written <= |w.payload| && t in disk.temps && disk.temps[t] == w.payload[..w.phase.written])
    && (w.phase.Placed? ==> w.artifact.sha256 in disk.blobs)
  }

  ghost predicate WritersFine(hash: Bytes -> Digest, disk: Disk) {
    forall t :: t in disk.writers ==> WriterFine(hash, disk, t, disk.writers[t])
  }

  ghost predicate LedgerFine(hash: Bytes -> Digest, w: World) {
    && RowsOf(w.ledger) == w.disk.rows
    && (forall i, j :: 0 <= i < j < |w.ledger| ==> w.ledger[i].artifact.id != w.ledger[j].artifact.id)
    && (forall k :: 0 <= k < |w.ledger| ==> w.ledger[k].artifact.sha256 == hash(w.ledger[k].payload)
                                            && w.ledger[k].artifact.sizeBytes == |w.ledger[k].payload|)
  }

  ghost predicate Sound(hash: Bytes -> Digest, w: World) {
    BlobsWhole(hash, w.disk) && RowsHaveBlobs(w.disk) && WritersFine(hash, w.disk) && LedgerFine(hash, w)
  }

  lemma StepKeepsBlobs(hash: Bytes -> Digest, disk: Disk, e: Event)
    requires Enabled(hash, disk, e) && BlobsWhole(hash, disk) && RowsHaveBlobs(disk) && WritersFine(hash, disk)
    ensures BlobsWhole(hash, Apply(hash, disk, e)) && RowsHaveBlobs(Apply(hash, disk, e))
    ensures forall d :: d in disk.blobs ==> d in Apply(hash, disk, e).blobs
  {
    if e.Replace? {
      var w := disk.writers[e.token];
      assert WriterFine(hash, disk, e.token, w);
      assert disk.temps[e.token] == w.payload;
    }
    if e.Insert? {
      assert WriterFine(hash, disk, e.token, disk.writers[e.token]);
    }
  }

  lemma StepKeepsWriters(hash: Bytes -> Digest, disk: Disk, e: Event)
    requires Enabled(hash, disk, e) && WritersFine(hash, disk)
    ensures WritersFine(hash, Apply(hash, disk, e))
  {
    var after := Apply(hash, disk, e);
    forall t | t in after.writers ensures WriterFine(hash, after, t, after.writers[t]) {
      if t in disk.writers {
        assert WriterFine(hash, disk, t, disk.writers[t]);
      }
    }
  }

  lemma StepKeepsLedger(hash: Bytes -> Digest, w: World, e: Event)
    requires Enabled(hash, w.disk, e) && WritersFine(hash, w.disk) && LedgerFine(hash, w)
    ensures LedgerFine(hash, Next(hash, w, e))
  {
    if e.Insert? {
      var a := w.disk.writers[e.token].artifact;
      assert WriterFine(hash, w.disk, e.token, w.disk.writers[e.token]);
      var after := Next(hash, w, e);
      assert RowsOf(after.ledger) == after.disk.rows;
      if !HasRow(w.disk.rows, a.id) {
        forall k | 0 <= k < |w.ledger| ensures w.ledger[k].artifact.id != a.id {
          assert w.disk.rows[k] == w.ledger[k].artifact;
        }
      }
    }
  }

  /** Any interleaving of writers, with crashes anywhere: blobs are whole, rows have their blobs, and
      the rows are the puts that succeeded. */
  lemma {:induction false} RunIsSound(hash: Bytes -> Digest, events: seq<Event>)
    ensures Sound(hash, Run(hash, events))
  {
    if events != [] {
      var n := |events| - 1;
      RunIsSound(hash, events[..n]);
      var w := Run(hash, events[..n]);
      if Enabled(hash, w.disk, events[n]) {
        StepKeepsBlobs(hash, w.disk, events[n]);
        StepKeepsWriters(hash, w.disk, events[n]);
        StepKeepsLedger(hash, w, events[n]);
      }
    }
  }

  // ---- Reading -------------------------------------------------------------------------

  datatype ReadResult = UnknownArtifact | ContentMissing | Read(bytes: Bytes)

  function RowPosition(rows: seq<Artifact>, id: Id): (p: nat)
    ensures p <= |rows| && (p < |rows| ==> rows[p].id == id)
    ensures forall k :: 0 <= k < p ==> rows[k].id != id
  {
    if rows == [] then 0 else if rows[0].id == id then 0 else 1 + RowPosition(rows[1..], id)
  }

  /** Find the row, then its file. */
  function ReadDisk(disk: Disk, id: Id): ReadResult {
    var p := RowPosition(disk.rows, id);
    if p == |disk.rows| then UnknownArtifact
    else if disk.rows[p].sha256 !in disk.blobs then ContentMissing
    else Read(disk.blobs[disk.rows[p].sha256])
  }

  /** What was put under an id. */
  function ReadLedger(ledger: Ledger, id: Id): ReadResult {
    var p := RowPosition(RowsOf(ledger), id);
    if p == |ledger| then UnknownArtifact else Read(ledger[p].payload)
  }

  /** Without hash collisions, reading returns the bytes that were put, whatever happened around it. */
  lemma ReadsBack(hash: Bytes -> Digest, events: seq<Event>, id: Id)
    requires Injective(hash)
    ensures ReadDisk(Run(hash, events).disk, id) == ReadLedger(Run(hash, events).ledger, id)
  {
    RunIsSound(hash, events);
    var w := Run(hash, events);
    var p := RowPosition(w.disk.rows, id);
    if p < |w.disk.rows| {
      assert w.ledger[p].artifact == w.disk.rows[p];
      assert hash(w.disk.blobs[w.disk.rows[p].sha256]) == hash(w.ledger[p].payload);
    }
  }

  /** A recorded put is never lost, moved or changed by what happens later. */
  lemma {:induction false} LedgerOnlyGrows(hash: Bytes -> Digest, events: seq<Event>, later: seq<Event>)
    ensures Run(hash, events).ledger <= Run(hash, events + later).ledger
  {
    hide Apply, Enabled;
    if later == [] {
      assert events + later == events;
    } else {
      var n := |later| - 1;
      LedgerOnlyGrows(hash, events, later[..n]);
      assert (events + later)[..|events| + n] == events + later[..n];
    }
  }

  /** The id a put returned reads back the bytes given to it, at every later time. */
  lemma PutThenRead(hash: Bytes -> Digest, events: seq<Event>, later: seq<Event>, t: Token)
    requires Injective(hash)
    requires var disk := Run(hash, events).disk;
      At(disk, t) == Some(Placed) && !HasRow(disk.rows, disk.writers[t].artifact.id)
    ensures var w := Run(hash, events).disk.writers[t];
      ReadDisk(Run(hash, events + [Insert(t)] + later).disk, w.artifact.id) == Read(w.payload)
  {
    var inserted := events + [Insert(t)];
    var before, w := Run(hash, events), Run(hash, events).disk.writers[t];
    assert inserted[..|events|] == events;
    var n := |before.ledger|;
    assert Run(hash, inserted).ledger == before.ledger + [Entry(w.artifact, w.payload)];
    LedgerOnlyGrows(hash, inserted, later);
    var ledger := Run(hash, inserted + later).ledger;
    RunIsSound(hash, inserted + later);
    assert ledger[n] == Entry(w.artifact, w.payload);
    assert RowsOf(ledger)[n] == w.artifact;
    var p := RowPosition(RowsOf(ledger), w.artifact.id);
    assert p == n;
    ReadsBack(hash, inserted + later, w.artifact.id);
  }

  // ---- Collisions ----------------------------------------------------------------------

  ghost predicate AlwaysReadsBack(hash: Bytes -> Digest) {
    forall events, id :: ReadDisk(Run(hash, events).disk, id) == ReadLedger(Run(hash, events).ledger, id)
  }

  /** Reading back holds for every run if and only if the digest has no collisions: of two contents
      with one digest, the second put finds the first one's blob. */
  lemma ReadsBackIffInjective(hash: Bytes -> Digest, t: Token, a: Artifact, b: Artifact)
    requires a.id != b.id
    ensures AlwaysReadsBack(hash) <==> Injective(hash)
  {
    if Injective(hash) {
      forall events, id ensures ReadDisk(Run(hash, events).disk, id) == ReadLedger(Run(hash, events).ledger, id) {
        ReadsBack(hash, events, id);
      }
    } else {
      var x, y :| hash(x) == hash(y) && x != y;
      CollisionMisreads(hash, t, a.(sha256 := hash(x), sizeBytes := |x|), x, b.(sha256 := hash(y), sizeBytes := |y|), y);
    }
  }

  /** One put after another, on an otherwise empty disk. */
  function TwoPuts(t: Token, a: Artifact, x: Bytes, b: Artifact, y: Bytes): seq<Event> {
    [Begin(t, a, x), CheckExists(t), Write(t, |x|), Replace(t), Insert(t), Begin(t, b, y), CheckExists(t), Insert(t)]
  }

  lemma RunTo(hash: Bytes -> Digest, events: seq<Event>, e: Event)
    ensures Run(hash, events + [e]) == Next(hash, Run(hash, events), e)
  {
    assert (events + [e])[..|events|] == events;
  }

  function Alone(rows: seq<Artifact>, blobs: map<Digest, Bytes>, ledger: Ledger, t: Token, w: Writer): World {
    World(Disk(rows, blobs, map[], map[t := w]), ledger)
  }

  lemma NothingRun(hash: Bytes -> Digest)
    ensures Run(hash, []) == World(Disk([], map[], map[], map[]), [])
  {
  }

  /** What the first steps of a put do to an empty disk. */
  lemma FirstSteps(hash: Bytes -> Digest, t: Token, a: Artifact, x: Bytes)
    requires a.sha256 == hash(x) && a.sizeBytes == |x|
    ensures Next(hash, World(Disk([], map[], map[], map[]), []), Begin(t, a, x)) == Alone([], map[], [], t, Writer(a, x, Begun))
    ensures Next(hash, Alone([], map[], [], t, Writer(a, x, Begun)), CheckExists(t)) == Half(t, a, x, 0)
  {
  }

  lemma LastSteps(hash: Bytes -> Digest, t: Token, a: Artifact, x: Bytes)
    requires a.sha256 == hash(x) && a.sizeBytes == |x|
    ensures Next(hash, Half(t, a, x, 0), Write(t, |x|)) == Half(t, a, x, |x|)
    ensures Next(hash, Half(t, a, x, |x|), Replace(t)) == Alone([], map[hash(x) := x], [], t, Writer(a, x, Placed))
  {
    assert x[..|x|] == x;
  }

  /** The first `n` bytes are in the temporary file. */
  function Half(t: Token, a: Artifact, x: Bytes, n: nat): World
    requires n <= |x|
  {
    World(Disk([], map[], map[t := x[..n]], map[t := Writer(a, x, Writing(n))]), [])
  }

  lemma FirstPut(hash: Bytes -> Digest, t: Token, a: Artifact, x: Bytes)
    requires a.sha256 == hash(x) && a.sizeBytes == |x|
    ensures Run(hash, [Begin(t, a, x), CheckExists(t), Write(t, |x|), Replace(t)])
         == Alone([], map[hash(x) := x], [], t, Writer(a, x, Placed))
  {
    hide Run, Next, Alone, Half;
    var e1, e2, e3, e4 := Begin(t, a, x), CheckExists(t), Write(t, |x|), Replace(t);
    NothingRun(hash);
    FirstSteps(hash, t, a, x);
    LastSteps(hash, t, a, x);
    RunTo(hash, [], e1);
    RunTo(hash, [e1], e2);
    RunTo(hash, [e1, e2], e3);
    RunTo(hash, [e1, e2, e3], e4);
    assert [] + [e1] == [e1] && [e1] + [e2] == [e1, e2] && [e1, e2] + [e3] == [e1, e2, e3];
    assert [e1, e2, e3] + [e4] == [e1, e2, e3, e4];
  }

  lemma InsertAlone(hash: Bytes -> Digest, rows: seq<Artifact>, blobs: map<Digest, Bytes>, ledger: Ledger, t: Token, a: Artifact, x: Bytes)
    requires !HasRow(rows, a.id)
    ensures Next(hash, Alone(rows, blobs, ledger, t, Writer(a, x, Placed)), Insert(t))
         == World(Disk(rows + [a], blobs, map[], map[]), ledger + [Entry(a, x)])
  {
  }

  lemma FindsBlob(hash: Bytes -> Digest, rows: seq<Artifact>, blobs: map<Digest, Bytes>, ledger: Ledger, t: Token, b: Artifact, y: Bytes)
    requires b.sha256 == hash(y) && b.sizeBytes == |y| && b.sha256 in blobs
    ensures Next(hash, Next(hash, World(Disk(rows, blobs, map[], map[]), ledger), Begin(t, b, y)), CheckExists(t))
         == Alone(rows, blobs, ledger, t, Writer(b, y, Placed))
  {
  }

  lemma CollisionMisreads(hash: Bytes -> Digest, t: Token, a: Artifact, x: Bytes, b: Artifact, y: Bytes)
    requires a.id != b.id && x != y && a.sha256 == hash(x) == hash(y) == b.sha256
    requires a.sizeBytes == |x| && b.sizeBytes == |y|
    ensures ReadDisk(Run(hash, TwoPuts(t, a, x, b, y)).disk, b.id) == Read(x)
    ensures ReadLedger(Run(hash, TwoPuts(t, a, x, b, y)).ledger, b.id) == Read(y)
  {
    hide Run, Next, Alone;
    var blobs := map[hash(x) := x];
    FirstPut(hash, t, a, x);
    var four := [Begin(t, a, x), CheckExists(t), Write(t, |x|), Replace(t)];
    RunTo(hash, four, Insert(t));
    InsertAlone(hash, [], blobs, [], t, a, x);
    RunTo(hash, four + [Insert(t)], Begin(t, b, y));
    RunTo(hash, four + [Insert(t)] + [Begin(t, b, y)], CheckExists(t));
    FindsBlob(hash, [a], blobs, [Entry(a, x)], t, b, y);
    RunTo(hash, four + [Insert(t)] + [Begin(t, b, y)] + [CheckExists(t)], Insert(t));
    InsertAlone(hash, [a], blobs, [Entry(a, x)], t, b, y);
    assert [] + [a] == [a] && [] + [Entry(a, x)] == [Entry(a, x)];
    assert TwoPuts(t, a, x, b, y) == four + [Insert(t)] + [Begin(t, b, y)] + [CheckExists(t)] + [Insert(t)];
    BothRead(hash, a, x, b, y);
  }

  lemma BothRead(hash: Bytes -> Digest, a: Artifact, x: Bytes, b: Artifact, y: Bytes)
    requires a.id != b.id && hash(x) == hash(y) == b.sha256
    ensures ReadDisk(Disk([a] + [b], map[hash(x) := x], map[], map[]), b.id) == Read(x)
    ensures ReadLedger([Entry(a, x)] + [Entry(b, y)], b.id) == Read(y)
  {
    var rows := [a] + [b];
    assert rows[0] == a && rows[1] == b;
    assert RowsOf([Entry(a, x)] + [Entry(b, y)]) == [a] + [b];
  }
}
