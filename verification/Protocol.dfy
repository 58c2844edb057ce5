/**
 The audit log as a protocol over shared state (internal/audit/recorder.go,
 internal/audit/archive.go): any number of writers append without a lock, one archiver moves the
 front of the chain out, and anybody can stop between two calls to the API.

 Each step below is one API call that changes something. Reads are not steps: what a caller
 learned from them shows as the arguments of the call that follows, and those may be stale.
 */
module Protocol {
  import opened Wrappers
  import opened Records
  import opened Chain

  // ---------- the checkpoint object ----------

  datatype CheckpointSpec = CheckpointSpec(
    length: nat, head: string, time: Time,
    archivedLength: nat, archivedHead: string, archiveLocation: string)

  function FromApi(spec: CheckpointSpec): Checkpoint {
    Checkpoint(spec.length, spec.head, spec.time,
      if spec.archivedLength > 0
      then Some(Anchor(spec.archivedLength, spec.archivedHead, spec.archiveLocation))
      else None)
  }

  function SpecOf(cp: Checkpoint): CheckpointSpec {
    match cp.archived
    case None => CheckpointSpec(cp.length, cp.head, cp.time, 0, "", "")
    case Some(a) => CheckpointSpec(cp.length, cp.head, cp.time, a.length, a.head, a.location)
  }

  /**
   A checkpoint comes back from the API as it was sent, and a specification as it was stored, unless it
   holds the remains of an anchor of length zero.
   */
  lemma CheckpointRoundTrip(cp: Checkpoint, spec: CheckpointSpec)
    ensures (cp.archived.Some? ==> cp.archived.value.length > 0) <==> FromApi(SpecOf(cp)) == cp
    ensures SpecOf(FromApi(spec)) == spec <==>
            spec.archivedLength > 0 || (spec.archivedHead == "" && spec.archiveLocation == "")
  {
  }

  function AnchorOf(cp: Option<Checkpoint>): Option<Anchor> {
    if cp.None? then None else cp.value.archived
  }

  /** What `putCheckpoint` writes over an existing checkpoint, or `None` when it refuses to. */
  function Merge(existing: Option<CheckpointSpec>, cp: Checkpoint): Option<CheckpointSpec> {
    var spec := SpecOf(cp);
    if existing.None? then Some(spec)
    else
      var e := existing.value;
      if e.length > spec.length then None
      else if e.archivedLength > spec.archivedLength && spec.archivedLength > 0 then None
      else if spec.archivedLength == 0 then
        Some(spec.(archivedLength := e.archivedLength, archivedHead := e.archivedHead,
             archiveLocation := e.archiveLocation))
      else Some(spec)
  }

  /** What `advanceBoundary` writes, or `None` when it refuses to. */
  function MoveBoundary(existing: CheckpointSpec, a: Anchor): Option<CheckpointSpec> {
    if existing.archivedLength > a.length then None
    else if existing.length < a.length then None
    else Some(existing.(archivedLength := a.length, archivedHead := a.head, archiveLocation := a.location))
  }

  // ---------- shared state ----------

  datatype Config = Config(
    hash: Hash,
    encode: seq<Record> -> string,
    decode: string -> Option<seq<Record>>,
    retain: nat)

  ghost predicate Sound(c: Config) {
    IgnoresHashField(c.hash) && c.retain >= 1
  }

  datatype Segment = Segment(first: nat, last: nat)

  /**
   records    the stored AuditRecord objects, by the sequence number their name is derived from
   revisions  every revision of the checkpoint object, the last of them current; a resource
              version is a position in this sequence
   sink       the archive: segment files, by the run of records their name is derived from
   history    every record any `Append` ever created, in the order the creations landed
   published  the segments whose boundary was published, in order
   overrun    a writer created a record at a position the archive boundary had already passed
   */
  datatype World = World(
    records: map<nat, Record>,
    revisions: seq<CheckpointSpec>,
    sink: map<Segment, string>,
    history: seq<Record>,
    published: seq<Segment>,
    overrun: bool)

  const EMPTY: World := World(map[], [], map[], [], [], false)

  function RevisionAt(w: World, version: nat): Option<CheckpointSpec> {
    if 0 < version <= |w.revisions| then Some(w.revisions[version - 1]) else None
  }

  function Current(w: World): Option<CheckpointSpec> {
    RevisionAt(w, |w.revisions|)
  }

  function Boundary(w: World): nat {
    if |w.revisions| == 0 then 0 else w.revisions[|w.revisions| - 1].archivedLength
  }

  /** Hash of the record at a position of the history, or the genesis hash before the first. */
  function HashAt(history: seq<Record>, n: nat): string {
    if 0 < n <= |history| then history[n - 1].hash else GENESIS_HASH
  }

  // ---------- steps ----------

  datatype Step =
      // a writer that found `prev` at the head creates the record sealed onto it
    | Create(event: Record, prev: Option<Record>)
      // a writer that read revision `version` publishes a new head
    | PublishHead(version: nat, cp: Checkpoint)
      // the archiver that read revision `version` publishes a new boundary
    | PublishBoundary(version: nat, anchor: Anchor)
      // the archiver's sink ends up holding `data` for a segment
    | StoreSegment(first: nat, last: nat, data: string)
    | DiscardSegment(first: nat, last: nat)
      // the archiver deletes one record
    | DeleteRecord(sequence: nat)

  predicate WriterStep(s: Step) {
    s.Create? || s.PublishHead?
  }

  /** A record some writer really appended, or nothing at all. */
  predicate Observed(history: seq<Record>, prev: Option<Record>) {
    prev.Some? ==>
      && 1 <= prev.value.sequence <= |history|
      && history[prev.value.sequence - 1] == prev.value
  }

  /** A head and a length read off an appended record, with no archive fields. */
  predicate Describes(history: seq<Record>, cp: Checkpoint) {
    cp.archived.None? && 1 <= cp.length <= |history| && cp.head == history[cp.length - 1].hash
  }

  predicate NothingPending(w: World) {
    forall k :: k in w.records ==> k > Boundary(w)
  }

  /** The file holds exactly these records, and what decodes from it verifies in their place. */
  predicate Holds(c: Config, sink: map<Segment, string>, history: seq<Record>, s: Segment) {
    && 1 <= s.first <= s.last <= |history|
    && s in sink
    && sink[s] == c.encode(history[s.first - 1..s.last])
    && c.decode(sink[s]).Some?
    && Linked(c.hash, c.decode(sink[s]).value, s.first - 1, HashAt(history, s.first - 1))
  }

  /** What the archiver has established by the time it publishes a boundary. */
  predicate ReadyToPublish(c: Config, w: World, a: Anchor) {
    && Boundary(w) < a.length && a.length + c.retain <= |w.history|
    && a.head == w.history[a.length - 1].hash
    && Holds(c, w.sink, w.history, Segment(Boundary(w) + 1, a.length))
    && NothingPending(w)
  }

  /** What a caller knows when it makes the call. After an overrun nothing is promised. */
  predicate Enabled(c: Config, w: World, s: Step) {
    w.overrun || match s
                 case Create(event, prev) => Observed(w.history, prev)
                 case PublishHead(version, cp) => Describes(w.history, cp)
                 case PublishBoundary(version, a) => ReadyToPublish(c, w, a)
                 case StoreSegment(first, last, data) => first == Boundary(w) + 1
                 case DiscardSegment(first, last) => first == Boundary(w) + 1
                 case DeleteRecord(k) => k <= Boundary(w) && forall j :: j in w.records ==> k <= j
  }

  /** A versioned write: it lands only if the revision it was based on is still the current one. */
  function Write(w: World, version: nat, spec: Option<CheckpointSpec>): World {
    if spec.None? || version != |w.revisions| then w
    else w.(revisions := w.revisions + [spec.value])
  }

  function AfterCreate(c: Config, w: World, event: Record, prev: Option<Record>): World {
    var sealed := Seal(c.hash, event, prev);
    if sealed.sequence in w.records then w
    else w.(records := w.records[sealed.sequence := sealed],
         history := w.history + [sealed],
         overrun := w.overrun || sealed.sequence <= Boundary(w))
  }

  function AfterBoundary(w: World, version: nat, a: Anchor): World {
    var existing := RevisionAt(w, version);
    if existing.None? || version != |w.revisions| then w
    else BoundaryWritten(w, a, MoveBoundary(existing.value, a))
  }

  function BoundaryWritten(w: World, a: Anchor, spec: Option<CheckpointSpec>): World {
    if spec.None? then w
    else w.(revisions := w.revisions + [spec.value],
            published := w.published + [Segment(Boundary(w) + 1, a.length)])
  }

  function Effect(c: Config, w: World, s: Step): World {
    match s
    case Create(event, prev) => AfterCreate(c, w, event, prev)
    case PublishHead(version, cp) => Write(w, version, Merge(RevisionAt(w, version), cp))
    case PublishBoundary(version, a) => AfterBoundary(w, version, a)
    case StoreSegment(first, last, data) => w.(sink := w.sink[Segment(first, last) := data])
    case DiscardSegment(first, last) => w.(sink := w.sink - {Segment(first, last)})
    case DeleteRecord(k) => w.(records := w.records - {k})
  }

  function Apply(c: Config, w: World, s: Step): World {
    if Enabled(c, w, s) then Effect(c, w, s) else w
  }

  /** A run: any interleaving of any actors, stopping anywhere. */
  function Execute(c: Config, w: World, trace: seq<Step>): World
    decreases |trace|, 1
  {
    if |trace| == 0 then w else ExecuteLast(c, w, trace)
  }

  function ExecuteLast(c: Config, w: World, trace: seq<Step>): World
    requires |trace| > 0
    decreases |trace|, 0
  {
    Apply(c, Execute(c, w, trace[..|trace| - 1]), trace[|trace| - 1])
  }

  // ---------- the invariant ----------

  ghost predicate StoreOk(w: World) {
    && (forall k :: k in w.records ==> 1 <= k <= |w.history| && w.records[k] == w.history[k - 1])
    && (forall k :: Boundary(w) < k <= |w.history| ==> k in w.records)
    && PendingRun(w)
  }

  /** Stored records at or below the boundary are a contiguous run ending at it, or there are none. */
  ghost predicate PendingRun(w: World) {
    forall j, k :: j in w.records && j <= k <= Boundary(w) ==> k in w.records
  }

  ghost predicate RevisionOk(history: seq<Record>, s: CheckpointSpec) {
    && 1 <= s.length <= |history| && s.head == history[s.length - 1].hash
    && s.archivedLength <= s.length
    && (s.archivedLength > 0 ==> s.archivedHead == history[s.archivedLength - 1].hash)
  }

  /** One revision to the next: the head moved or the boundary moved, forward, and not both. */
  predicate HeadMoved(was: CheckpointSpec, now: CheckpointSpec) {
    && was.length <= now.length
    && now.archivedLength == was.archivedLength
    && now.archivedHead == was.archivedHead
    && now.archiveLocation == was.archiveLocation
  }

  predicate BoundaryMoved(was: CheckpointSpec, now: CheckpointSpec) {
    && was.archivedLength <= now.archivedLength
    && now.length == was.length && now.head == was.head && now.time == was.time
  }

  ghost predicate RegisterOk(w: World) {
    && (forall i :: 0 <= i < |w.revisions| ==> RevisionOk(w.history, w.revisions[i]))
    && (forall i, j :: 0 <= i && j == i + 1 && j < |w.revisions| ==>
        HeadMoved(w.revisions[i], w.revisions[j]) || BoundaryMoved(w.revisions[i], w.revisions[j]))
  }

  ghost predicate Tiles(published: seq<Segment>, boundary: nat) {
    && (|published| == 0 ==> boundary == 0)
    && (|published| > 0 ==> published[0].first == 1 && published[|published| - 1].last == boundary)
    && (forall i :: 0 <= i < |published| ==> 1 <= published[i].first <= published[i].last)
    && (forall i, j :: 0 <= i && j == i + 1 && j < |published| ==> published[j].first == published[i].last + 1)
  }

  ghost predicate ArchiveOk(c: Config, w: World) {
    && Tiles(w.published, Boundary(w))
    && (forall i :: 0 <= i < |w.published| ==> Holds(c, w.sink, w.history, w.published[i]))
  }

  ghost predicate Core(c: Config, w: World) {
    && Linked(c.hash, w.history, 0, GENESIS_HASH)
    && StoreOk(w)
    && RegisterOk(w)
    && ArchiveOk(c, w)
    && (Boundary(w) > 0 ==> Boundary(w) + c.retain <= |w.history|)
  }

  ghost predicate Numbered(w: World) {
    forall k :: k in w.records ==> k >= 1 && w.records[k].sequence == k
  }

  ghost predicate Invariant(c: Config, w: World) {
    Numbered(w) && (w.overrun || Core(c, w))
  }

  // ---------- what never goes back ----------

  /** Everything that a caller read stays true of what it read. */
  ghost predicate Evolves(w: World, w': World) {
    && w.history <= w'.history
    && w.revisions <= w'.revisions
    && w.published <= w'.published
    && (w.overrun ==> w'.overrun)
  }

  /** As `Evolves`, when only writers have run. */
  ghost predicate WritersEvolve(w: World, w': World) {
    && Evolves(w, w')
    && w'.sink == w.sink && w'.published == w.published
    && (forall k :: k in w.records ==> k in w'.records && w'.records[k] == w.records[k])
    && (!w'.overrun ==> Boundary(w') == Boundary(w))
    && (!w'.overrun ==> forall k :: k in w'.records && k !in w.records ==> k > Boundary(w))
  }
}
