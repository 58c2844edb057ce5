/**
 Where the protocol's assumptions bite: concrete runs in which the writer-lag condition fails and
 in which an interrupted archive run leaves a file no boundary was published for.
 */
module Limits {
  import opened Wrappers
  import opened Text
  import opened Records
  import opened Chain
  import opened Protocol
  import opened ProtocolSafety
  import opened Guarantees
  import opened AuditNames
  import opened Offline

  // One more step of a run that has reached `w`.
  lemma Advance(c: Config, trace: seq<Step>, w: World, s: Step, w': World)
    requires Execute(c, EMPTY, trace) == w && Apply(c, w, s) == w'
    ensures Execute(c, EMPTY, trace + [s]) == w'
  {
    var t := trace + [s];
    assert t[..|t| - 1] == trace && t[|t| - 1] == s;
    assert Execute(c, EMPTY, t) == ExecuteLast(c, EMPTY, t);
  }

  /** The codec returns this one segment as it was. */
  predicate Keeps(c: Config, rs: seq<Record>) {
    c.decode(c.encode(rs)) == Some(rs)
  }

  function First(c: Config, e: Record): Record {
    Seal(c.hash, e, None)
  }

  function Second(c: Config, e: Record, f: Record): Record {
    Seal(c.hash, f, Some(First(c, e)))
  }

  function HeadSpec(r: Record): CheckpointSpec {
    CheckpointSpec(r.sequence, r.hash, r.time, 0, "", "")
  }

  function HeadOfSecond(c: Config, e: Record, f: Record): Checkpoint {
    var s := Second(c, e, f);
    Checkpoint(s.sequence, s.hash, s.time, None)
  }

  /** After one append, after two, and once the head of the two is published. */
  function OneAppended(c: Config, e: Record): World {
    World(map[1 := First(c, e)], [], map[], [First(c, e)], [], false)
  }

  function TwoAppended(c: Config, e: Record, f: Record): World {
    World(map[1 := First(c, e), 2 := Second(c, e, f)], [], map[], [First(c, e), Second(c, e, f)], [], false)
  }

  function TwoPublished(c: Config, e: Record, f: Record): World {
    TwoAppended(c, e, f).(revisions := [HeadSpec(Second(c, e, f))])
  }

  lemma FirstAppend(c: Config, e: Record)
    ensures Apply(c, EMPTY, Create(e, None)) == OneAppended(c, e)
  {
  }

  lemma SecondAppend(c: Config, e: Record, f: Record)
    ensures Apply(c, OneAppended(c, e), Create(f, Some(First(c, e)))) == TwoAppended(c, e, f)
  {
  }

  lemma SecondPublished(c: Config, e: Record, f: Record)
    ensures Apply(c, TwoAppended(c, e, f), PublishHead(0, HeadOfSecond(c, e, f))) == TwoPublished(c, e, f)
  {
    assert Describes(TwoAppended(c, e, f).history, HeadOfSecond(c, e, f));
  }

  /** Two records appended and their head published. */
  lemma TwoAppends(c: Config, e: Record, f: Record) returns (trace: seq<Step>)
    ensures Execute(c, EMPTY, trace) == TwoPublished(c, e, f)
  {
    FirstAppend(c, e);
    Advance(c, [], EMPTY, Create(e, None), OneAppended(c, e));
    trace := [] + [Create(e, None)];
    SecondAppend(c, e, f);
    Advance(c, trace, OneAppended(c, e), Create(f, Some(First(c, e))), TwoAppended(c, e, f));
    trace := trace + [Create(f, Some(First(c, e)))];
    SecondPublished(c, e, f);
    Advance(c, trace, TwoAppended(c, e, f), PublishHead(0, HeadOfSecond(c, e, f)), TwoPublished(c, e, f));
    trace := trace + [PublishHead(0, HeadOfSecond(c, e, f))];
  }

  lemma FirstHolds(c: Config, e: Record, f: Record)
    requires Sound(c) && Keeps(c, [First(c, e)])
    ensures Holds(c, map[Segment(1, 1) := c.encode([First(c, e)])], [First(c, e), Second(c, e, f)], Segment(1, 1))
  {
    var r := First(c, e);
    assert [r, Second(c, e, f)][0..1] == [r];
    LinkedOne(c.hash, r, 0, GENESIS_HASH);
  }

  function FirstStored(c: Config, e: Record, f: Record): World {
    TwoPublished(c, e, f).(sink := map[Segment(1, 1) := c.encode([First(c, e)])])
  }

  lemma StoreFirst(c: Config, e: Record, f: Record)
    ensures Apply(c, TwoPublished(c, e, f), StoreSegment(1, 1, c.encode([First(c, e)]))) == FirstStored(c, e, f)
  {
  }

  lemma PublishFirst(c: Config, e: Record, f: Record) returns (w: World)
    requires Sound(c) && c.retain == 1 && Keeps(c, [First(c, e)])
    ensures w == Apply(c, FirstStored(c, e, f), PublishBoundary(1, Anchor(1, First(c, e).hash, "")))
    ensures w.records == TwoAppended(c, e, f).records && w.history == TwoAppended(c, e, f).history
    ensures !w.overrun && Boundary(w) == 1
  {
    FirstHolds(c, e, f);
    w := Apply(c, FirstStored(c, e, f), PublishBoundary(1, Anchor(1, First(c, e).hash, "")));
  }

  lemma DeleteFirst(c: Config, w: World, r: Record, s: Record) returns (w': World)
    requires w.records == map[1 := r, 2 := s] && !w.overrun && Boundary(w) == 1
    ensures w' == Apply(c, w, DeleteRecord(1)) == w.(records := map[2 := s]) && Boundary(w') == 1
  {
    w' := Apply(c, w, DeleteRecord(1));
    assert map[1 := r, 2 := s] - {1} == map[2 := s];
  }

  /** With `retain` at its least, the first of two records is archived and deleted. */
  lemma FirstArchived(c: Config, e: Record, f: Record) returns (trace: seq<Step>, w: World)
    requires Sound(c) && c.retain == 1 && Keeps(c, [First(c, e)])
    ensures w == Execute(c, EMPTY, trace)
    ensures w.records == map[2 := Second(c, e, f)] && w.history == [First(c, e), Second(c, e, f)]
    ensures Boundary(w) == 1 && !w.overrun
  {
    var store := StoreSegment(1, 1, c.encode([First(c, e)]));
    var publish := PublishBoundary(1, Anchor(1, First(c, e).hash, ""));
    trace := TwoAppends(c, e, f);
    StoreFirst(c, e, f);
    Advance(c, trace, TwoPublished(c, e, f), store, FirstStored(c, e, f));
    trace := trace + [store];
    var published := PublishFirst(c, e, f);
    Advance(c, trace, FirstStored(c, e, f), publish, published);
    trace := trace + [publish];
    w := DeleteFirst(c, published, First(c, e), Second(c, e, f));
    Advance(c, trace, published, DeleteRecord(1), w);
    trace := trace + [DeleteRecord(1)];
  }

  /**
   The writer-lag condition is needed. A writer that found the log empty, and was delayed until
   the only record it had missed was archived and deleted, creates a second record number one: the
   history forks and no longer verifies.
   */
  lemma StaleWriterForks(c: Config, e: Record, f: Record, late: Record) returns (w: World)
    requires Sound(c) && c.retain == 1 && Keeps(c, [First(c, e)])
    ensures Reachable(c, w) && w.overrun
    ensures w.history == [First(c, e), Second(c, e, f), First(c, late)]
    ensures !Verified(c.hash, w.history, None, None).valid
  {
    var trace, archived := FirstArchived(c, e, f);
    w := Apply(c, archived, Create(late, None));
    Advance(c, trace, archived, Create(late, None), w);
    LateCreate(c, archived, late);
    ValidIffLinked(c.hash, w.history, None, None);
    assert !LinkAt(c.hash, w.history, 2, 0, GENESIS_HASH);
  }

  lemma LateCreate(c: Config, w: World, late: Record)
    requires 1 !in w.records && Boundary(w) == 1 && !w.overrun
    ensures var w' := Apply(c, w, Create(late, None));
            w'.overrun && w'.history == w.history + [First(c, late)]
  {
  }

  function Third(c: Config, e: Record, f: Record, g: Record): Record {
    Seal(c.hash, g, Some(Second(c, e, f)))
  }

  function ThirdAppended(c: Config, e: Record, f: Record, g: Record): World {
    var r, s, t := First(c, e), Second(c, e, f), Third(c, e, f, g);
    World(map[1 := r, 2 := s, 3 := t], [HeadSpec(s)], map[Segment(1, 1) := c.encode([r])], [r, s, t], [], false)
  }

  function BothStored(c: Config, e: Record, f: Record, g: Record): World {
    var w := ThirdAppended(c, e, f, g);
    w.(sink := w.sink[Segment(1, 2) := c.encode([First(c, e), Second(c, e, f)])])
  }

  lemma ThirdAppend(c: Config, e: Record, f: Record, g: Record)
    ensures Apply(c, FirstStored(c, e, f), Create(g, Some(Second(c, e, f)))) == ThirdAppended(c, e, f, g)
  {
  }

  lemma StoreBoth(c: Config, e: Record, f: Record, g: Record)
    ensures Apply(c, ThirdAppended(c, e, f, g), StoreSegment(1, 2, c.encode([First(c, e), Second(c, e, f)])))
            == BothStored(c, e, f, g)
  {
  }

  // A run stops after writing its segment; one more append and one more write later, both files are there.
  lemma Interrupted(c: Config, e: Record, f: Record, g: Record) returns (trace: seq<Step>)
    ensures Execute(c, EMPTY, trace) == BothStored(c, e, f, g)
  {
    var first := StoreSegment(1, 1, c.encode([First(c, e)]));
    var grow := Create(g, Some(Second(c, e, f)));
    var both := StoreSegment(1, 2, c.encode([First(c, e), Second(c, e, f)]));
    trace := TwoAppends(c, e, f);
    StoreFirst(c, e, f);
    Advance(c, trace, TwoPublished(c, e, f), first, FirstStored(c, e, f));
    trace := trace + [first];
    ThirdAppend(c, e, f, g);
    Advance(c, trace, FirstStored(c, e, f), grow, ThirdAppended(c, e, f, g));
    trace := trace + [grow];
    StoreBoth(c, e, f, g);
    Advance(c, trace, ThirdAppended(c, e, f, g), both, BothStored(c, e, f, g));
    trace := trace + [both];
  }

  lemma BothHold(c: Config, e: Record, f: Record, g: Record, sink: map<Segment, string>)
    requires Sound(c) && Keeps(c, [First(c, e), Second(c, e, f)])
    requires Segment(1, 2) in sink && sink[Segment(1, 2)] == c.encode([First(c, e), Second(c, e, f)])
    ensures Holds(c, sink, [First(c, e), Second(c, e, f), Third(c, e, f, g)], Segment(1, 2))
  {
    var r, s := First(c, e), Second(c, e, f);
    assert [r, s, Third(c, e, f, g)][0..2] == [r, s];
    assert LinkAt(c.hash, [r, s], 0, 0, GENESIS_HASH) && LinkAt(c.hash, [r, s], 1, 0, GENESIS_HASH);
  }

  /**
   An archive run interrupted between writing its segment and publishing the boundary leaves a
   file that the next run, cutting further, neither overwrites nor publishes: the log is intact,
   and the directory does not pass the offline check.
   */
  lemma InterruptedRunSpoilsTheDirectory(c: Config, e: Record, f: Record, g: Record) returns (w: World)
    requires Sound(c) && c.retain == 1 && KeepsHashes(c)
    requires Keeps(c, [First(c, e)]) && Keeps(c, [First(c, e), Second(c, e, f)])
    ensures Reachable(c, w) && !w.overrun && Boundary(w) == 2
    ensures forall dir, asJson :: SinkDirectory(dir, w.sink) ==>
              AuditExit(c.hash, c.decode, Listed(dir), Given(Published(w)), asJson) != Approved
  {
    var trace := Interrupted(c, e, f, g);
    var before, a := BothStored(c, e, f, g), Anchor(2, Second(c, e, f).hash, "");
    w := Apply(c, before, PublishBoundary(1, a));
    Advance(c, trace, before, PublishBoundary(1, a), w);
    BothPublished(c, e, f, g, a);
    forall dir, asJson | SinkDirectory(dir, w.sink)
      ensures AuditExit(c.hash, c.decode, Listed(dir), Given(Published(w)), asJson) != Approved
    {
      OrphanSpoils(c, w, dir, asJson, Segment(1, 1), [First(c, e)]);
    }
  }

  // The boundary that the second run publishes is not the first one's.
  lemma BothPublished(c: Config, e: Record, f: Record, g: Record, a: Anchor)
    requires Sound(c) && c.retain == 1 && Keeps(c, [First(c, e), Second(c, e, f)])
    requires a.length == 2 && a.head == Second(c, e, f).hash
    ensures var w := Apply(c, BothStored(c, e, f, g), PublishBoundary(1, a));
            && !w.overrun && Boundary(w) == 2 && Segment(1, 1) !in w.published
            && Segment(1, 1) in w.sink && w.sink[Segment(1, 1)] == c.encode([First(c, e)])
  {
    BothHold(c, e, f, g, BothStored(c, e, f, g).sink);
    PublishTwo(c, BothStored(c, e, f, g), a);
  }

  lemma OrphanSpoils(c: Config, w: World, dir: Directory, asJson: bool, orphan: Segment, rs: seq<Record>)
    requires Sound(c) && KeepsHashes(c) && Reachable(c, w) && !w.overrun && Boundary(w) == 2
    requires SinkDirectory(dir, w.sink) && Keeps(c, rs) && |rs| > 0
    requires orphan in w.sink && orphan !in w.published && w.sink[orphan] == c.encode(rs)
    ensures AuditExit(c.hash, c.decode, Listed(dir), Given(Published(w)), asJson) != Approved
  {
    TwelveDigits();
    SinkVerifiesIffNoOrphans(c, w, dir, asJson);
  }

  lemma PublishTwo(c: Config, w: World, a: Anchor)
    requires !w.overrun && |w.revisions| == 1 && c.retain == 1 && |w.history| == 3 && a.length == 2
    requires w.revisions[0].archivedLength == 0 && w.revisions[0].length == 2
    requires a.head == w.history[1].hash && Holds(c, w.sink, w.history, Segment(1, 2))
    requires w.published == [] && forall k :: k in w.records ==> k > 0
    ensures var w' := Apply(c, w, PublishBoundary(1, a));
            && w'.sink == w.sink && !w'.overrun && Boundary(w') == 2 && w'.published == [Segment(1, 2)]
  {
    assert ReadyToPublish(c, w, a);
  }

  lemma TwelveDigits()
    ensures 2 < Pow10(WIDTH)
  {
    assert Pow10(12) == 10 * Pow10(11) && Pow10(11) >= 1;
  }

  // ---------- the readers in the cluster ----------

  lemma NothingListed(c: Config)
    ensures Reachable(c, EMPTY) && IsListing([], EMPTY.records)
  {
    assert Execute(c, EMPTY, []) == EMPTY;
  }

  /**
   `Chain` can make a sound log look truncated: it lists an empty log, two records are appended and
   published, and the checkpoint it then reads says two. What it returns does not verify.
   */
  lemma TornReadLooksTruncated(c: Config, e: Record, f: Record) returns (w: World)
    requires Sound(c)
    ensures Leads(c, EMPTY, w) && !w.overrun && IsListing([], EMPTY.records)
    ensures Verified(c.hash, w.history, None, None).valid
    ensures !Verified(c.hash, Above([], Boundary(w)), AnchorOf(Published(w)), Published(w)).valid
  {
    var trace := TwoAppends(c, e, f);
    w := TwoPublished(c, e, f);
    assert Leads(c, EMPTY, w);
    NothingListed(c);
    LeadsFromReachable(c, EMPTY, w);
    HistoryIsOneChain(c, w);
    TornSnapshotVerifiesIff(c, EMPTY, w, []);
  }

  /** After one record has been archived, `Recorder.Verify` fails on the untouched log. */
  lemma VerifyFailsOnceArchived(c: Config, e: Record, f: Record) returns (w: World)
    requires Sound(c) && c.retain == 1 && Keeps(c, [First(c, e)])
    ensures Reachable(c, w) && !w.overrun && Verified(c.hash, w.history, None, None).valid
    ensures IsListing([Second(c, e, f)], w.records)
    ensures !Verified(c.hash, Above([Second(c, e, f)], Boundary(w)), None, Published(w)).valid
  {
    var trace;
    trace, w := FirstArchived(c, e, f);
    HistoryIsOneChain(c, w);
    VerifyIgnoresTheAnchor(c, w, [Second(c, e, f)]);
  }

  /** `cupel audit verify` crashes in text mode on a directory whose one segment file is empty. */
  lemma EmptyArchiveCrashes(h: Hash, decode: Decoder, file: CheckpointFile) returns (dir: Directory)
    requires decode("") == Some([]) && Usable(file)
    ensures dir == map["audit.jsonl" := File("")] && AuditExit(h, decode, Listed(dir), file, false) == Crashed
  {
    dir := map["audit.jsonl" := File("")];
    assert EndsWith("audit.jsonl", ".jsonl");
    assert "audit.jsonl" in SegmentFiles(dir);
    CrashesIff(h, decode, Listed(dir), file, false);
  }
}
