/**
 Safety of the audit-log protocol over every run: each step keeps the invariant, so every
 reachable state satisfies it until some writer overruns the archive boundary, and the condition
 under which a writer does that is exact.
 */
module ProtocolSafety {
  import opened Wrappers
  import opened Records
  import opened Chain
  import opened Protocol

  // ---------- facts about positions in the history ----------

  lemma HeadAfterPrefix(history: seq<Record>, n: nat)
    requires n <= |history|
    ensures HeadAfter(history[..n], GENESIS_HASH) == HashAt(history, n)
  {
  }

  lemma HistoryAt(c: Config, w: World, i: nat)
    requires Core(c, w) && i < |w.history|
    ensures w.history[i].sequence == i + 1
    ensures w.history[i].prevHash == HashAt(w.history, i)
    ensures w.history[i].hash == c.hash(w.history[i])
  {
    assert LinkAt(c.hash, w.history, i, 0, GENESIS_HASH);
  }

  lemma SuffixIsLinked(c: Config, history: seq<Record>, from: nat)
    requires Linked(c.hash, history, 0, GENESIS_HASH) && from <= |history|
    ensures Linked(c.hash, history[from..], from, HashAt(history, from))
  {
    assert history[..from] + history[from..] == history;
    LinkedSplit(c.hash, history[..from], history[from..], 0, GENESIS_HASH);
    HeadAfterPrefix(history, from);
  }

  // Any stretch of the history is intact from the point it attaches to.
  lemma StretchIsLinked(c: Config, history: seq<Record>, from: nat, to: nat)
    requires Linked(c.hash, history, 0, GENESIS_HASH) && from <= to <= |history|
    ensures Linked(c.hash, history[from..to], from, HashAt(history, from))
  {
    SuffixIsLinked(c, history, from);
    assert history[from..] == history[from..to] + history[to..];
    LinkedSplit(c.hash, history[from..to], history[to..], from, HashAt(history, from));
  }

  lemma HoldsGrows(c: Config, sink: map<Segment, string>, history: seq<Record>, history': seq<Record>, s: Segment)
    requires Holds(c, sink, history, s) && history <= history'
    ensures Holds(c, sink, history', s)
  {
    assert history'[s.first - 1..s.last] == history[s.first - 1..s.last];
    assert HashAt(history', s.first - 1) == HashAt(history, s.first - 1);
  }

  lemma HoldsInSink(
    c: Config, sink: map<Segment, string>, sink': map<Segment, string>, history: seq<Record>, s: Segment)
    requires Holds(c, sink, history, s)
    requires s in sink'
    requires sink'[s] == sink[s]
    ensures Holds(c, sink', history, s)
  {
  }

  // Appending to the history disturbs neither the checkpoint nor the archive.
  lemma GrowthKeepsRegister(w: World, w': World)
    requires RegisterOk(w) && w'.revisions == w.revisions && w.history <= w'.history
    ensures RegisterOk(w')
  {
    forall i | 0 <= i < |w'.revisions| ensures RevisionOk(w'.history, w'.revisions[i]) {
      assert RevisionOk(w.history, w.revisions[i]);
    }
  }

  lemma GrowthKeepsArchive(c: Config, w: World, w': World)
    requires ArchiveOk(c, w) && w'.revisions == w.revisions && w.history <= w'.history
    requires w'.sink == w.sink && w'.published == w.published
    ensures ArchiveOk(c, w')
  {
    forall i | 0 <= i < |w'.published| ensures Holds(c, w'.sink, w'.history, w'.published[i]) {
      HoldsGrows(c, w.sink, w.history, w'.history, w.published[i]);
    }
  }

  // ---------- one step: a writer creates a record ----------

  /** How much of the chain a writer had seen when it sealed its record. */
  function SeenLength(prev: Option<Record>): nat {
    if prev.None? then 0 else prev.value.sequence
  }

  // A creation that lands above the boundary lands at the end: everything between is stored.
  lemma LandsAtTheEnd(c: Config, w: World, event: Record, prev: Option<Record>)
    requires Core(c, w) && Observed(w.history, prev)
    requires SeenLength(prev) + 1 !in w.records && SeenLength(prev) + 1 > Boundary(w)
    ensures SeenLength(prev) == |w.history| && prev == LastOf(w.history)
  {
  }

  lemma CreateKeepsCore(c: Config, w: World, event: Record, prev: Option<Record>)
    requires Sound(c) && Core(c, w) && Observed(w.history, prev)
    requires SeenLength(prev) + 1 in w.records || SeenLength(prev) >= Boundary(w)
    ensures Core(c, AfterCreate(c, w, event, prev))
  {
    var w' := AfterCreate(c, w, event, prev);
    if SeenLength(prev) + 1 !in w.records {
      LandsAtTheEnd(c, w, event, prev);
      SealExtends(c.hash, w.history, event);
      GrowthKeepsRegister(w, w');
      GrowthKeepsArchive(c, w, w');
      assert Boundary(w') == Boundary(w);
      if |w.history| > 0 { HistoryAt(c, w, |w.history| - 1); }
      StoreAfterCreate(c, w, event);
    }
  }

  lemma StoreAfterCreate(c: Config, w: World, event: Record)
    requires StoreOk(w) && Boundary(w) <= |w.history|
    requires |w.history| > 0 ==> w.history[|w.history| - 1].sequence == |w.history|
    ensures var sealed := Seal(c.hash, event, LastOf(w.history));
            StoreOk(w.(records := w.records[sealed.sequence := sealed], history := w.history + [sealed]))
  {
    var sealed := Seal(c.hash, event, LastOf(w.history));
    var w' := w.(records := w.records[sealed.sequence := sealed], history := w.history + [sealed]);
    assert sealed.sequence == |w.history| + 1;
    assert Boundary(w') == Boundary(w);
    forall k | Boundary(w') < k <= |w'.history| ensures k in w'.records {
      if k <= |w.history| { assert k in w.records; }
    }
    forall j, k | j in w'.records && j <= k <= Boundary(w') ensures k in w'.records {
      assert j in w.records;
    }
  }

  /**
   The writer-lag condition is exact. From a good state, a create-if-absent sealed onto an
   observed head keeps the log good if and only if it collides or the writer had seen at least
   as much of the chain as has been archived. Otherwise it lands on the name of a deleted record
   and the history holds two records for one position.
   */
  lemma CreateIsSafeIff(c: Config, w: World, event: Record, prev: Option<Record>)
    requires Sound(c) && Core(c, w) && Observed(w.history, prev)
    ensures Core(c, AfterCreate(c, w, event, prev)) <==>
            SeenLength(prev) + 1 in w.records || SeenLength(prev) >= Boundary(w)
  {
    if SeenLength(prev) + 1 in w.records || SeenLength(prev) >= Boundary(w) {
      CreateKeepsCore(c, w, event, prev);
    } else {
      var w' := AfterCreate(c, w, event, prev);
      var n := |w.history|;
      assert w'.history[n].sequence == SeenLength(prev) + 1 <= Boundary(w) <= n;
      if Core(c, w') { HistoryAt(c, w', n); }
    }
  }

  /** A writer that has missed no more than `retain` records cannot overrun the boundary. */
  lemma LagWithinRetainIsSafe(c: Config, w: World, event: Record, prev: Option<Record>)
    requires Sound(c) && Core(c, w) && Observed(w.history, prev)
    requires |w.history| <= SeenLength(prev) + c.retain
    ensures Core(c, AfterCreate(c, w, event, prev))
    ensures AfterCreate(c, w, event, prev).overrun == w.overrun
  {
    CreateKeepsCore(c, w, event, prev);
  }

  // ---------- one step: the checkpoint ----------

  lemma AppendRevision(w: World, spec: CheckpointSpec)
    requires RegisterOk(w) && RevisionOk(w.history, spec)
    requires Current(w).Some? ==> HeadMoved(Current(w).value, spec) || BoundaryMoved(Current(w).value, spec)
    ensures RegisterOk(w.(revisions := w.revisions + [spec]))
  {
  }

  // The archive part of the invariant depends on nothing but the boundary, the sink, the history
  // and the published segments.
  lemma ArchiveFrame(c: Config, w: World, w': World)
    requires ArchiveOk(c, w) && Boundary(w') == Boundary(w)
    requires w'.sink == w.sink && w'.history == w.history && w'.published == w.published
    ensures ArchiveOk(c, w')
  {
  }

  predicate MovesHead(w: World, spec: CheckpointSpec) {
    && spec.archivedLength == Boundary(w)
    && (Current(w).Some? ==> HeadMoved(Current(w).value, spec))
  }

  lemma MergedHead(w: World, cp: Checkpoint, spec: CheckpointSpec)
    requires RegisterOk(w) && Describes(w.history, cp) && Merge(Current(w), cp) == Some(spec)
    ensures RevisionOk(w.history, spec) && MovesHead(w, spec)
  {
    if |w.revisions| > 0 { assert RevisionOk(w.history, w.revisions[|w.revisions| - 1]); }
  }

  lemma StoreFrame(w: World, w': World)
    requires StoreOk(w) && w'.records == w.records && w'.history == w.history && Boundary(w') == Boundary(w)
    ensures StoreOk(w')
  {
  }

  lemma HeadRevisionKeepsCore(c: Config, w: World, version: nat, spec: Option<CheckpointSpec>)
    requires Core(c, w)
    requires version == |w.revisions| && spec.Some? ==>
               RevisionOk(w.history, spec.value) && MovesHead(w, spec.value)
    ensures Core(c, Write(w, version, spec)) && Boundary(Write(w, version, spec)) == Boundary(w)
  {
    if version == |w.revisions| && spec.Some? {
      var w' := w.(revisions := w.revisions + [spec.value]);
      AppendRevision(w, spec.value);
      StoreFrame(w, w');
      ArchiveFrame(c, w, w');
    }
  }

  lemma PublishHeadKeepsCore(c: Config, w: World, version: nat, cp: Checkpoint)
    requires Core(c, w) && Describes(w.history, cp)
    ensures Core(c, Write(w, version, Merge(RevisionAt(w, version), cp)))
    ensures Boundary(Write(w, version, Merge(RevisionAt(w, version), cp))) == Boundary(w)
  {
    var merged := Merge(RevisionAt(w, version), cp);
    if version == |w.revisions| && merged.Some? {
      MergedHead(w, cp, merged.value);
    }
    HeadRevisionKeepsCore(c, w, version, merged);
  }

  lemma TilesGrow(published: seq<Segment>, boundary: nat, last: nat)
    requires Tiles(published, boundary) && boundary < last
    ensures Tiles(published + [Segment(boundary + 1, last)], last)
  {
  }

  lemma MovedBoundary(w: World, a: Anchor, spec: CheckpointSpec)
    requires RegisterOk(w) && 0 < a.length <= |w.history| && a.head == w.history[a.length - 1].hash
    requires Current(w).Some? && MoveBoundary(Current(w).value, a) == Some(spec)
    ensures RevisionOk(w.history, spec) && BoundaryMoved(Current(w).value, spec)
    ensures spec.archivedLength == a.length
  {
    assert RevisionOk(w.history, w.revisions[|w.revisions| - 1]);
  }

  lemma ArchiveAfterBoundary(c: Config, w: World, w': World, last: nat)
    requires ArchiveOk(c, w) && Boundary(w) < last == Boundary(w')
    requires Holds(c, w.sink, w.history, Segment(Boundary(w) + 1, last))
    requires w'.sink == w.sink && w'.history == w.history
    requires w'.published == w.published + [Segment(Boundary(w) + 1, last)]
    ensures ArchiveOk(c, w')
  {
    TilesGrow(w.published, Boundary(w), last);
  }

  lemma StoreAfterBoundary(w: World, w': World)
    requires StoreOk(w) && NothingPending(w) && Boundary(w) <= Boundary(w') <= |w.history|
    requires w'.records == w.records && w'.history == w.history
    ensures StoreOk(w')
  {
  }

  lemma BoundaryRevisionKeepsCore(c: Config, w: World, spec: CheckpointSpec)
    requires Core(c, w) && RevisionOk(w.history, spec) && Current(w).Some? && BoundaryMoved(Current(w).value, spec)
    requires Boundary(w) < spec.archivedLength && spec.archivedLength + c.retain <= |w.history|
    requires Holds(c, w.sink, w.history, Segment(Boundary(w) + 1, spec.archivedLength)) && NothingPending(w)
    ensures Core(c, w.(revisions := w.revisions + [spec],
                       published := w.published + [Segment(Boundary(w) + 1, spec.archivedLength)]))
  {
    var w' := w.(revisions := w.revisions + [spec],
              published := w.published + [Segment(Boundary(w) + 1, spec.archivedLength)]);
    AppendRevision(w, spec);
    GrowthKeepsRegister(w.(revisions := w'.revisions), w');
    ArchiveAfterBoundary(c, w, w', spec.archivedLength);
    StoreAfterBoundary(w, w');
  }

  lemma BoundaryIsWritten(w: World, a: Anchor, spec: CheckpointSpec)
    requires spec.archivedLength == a.length
    ensures BoundaryWritten(w, a, Some(spec)) ==
            w.(revisions := w.revisions + [spec],
            published := w.published + [Segment(Boundary(w) + 1, spec.archivedLength)])
  {
  }

  lemma BoundaryWriteKeepsCore(c: Config, w: World, a: Anchor, spec: Option<CheckpointSpec>)
    requires Core(c, w) && ReadyToPublish(c, w, a) && Current(w).Some?
    requires spec.Some? ==>
               && RevisionOk(w.history, spec.value) && BoundaryMoved(Current(w).value, spec.value)
               && spec.value.archivedLength == a.length
    ensures Core(c, BoundaryWritten(w, a, spec))
  {
    if spec.Some? {
      BoundaryRevisionKeepsCore(c, w, spec.value);
      BoundaryIsWritten(w, a, spec.value);
    }
  }

  lemma PublishBoundaryKeepsCore(c: Config, w: World, version: nat, a: Anchor)
    requires Sound(c) && Core(c, w) && ReadyToPublish(c, w, a)
    ensures Core(c, AfterBoundary(w, version, a))
  {
    if version == |w.revisions| && Current(w).Some? {
      var moved := MoveBoundary(Current(w).value, a);
      if moved.Some? { MovedBoundary(w, a, moved.value); }
      BoundaryWriteKeepsCore(c, w, a, moved);
    }
  }

  // ---------- one step: the sink and the deletions ----------

  // A file the archiver writes or removes is never one whose boundary was published.
  lemma SinkKeepsPublished(c: Config, w: World, sink': map<Segment, string>, last: nat)
    requires ArchiveOk(c, w)
    requires forall n :: n != Segment(Boundary(w) + 1, last) ==>
               (n in sink' <==> n in w.sink) && (n in w.sink ==> sink'[n] == w.sink[n])
    ensures ArchiveOk(c, w.(sink := sink'))
  {
    forall i | 0 <= i < |w.published| ensures Holds(c, sink', w.history, w.published[i]) {
      var s := w.published[i];
      TileWithinBoundary(w.published, Boundary(w), i);
      HoldsInSink(c, w.sink, sink', w.history, s);
    }
  }

  lemma {:induction false} TileWithinBoundary(published: seq<Segment>, boundary: nat, i: nat)
    requires Tiles(published, boundary) && i < |published|
    ensures published[i].last <= boundary
    decreases |published| - i
  {
    if i + 1 < |published| {
      TileWithinBoundary(published, boundary, i + 1);
    }
  }

  lemma SinkStepKeepsCore(c: Config, w: World, sink': map<Segment, string>, last: nat)
    requires Core(c, w)
    requires forall n :: n != Segment(Boundary(w) + 1, last) ==>
               (n in sink' <==> n in w.sink) && (n in w.sink ==> sink'[n] == w.sink[n])
    ensures Core(c, w.(sink := sink'))
  {
    SinkKeepsPublished(c, w, sink', last);
  }

  lemma StoreAfterDelete(w: World, k: nat)
    requires StoreOk(w) && k <= Boundary(w) && forall j :: j in w.records ==> k <= j
    ensures StoreOk(w.(records := w.records - {k}))
  {
    assert Boundary(w.(records := w.records - {k})) == Boundary(w);
  }

  lemma DeleteKeepsCore(c: Config, w: World, k: nat)
    requires Core(c, w) && k <= Boundary(w) && forall j :: j in w.records ==> k <= j
    ensures Core(c, w.(records := w.records - {k}))
  {
    var w' := w.(records := w.records - {k});
    StoreAfterDelete(w, k);
    GrowthKeepsRegister(w, w');
    ArchiveFrame(c, w, w');
  }

  // ---------- every step, every run ----------

  lemma StepKeepsNumbering(c: Config, w: World, s: Step)
    requires Numbered(w)
    ensures Numbered(Apply(c, w, s))
  {
  }

  lemma CreateKeptOrOverrun(c: Config, w: World, event: Record, prev: Option<Record>)
    requires Sound(c) && Core(c, w) && Observed(w.history, prev)
    ensures AfterCreate(c, w, event, prev).overrun || Core(c, AfterCreate(c, w, event, prev))
  {
    if SeenLength(prev) + 1 in w.records || SeenLength(prev) >= Boundary(w) {
      CreateKeepsCore(c, w, event, prev);
    }
  }

  lemma CoreKeptOrOverrun(c: Config, w: World, s: Step)
    requires Sound(c) && Core(c, w) && !w.overrun && Enabled(c, w, s)
    ensures Effect(c, w, s).overrun || Core(c, Effect(c, w, s))
  {
    match s
    case Create(event, prev) => CreateKeptOrOverrun(c, w, event, prev);
    case PublishHead(version, cp) => PublishHeadKeepsCore(c, w, version, cp);
    case PublishBoundary(version, a) => PublishBoundaryKeepsCore(c, w, version, a);
    case StoreSegment(first, last, data) => SinkStepKeepsCore(c, w, Effect(c, w, s).sink, last);
    case DiscardSegment(first, last) => SinkStepKeepsCore(c, w, Effect(c, w, s).sink, last);
    case DeleteRecord(k) => DeleteKeepsCore(c, w, k);
  }

  lemma StepEvolves(c: Config, w: World, s: Step)
    ensures Evolves(w, Apply(c, w, s))
  {
  }

  lemma StepKeepsInvariant(c: Config, w: World, s: Step)
    requires Sound(c) && Invariant(c, w)
    ensures Invariant(c, Apply(c, w, s))
  {
    StepKeepsNumbering(c, w, s);
    StepEvolves(c, w, s);
    if !w.overrun && Enabled(c, w, s) {
      CoreKeptOrOverrun(c, w, s);
    }
  }

  lemma EmptyIsGood(c: Config)
    ensures Invariant(c, EMPTY)
  {
  }

  /** The invariant holds after every run: every interleaving, every crash point, any sink. */
  lemma {:induction false} RunsAreSafe(c: Config, trace: seq<Step>)
    requires Sound(c)
    ensures Invariant(c, Execute(c, EMPTY, trace))
  {
    if |trace| == 0 {
      EmptyIsGood(c);
    } else {
      var n := |trace| - 1;
      RunsAreSafe(c, trace[..n]);
      StepKeepsInvariant(c, Execute(c, EMPTY, trace[..n]), trace[n]);
    }
  }

  /** No writer, when it creates a record, has missed more than `retain` of those before it. */
  ghost predicate Timely(c: Config, trace: seq<Step>) {
    forall i :: 0 <= i < |trace| && trace[i].Create? ==>
      |Execute(c, EMPTY, trace[..i]).history| <= SeenLength(trace[i].prev) + c.retain
  }

  lemma TimelyStep(c: Config, w: World, s: Step)
    requires Sound(c) && Core(c, w) && !w.overrun
    requires s.Create? ==> |w.history| <= SeenLength(s.prev) + c.retain
    ensures !Apply(c, w, s).overrun && Core(c, Apply(c, w, s))
  {
    if Enabled(c, w, s) {
      if s.Create? { LagWithinRetainIsSafe(c, w, s.event, s.prev); } else { CoreKeptOrOverrun(c, w, s); }
    }
  }

  /** A run in which no writer lags by more than `retain` never overruns, and keeps everything. */
  lemma {:induction false} TimelyRunsNeverOverrun(c: Config, trace: seq<Step>)
    requires Sound(c) && Timely(c, trace)
    ensures !Execute(c, EMPTY, trace).overrun && Core(c, Execute(c, EMPTY, trace))
  {
    if |trace| == 0 {
      EmptyIsGood(c);
    } else {
      var n := |trace| - 1;
      forall i | 0 <= i < n && trace[..n][i].Create?
        ensures |Execute(c, EMPTY, trace[..n][..i]).history| <= SeenLength(trace[..n][i].prev) + c.retain
      {
        assert trace[..n][..i] == trace[..i];
      }
      TimelyRunsNeverOverrun(c, trace[..n]);
      TimelyStep(c, Execute(c, EMPTY, trace[..n]), trace[n]);
    }
  }

  /** The state some run ends in. */
  ghost predicate Reachable(c: Config, w: World) {
    exists trace :: w == Execute(c, EMPTY, trace)
  }

  /** A state that a run from `w` ends in. */
  ghost predicate Leads(c: Config, w: World, w': World) {
    exists trace :: w' == Execute(c, w, trace)
  }

  lemma ReachableIsGood(c: Config, w: World)
    requires Sound(c) && Reachable(c, w)
    ensures Invariant(c, w)
  {
    var trace :| w == Execute(c, EMPTY, trace);
    RunsAreSafe(c, trace);
  }

  lemma LeadsFromReachable(c: Config, w: World, w': World)
    requires Reachable(c, w) && Leads(c, w, w')
    ensures Reachable(c, w') && Evolves(w, w')
  {
    var trace :| w == Execute(c, EMPTY, trace);
    var more :| w' == Execute(c, w, more);
    ExecuteSplit(c, EMPTY, trace, more);
    RunsEvolve(c, w, more);
  }

  lemma {:induction false} ExecuteSplit(c: Config, w: World, a: seq<Step>, b: seq<Step>)
    ensures Execute(c, w, a + b) == Execute(c, Execute(c, w, a), b)
  {
    if |b| == 0 {
      assert a + b == a;
    } else {
      var n := |b| - 1;
      var t := a + b;
      assert t[..|t| - 1] == a + b[..n] && t[|t| - 1] == b[n];
      ExecuteSplit(c, w, a, b[..n]);
    }
  }

  /** Histories, checkpoint revisions and published segments are only ever extended. */
  lemma {:induction false} RunsEvolve(c: Config, w: World, trace: seq<Step>)
    ensures Evolves(w, Execute(c, w, trace))
  {
    if |trace| > 0 {
      var n := |trace| - 1;
      RunsEvolve(c, w, trace[..n]);
      StepEvolves(c, Execute(c, w, trace[..n]), trace[n]);
    }
  }

  predicate AllWriters(trace: seq<Step>) {
    forall i :: 0 <= i < |trace| ==> WriterStep(trace[i])
  }

  lemma CreateEvolves(c: Config, w: World, event: Record, prev: Option<Record>)
    ensures WritersEvolve(w, AfterCreate(c, w, event, prev))
  {
  }

  lemma WriteEvolves(w: World, version: nat, spec: Option<CheckpointSpec>)
    requires Boundary(Write(w, version, spec)) == Boundary(w)
    ensures WritersEvolve(w, Write(w, version, spec))
  {
  }

  lemma PublishHeadEvolves(c: Config, w: World, version: nat, cp: Checkpoint)
    requires w.overrun || (Core(c, w) && Describes(w.history, cp))
    ensures WritersEvolve(w, Write(w, version, Merge(RevisionAt(w, version), cp)))
  {
    if !w.overrun {
      PublishHeadKeepsCore(c, w, version, cp);
      WriteEvolves(w, version, Merge(RevisionAt(w, version), cp));
    }
  }

  lemma WriterStepEvolves(c: Config, w: World, s: Step)
    requires Sound(c) && Invariant(c, w) && WriterStep(s)
    ensures WritersEvolve(w, Apply(c, w, s))
  {
    match s
    case Create(event, prev) => CreateEvolves(c, w, event, prev);
    case PublishHead(version, cp) =>
      if Enabled(c, w, s) { PublishHeadEvolves(c, w, version, cp); }
  }

  lemma WritersEvolveTransitive(a: World, b: World, d: World)
    requires WritersEvolve(a, b) && WritersEvolve(b, d)
    ensures WritersEvolve(a, d)
  {
  }

  /** While only writers run, nothing is deleted, the archive is untouched and the boundary stays. */
  lemma {:induction false} WritersLeaveTheArchiveAlone(c: Config, w: World, trace: seq<Step>)
    requires Sound(c) && Invariant(c, w) && AllWriters(trace)
    ensures WritersEvolve(w, Execute(c, w, trace)) && Invariant(c, Execute(c, w, trace))
  {
    if |trace| > 0 {
      var n := |trace| - 1;
      var m := Execute(c, w, trace[..n]);
      WritersLeaveTheArchiveAlone(c, w, trace[..n]);
      var w' := Apply(c, m, trace[n]);
      WriterStepEvolves(c, m, trace[n]);
      StepKeepsInvariant(c, m, trace[n]);
      WritersEvolveTransitive(w, m, w');
      assert Execute(c, w, trace) == ExecuteLast(c, w, trace) == w';
    }
  }
}
