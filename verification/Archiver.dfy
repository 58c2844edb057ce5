/**
 The archiver (internal/audit/archive.go): moving the front of the chain out of the cluster in an
 order that cannot lose a record. Every API call may fail, or land and not be answered, so every
 return below is also a place where the process may have stopped.

 One archiver runs at a time (internal/maintenance/loop.go); any number of writers run beside it.
 */
module Archiving {
  import opened Wrappers
  import opened Records
  import opened Chain
  import opened Protocol
  import opened ProtocolSafety
  import opened Guarantees
  import opened ApiServer
  import opened Recording

  const DEFAULT_THRESHOLD: nat := 50_000
  const DEFAULT_RETAIN: nat := 10_000

  /** Why a segment that was written is not trusted. */
  datatype Rejection =
    | CannotBeReadBack(cause: ApiError)
    | ReadsBackDifferently
    | DoesNotParse
    | NoLongerVerifies(problems: seq<Problem>)

  /** What became of a segment that was not trusted: a sink need not be able to remove one. */
  datatype Cleanup = CannotRemove | FileRemoved | FileLeft(cause: ApiError)

  datatype RunFailure =
    | LogFailed(cause: Failure)
    | RefusedToArchive(problems: seq<Problem>)
    | NotWritten(sink: ApiError)
    | Rejected(why: Rejection, cleanup: Cleanup)

  /** The front of the retained chain, cut where a run archives it, with the anchor it was read at. */
  ghost predicate FrontCut(c: Config, w: World, segment: seq<Record>, anchor: Option<Anchor>) {
    var b := Boundary(w);
    && |segment| > 0 && b + |segment| + c.retain <= |w.history|
    && segment == w.history[b..b + |segment|]
    && Offset(anchor) == b && Start(anchor) == HashAt(w.history, b)
    && NothingPending(w)
  }

  /** The archive boundary and the list of published segments are where they were. */
  ghost predicate SameBoundary(w: World, w': World) {
    Boundary(w') == Boundary(w) && w'.published == w.published
  }

  /** Nothing was deleted and no boundary was published. */
  ghost predicate NothingMoved(w: World, w': World) {
    SameBoundary(w, w') && forall k :: k in w.records ==> k in w'.records
  }

  /** Every file in the sink was there before or has its boundary published. */
  ghost predicate NoNewOrphans(w: World, w': World) {
    forall t :: t in w'.sink ==> t in w.sink || t in w'.published
  }

  /** The sink holds the files it held, and possibly this segment's. */
  ghost predicate OnlyAdds(w: World, w': World, s: Segment) {
    forall t :: t in w'.sink ==> t in w.sink || t == s
  }

  /** The codec gives back what was encoded. */
  ghost predicate RoundTrips(c: Config) {
    forall rs :: c.decode(c.encode(rs)) == Some(rs)
  }

  /** The checkpoint lags by more records than a run retains, or there is none. */
  ghost predicate Behind(c: Config, w: World) {
    CheckpointedLength(w.revisions) + c.retain < |w.history|
  }

  /** A failure that leaves no file behind. */
  predicate LeavesNothing(f: RunFailure) {
    f.RefusedToArchive? || (f.Rejected? && f.cleanup.FileRemoved?)
  }

  /** Some record from position `i` of a listing on has this sequence number. */
  predicate StillListed(stored: seq<Record>, i: nat, sequence: nat) {
    exists j :: i <= j < |stored| && stored[j].sequence == sequence
  }

  // Everything at or below the boundary is among the records of the listing not yet handled.
  ghost predicate Unswept(w: World, stored: seq<Record>, i: nat) {
    forall k :: k in w.records && k <= Boundary(w) ==> StillListed(stored, i, k)
  }

  lemma AllListed(w: World, stored: seq<Record>)
    requires IsListing(stored, w.records) && Numbered(w)
    ensures Unswept(w, stored, 0)
  {
    forall k | k in w.records ensures StillListed(stored, 0, k) {
      assert w.records[k] in stored;
      var j :| 0 <= j < |stored| && stored[j] == w.records[k];
    }
  }

  lemma SweptOne(w: World, w': World, stored: seq<Record>, i: nat)
    requires i < |stored| && Increasing(stored) && Unswept(w, stored, i) && Boundary(w') == Boundary(w)
    requires forall k :: k in w'.records && k <= Boundary(w) ==> k in w.records
    requires stored[i].sequence !in w'.records || stored[i].sequence > Boundary(w)
    ensures Unswept(w', stored, i + 1)
  {
    forall k | k in w'.records && k <= Boundary(w') ensures StillListed(stored, i + 1, k) {
      assert StillListed(stored, i, k);
      var j :| i <= j < |stored| && stored[j].sequence == k;
      assert j != i;
    }
  }

  lemma LeastUnswept(w: World, stored: seq<Record>, i: nat)
    requires i < |stored| && Increasing(stored) && Unswept(w, stored, i)
    requires stored[i].sequence <= Boundary(w)
    ensures forall k :: k in w.records ==> stored[i].sequence <= k
  {
    forall k | k in w.records && k <= Boundary(w) ensures stored[i].sequence <= k {
      assert StillListed(stored, i, k);
    }
  }

  /** How many of the `n` positions from `first` on are stored. */
  function CountStored(records: map<nat, Record>, first: nat, n: nat): nat {
    if n == 0 then 0
    else CountStored(records, first, n - 1) + if first + n - 1 in records then 1 else 0
  }

  lemma {:induction false} AllCounted(records: map<nat, Record>, first: nat, n: nat)
    requires forall k :: first <= k < first + n ==> k in records
    ensures CountStored(records, first, n) == n
  {
    if n > 0 { AllCounted(records, first, n - 1); }
  }

  /** Of the records the boundary covers, at most the one named is gone, and the answer says whether. */
  ghost predicate Deleted(w: World, w': World, sequence: nat, r: Result<(), ApiError>) {
    && (forall k :: k in w'.records && k <= Boundary(w) ==> k in w.records)
    && (forall k :: k in w.records && k != sequence ==> k in w'.records)
    && (r.Ok? ==> sequence in w.records && sequence !in w'.records)
    && (r == Err(NotFound) ==> sequence !in w.records && sequence !in w'.records)
  }

  lemma FrontIsLinked(c: Config, w: World, segment: seq<Record>, anchor: Option<Anchor>)
    requires Core(c, w) && FrontCut(c, w, segment, anchor)
    ensures Linked(c.hash, segment, Offset(anchor), Start(anchor))
    ensures segment[0].sequence == Boundary(w) + 1
    ensures segment[|segment| - 1].sequence == Boundary(w) + |segment|
  {
    StretchIsCut(c, w.history, segment, anchor);
  }

  lemma StretchIsCut(c: Config, history: seq<Record>, segment: seq<Record>, anchor: Option<Anchor>)
    requires Linked(c.hash, history, 0, GENESIS_HASH)
    requires var b := Offset(anchor);
             && 0 < |segment| <= |history| - b && segment == history[b..b + |segment|]
             && Start(anchor) == HashAt(history, b)
    ensures Linked(c.hash, segment, Offset(anchor), Start(anchor))
    ensures segment[0].sequence == Offset(anchor) + 1
    ensures segment[|segment| - 1].sequence == Offset(anchor) + |segment|
  {
    StretchIsLinked(c, history, Offset(anchor), Offset(anchor) + |segment|);
    LinkedNumbers(c.hash, segment, Offset(anchor), Start(anchor));
  }

  lemma LinkedNumbers(h: Hash, records: seq<Record>, offset: nat, prevHash: string)
    requires |records| > 0 && Linked(h, records, offset, prevHash)
    ensures records[0].sequence == offset + 1 && records[|records| - 1].sequence == offset + |records|
  {
    assert LinkAt(h, records, 0, offset, prevHash) && LinkAt(h, records, |records| - 1, offset, prevHash);
  }

  lemma OutcomeAfter(w: World, m: World, w': World, moved: nat, failure: Option<RunFailure>, s: Segment)
    requires NothingMoved(w, m) && OnlyAdds(w, m, s) && RunOutcome(m, w', moved, failure)
    requires failure.None? ==> s in w'.published
    requires failure.Some? ==> failure.value.LogFailed?
    ensures RunOutcome(w, w', moved, failure)
  {
  }

  // A front that has been written and read back is ready to be published.
  lemma CutIsReady(c: Config, w: World, segment: seq<Record>, anchor: Option<Anchor>, a: Anchor)
    requires FrontCut(c, w, segment, anchor)
    requires Holds(c, w.sink, w.history, Segment(Boundary(w) + 1, Boundary(w) + |segment|))
    requires a.length == Boundary(w) + |segment| && a.head == segment[|segment| - 1].hash
    ensures ReadyToPublish(c, w, a)
  {
  }

  class Archiver {
    const api: Cluster
    const recorder: Recorder
    const threshold: int
    const retain: int
    // Whether the sink implements the optional interface for removing a segment.
    const canRemove: bool

    constructor (recorder: Recorder, threshold: int, retain: int, canRemove: bool)
      requires recorder.inArchiver
      requires recorder.api.config.retain == if retain > 0 then retain else DEFAULT_RETAIN
      ensures this.recorder == recorder && this.threshold == threshold && this.retain == retain
      ensures this.canRemove == canRemove
      ensures Threshold() == if threshold > 0 then threshold else 50_000
      ensures Retain() == if retain > 0 then retain else 10_000
      ensures Wired()
    {
      this.api, this.recorder, this.threshold, this.retain := recorder.api, recorder, threshold, retain;
      this.canRemove := canRemove;
    }

    function Threshold(): nat {
      if threshold > 0 then threshold else DEFAULT_THRESHOLD
    }

    function Retain(): nat {
      if retain > 0 then retain else DEFAULT_RETAIN
    }

    ghost predicate Wired() {
      recorder.api == api && recorder.inArchiver && Retain() == api.config.retain
    }

    // Beside the archiver only writers run: nothing it relies on moves.
    method Wait(ghost segment: seq<Record>, ghost anchor: Option<Anchor>)
      requires api.Valid()
      modifies api
      ensures api.Valid() && old(api.trace) <= api.trace
      ensures api.Undisturbed(old(api.disturbed), old(api.trace), old(api.State()))
      ensures api.sink == old(api.sink) && (old(api.overrun) ==> api.overrun)
      ensures !api.overrun ==> WritersEvolve(old(api.State()), api.State())
      ensures !api.overrun && FrontCut(api.config, old(api.State()), segment, anchor) ==>
                FrontCut(api.config, api.State(), segment, anchor)
    {
      ghost var t, w := api.trace, api.State();
      api.OthersRun(true);
      api.SinceWriters(t);
      if !api.overrun && FrontCut(api.config, w, segment, anchor) { CutStays(w, segment, anchor); }
    }

    lemma CutStays(w: World, segment: seq<Record>, anchor: Option<Anchor>)
      requires FrontCut(api.config, w, segment, anchor)
      requires WritersEvolve(w, api.State()) && !api.overrun
      ensures FrontCut(api.config, api.State(), segment, anchor)
    {
    }

    /**
     `sweep`: finish what an interrupted run left. On success nothing the boundary covers is
     stored, and either way the boundary stays where it is.
     */
    method Sweep() returns (r: Result<(), Failure>)
      requires Wired() && api.Valid()
      modifies api
      ensures api.Valid() && old(api.trace) <= api.trace
      ensures old(api.disturbed) <= api.disturbed && (r.Err? ==> api.disturbed > old(api.disturbed))
      ensures !api.overrun ==> SameBoundary(old(api.State()), api.State()) && api.sink == old(api.sink)
      ensures r.Ok? && !api.overrun ==> NothingPending(api.State())
    {
      Wait([], None);
      var found := api.GetCheckpoint();
      if found == Err(NotFound) {
        if !api.overrun { NothingCovered(); }
        return Ok(());
      }
      if found.Err? { return Err(ApiFailed(found.error)); }
      var anchor := FromApi(found.value.0).archived;
      if anchor.None? || anchor.value.length == 0 {
        if !api.overrun { NothingCovered(); }
        return Ok(());
      }
      if !api.overrun { api.CheckpointBoundary(); }
      r := SweepThrough(anchor.value.length);
    }

    // `sweep` once it knows the boundary: one read decides whether there is anything to delete.
    method SweepThrough(boundary: nat) returns (r: Result<(), Failure>)
      requires Wired() && api.Valid() && 0 < boundary && (!api.overrun ==> boundary == Boundary(api.State()))
      modifies api
      ensures api.Valid() && old(api.trace) <= api.trace && (old(api.overrun) ==> api.overrun)
      ensures old(api.disturbed) <= api.disturbed && (r.Err? ==> api.disturbed > old(api.disturbed))
      ensures !api.overrun ==> SameBoundary(old(api.State()), api.State()) && api.sink == old(api.sink)
      ensures r.Ok? && !api.overrun ==> NothingPending(api.State())
    {
      Wait([], None);
      var last := api.GetRecord(boundary);
      if last == Err(NotFound) {
        if !api.overrun { SweepReadDecides(api.config, api.State()); }
        return Ok(());
      }
      if last.Err? { return Err(ApiFailed(last.error)); }
      ghost var t := api.trace;
      var loaded := recorder.Load();
      api.SinceWriters(t);
      if loaded.Err? { return Err(loaded.error); }
      r := DeleteListed(loaded.value, boundary);
    }

    // Before anything has been archived there is nothing to sweep.
    lemma NothingCovered()
      requires api.Valid() && Boundary(api.State()) == 0
      ensures NothingPending(api.State())
    {
      api.Good();
    }

    // One deletion, at or below everything that is stored.
    method DeleteNext(sequence: nat) returns (r: Result<(), ApiError>)
      requires api.Valid()
      requires !api.overrun ==> sequence <= Boundary(api.State()) && forall k :: k in api.records ==> sequence <= k
      modifies api
      ensures api.Valid() && old(api.trace) <= api.trace && (old(api.overrun) ==> api.overrun)
      ensures old(api.disturbed) <= api.disturbed
      ensures r.Err? && r.error != NotFound ==> api.disturbed > old(api.disturbed)
      ensures !api.overrun ==> SameBoundary(old(api.State()), api.State()) && api.sink == old(api.sink)
      ensures !api.overrun ==> Deleted(old(api.State()), api.State(), sequence, r)
    {
      Wait([], None);
      r := api.Delete(sequence);
    }

    // The loop of `sweep` over what is actually there.
    method DeleteListed(stored: seq<Record>, boundary: nat) returns (r: Result<(), Failure>)
      requires Wired() && api.Valid() && IsListing(stored, api.records)
      requires !api.overrun ==> boundary == Boundary(api.State())
      modifies api
      ensures api.Valid() && old(api.trace) <= api.trace && (old(api.overrun) ==> api.overrun)
      ensures old(api.disturbed) <= api.disturbed && (r.Err? ==> api.disturbed > old(api.disturbed))
      ensures !api.overrun ==> SameBoundary(old(api.State()), api.State()) && api.sink == old(api.sink)
      ensures r.Ok? && !api.overrun ==> NothingPending(api.State())
    {
      ghost var w := api.State();
      api.Good();
      AllListed(w, stored);
      var i := 0;
      while i < |stored|
        invariant api.Valid() && old(api.trace) <= api.trace && (w.overrun ==> api.overrun)
        invariant old(api.disturbed) <= api.disturbed
        invariant 0 <= i <= |stored|
        invariant !api.overrun ==> SameBoundary(w, api.State()) && api.sink == w.sink
        invariant !api.overrun ==> Unswept(api.State(), stored, i)
      {
        ghost var before := api.State();
        if stored[i].sequence <= boundary {
          if !api.overrun { LeastUnswept(api.State(), stored, i); }
          var deleted := DeleteNext(stored[i].sequence);
          if deleted.Err? && deleted.error != NotFound { return Err(ApiFailed(deleted.error)); }
        }
        if !api.overrun { SweptOne(before, api.State(), stored, i); }
        i := i + 1;
      }
      return Ok(());
    }

    /**
     `deleteThrough`: delete by name, in ascending order. Records already gone are not an error,
     and the count is of those that were there.
     */
    method DeleteThrough(first: nat, last: nat) returns (deleted: nat, failure: Option<Failure>)
      requires Wired() && api.Valid()
      requires !api.overrun ==>
                 first <= last <= Boundary(api.State()) && forall k :: k in api.records ==> first <= k
      modifies api
      ensures api.Valid() && old(api.trace) <= api.trace && (old(api.overrun) ==> api.overrun)
      ensures old(api.disturbed) <= api.disturbed && (failure.Some? ==> api.disturbed > old(api.disturbed))
      ensures !api.overrun ==> SameBoundary(old(api.State()), api.State()) && api.sink == old(api.sink)
      ensures failure.None? && !api.overrun ==>
                && (forall k :: k in api.records ==> k > last)
                && deleted == CountStored(old(api.records), first, last + 1 - first)
    {
      ghost var w := api.State();
      deleted := 0;
      var sequence := first;
      while sequence <= last
        invariant api.Valid() && old(api.trace) <= api.trace && (w.overrun ==> api.overrun)
        invariant old(api.disturbed) <= api.disturbed
        invariant first <= sequence && (!api.overrun ==> sequence <= last + 1)
        invariant !api.overrun ==> SameBoundary(w, api.State()) && api.sink == w.sink
        invariant !api.overrun ==> forall k :: k in api.records ==> sequence <= k
        invariant !api.overrun ==> forall k :: sequence <= k <= last ==> (k in api.records <==> k in w.records)
        invariant !api.overrun ==> deleted == CountStored(w.records, first, sequence - first)
      {
        var gone := DeleteNext(sequence);
        if gone.Ok? {
          deleted := deleted + 1;
        } else if gone.error != NotFound {
          return deleted, Some(ApiFailed(gone.error));
        }
        sequence := sequence + 1;
      }
      return deleted, None;
    }

    /**
     `reject`: say why a segment could not be trusted, having discarded it if the sink can do that.
     What is reported of the file is so, and nothing else changes.
     */
    method Reject(s: Segment, why: Rejection) returns (failure: RunFailure)
      requires Wired() && api.Valid() && (!api.overrun ==> s.first == Boundary(api.State()) + 1)
      modifies api
      ensures api.Valid() && old(api.trace) <= api.trace && (old(api.overrun) ==> api.overrun)
      ensures old(api.disturbed) <= api.disturbed
      ensures !api.overrun ==> NothingMoved(old(api.State()), api.State())
      ensures failure.Rejected? && failure.why == why
      ensures failure.cleanup.FileLeft? ==> api.disturbed > old(api.disturbed)
      ensures failure.cleanup.FileRemoved? ==> s !in api.sink
      ensures failure.cleanup.CannotRemove? <==> !canRemove
      ensures !canRemove ==> api.sink == old(api.sink)
      ensures forall t :: t in api.sink ==> t in old(api.sink)
      ensures forall t :: t in old(api.sink) && t != s ==> t in api.sink && api.sink[t] == old(api.sink[t])
    {
      if !canRemove { return Rejected(why, CannotRemove); }
      Wait([], None);
      var removed := api.SinkRemove(s);
      return Rejected(why, if removed.Ok? then FileRemoved else FileLeft(removed.error));
    }

    /**
     Write the segment, read it back, and verify what was read: on success the file holds exactly
     these records and what decodes from it verifies in their place. Otherwise nothing is deleted.
     */
    method WriteAndReadBack(s: Segment, segment: seq<Record>, anchor: Option<Anchor>)
      returns (r: Result<string, RunFailure>)
      requires Wired() && api.Valid() && (!api.overrun ==> IsCut(api.State(), s, segment, anchor)) && |segment| > 0
      modifies api
      ensures api.Valid() && old(api.trace) <= api.trace && (old(api.overrun) ==> api.overrun)
      ensures old(api.disturbed) <= api.disturbed
      ensures !api.overrun ==> NothingMoved(old(api.State()), api.State())
      ensures r.Ok? && !api.overrun ==>
                ReadyToPublish(api.config, api.State(), Anchor(s.last, segment[|segment| - 1].hash, r.value))
      ensures r.Err? ==> r.error.NotWritten? || r.error.Rejected?
      ensures r.Err? ==> api.disturbed > old(api.disturbed) || !Restores(segment, anchor)
      ensures OnlyAdds(old(api.State()), api.State(), s)
      ensures r.Err? && LeavesNothing(r.error) ==> s !in api.sink
    {
      var data := api.config.encode(segment);
      var written := Store(s, data, segment, anchor);
      if written.Err? { return Err(NotWritten(written.error)); }
      var failure := Examine(s, data, segment, anchor, Anchor(s.last, segment[|segment| - 1].hash, written.value));
      return if failure.Some? then Err(failure.value) else Ok(written.value);
    }

    ghost predicate IsCut(w: World, s: Segment, segment: seq<Record>, anchor: Option<Anchor>) {
      && FrontCut(api.config, w, segment, anchor)
      && s == Segment(Boundary(w) + 1, Boundary(w) + |segment|)
    }

    method Store(s: Segment, data: string, ghost segment: seq<Record>, ghost anchor: Option<Anchor>)
      returns (r: Result<string, ApiError>)
      requires Wired() && api.Valid() && (!api.overrun ==> IsCut(api.State(), s, segment, anchor))
      modifies api
      ensures api.Valid() && old(api.trace) <= api.trace && (old(api.overrun) ==> api.overrun)
      ensures old(api.disturbed) <= api.disturbed && (r.Err? ==> api.disturbed > old(api.disturbed))
      ensures api.disturbed == old(api.disturbed) ==> s in api.sink && api.sink[s] == data
      ensures !api.overrun ==> NothingMoved(old(api.State()), api.State())
      ensures !api.overrun ==> IsCut(api.State(), s, segment, anchor)
      ensures OnlyAdds(old(api.State()), api.State(), s)
    {
      Wait(segment, anchor);
      r := api.SinkPut(s, data);
    }

    // Read it back before trusting it, and discard what cannot be trusted.
    method Examine(s: Segment, data: string, ghost segment: seq<Record>, anchor: Option<Anchor>, ghost a: Anchor)
      returns (failure: Option<RunFailure>)
      requires Wired() && api.Valid() && (!api.overrun ==> IsCut(api.State(), s, segment, anchor))
      requires data == api.config.encode(segment)
      requires |segment| > 0 && a.length == s.last && a.head == segment[|segment| - 1].hash
      modifies api
      ensures api.Valid() && old(api.trace) <= api.trace && (old(api.overrun) ==> api.overrun)
      ensures old(api.disturbed) <= api.disturbed
      ensures !api.overrun ==> NothingMoved(old(api.State()), api.State())
      ensures failure.None? && !api.overrun ==> ReadyToPublish(api.config, api.State(), a)
      ensures failure.Some? ==> failure.value.Rejected?
      ensures failure.Some? && api.disturbed == old(api.disturbed) && s in old(api.sink) && old(api.sink[s]) == data ==>
                !Restores(segment, anchor)
      ensures forall t :: t in api.sink ==> t in old(api.sink)
      ensures failure.Some? && LeavesNothing(failure.value) ==> s !in api.sink
    {
      var why := Judge(s, data, segment, anchor, a);
      if why.None? { return None; }
      var rejected := Reject(s, why.value);
      return Some(rejected);
    }

    // What is wrong with the file, as it is when it is read back; if nothing is, it is ready to be published.
    method Judge(s: Segment, data: string, ghost segment: seq<Record>, anchor: Option<Anchor>, ghost a: Anchor)
      returns (why: Option<Rejection>)
      requires Wired() && api.Valid() && (!api.overrun ==> IsCut(api.State(), s, segment, anchor))
      requires data == api.config.encode(segment)
      requires |segment| > 0 && a.length == s.last && a.head == segment[|segment| - 1].hash
      modifies api
      ensures api.Valid() && old(api.trace) <= api.trace && (old(api.overrun) ==> api.overrun)
      ensures old(api.disturbed) <= api.disturbed && api.sink == old(api.sink)
      ensures !api.overrun ==> NothingMoved(old(api.State()), api.State()) && s.first == Boundary(api.State()) + 1
      ensures why.None? && !api.overrun ==> ReadyToPublish(api.config, api.State(), a)
      ensures why.Some? && api.disturbed == old(api.disturbed) && s in old(api.sink) && old(api.sink[s]) == data ==>
                !Restores(segment, anchor)
    {
      Wait(segment, anchor);
      why := ReadBack(s, data, segment, anchor);
      if why.None? && !api.overrun { CutIsReady(api.config, api.State(), segment, anchor, a); }
    }

    /** What was encoded decodes to something that verifies in its place. */
    ghost predicate Restores(segment: seq<Record>, anchor: Option<Anchor>) {
      var restored := api.config.decode(api.config.encode(segment));
      restored.Some? && Linked(api.config.hash, restored.value, Offset(anchor), Start(anchor))
    }

    // The four tests of the read-back, in order; nothing is found wrong only if the file holds the segment.
    method ReadBack(s: Segment, data: string, ghost segment: seq<Record>, anchor: Option<Anchor>)
      returns (why: Option<Rejection>)
      requires api.Valid() && data == api.config.encode(segment)
      modifies api`disturbed
      ensures old(api.disturbed) <= api.disturbed
      ensures why.Some? && api.disturbed == old(api.disturbed) ==>
                || s !in api.sink || api.sink[s] != data || !Restores(segment, anchor)
      ensures why.None? ==>
                && s in api.sink && api.sink[s] == data && api.config.decode(data).Some?
                && Linked(api.config.hash, api.config.decode(data).value, Offset(anchor), Start(anchor))
    {
      var readBack := api.SinkGet(s);
      if readBack.Err? { return Some(CannotBeReadBack(readBack.error)); }
      if readBack.value != data { return Some(ReadsBackDifferently); }
      var restored := api.config.decode(readBack.value);
      if restored.None? { return Some(DoesNotParse); }
      ValidIffLinked(api.config.hash, restored.value, anchor, None);
      var v := VerifyFrom(api.digest, api.config.hash, restored.value, anchor, None);
      if !v.valid { return Some(NoLongerVerifies(v.problems)); }
      return None;
    }

    /**
     `Run`. When it succeeds, nothing the boundary covers is left in the cluster, and either
     nothing was archived or the boundary moved by exactly the number of records it reports,
     over one segment that was read back and verified. It archives exactly when it should: whenever
     the checkpointed chain had outgrown the threshold and what is to be retained, and only past the
     threshold; what it archives leaves exactly what is to be retained of the chain as it was listed, at a
     point of this run; and it never refuses an untouched chain. With nothing else going on and a codec that
     gives back what it was given, it fails only if the checkpoint lags by more than is retained.
     */
    method Run() returns (moved: nat, failure: Option<RunFailure>, ghost listed: seq<Record>)
      requires Wired() && api.Valid()
      modifies api
      ensures api.Valid() && old(api.trace) <= api.trace
      ensures old(api.disturbed) <= api.disturbed
      ensures failure.None? && !api.overrun ==>
                && NothingPending(api.State())
                && Boundary(api.State()) == old(Boundary(api.State())) + moved
                && api.published ==
                   old(api.published)
                   + (if moved == 0 then []
                      else [Segment(old(Boundary(api.State())) + 1, old(Boundary(api.State())) + moved)])
      ensures failure.Some? && !failure.value.LogFailed? && !api.overrun ==>
                SameBoundary(old(api.State()), api.State())
      ensures (failure.None? || LeavesNothing(failure.value)) && !api.overrun ==>
                NoNewOrphans(old(api.State()), api.State())
      ensures failure.Some? && failure.value.RefusedToArchive? ==> api.overrun
      ensures failure.None? && moved > 0 && !api.overrun ==>
                && old(api.history) <= listed <= api.history
                && moved + Retain() == |listed| - old(Boundary(api.State())) > Threshold()
      ensures failure.Some? && !api.overrun && RoundTrips(api.config) ==>
                api.disturbed > old(api.disturbed) || Behind(api.config, api.State())
      ensures failure.None? && moved == 0 && !api.overrun && |api.history| < UINT64 && |old(api.revisions)| > 0 ==>
                old(api.revisions[|api.revisions| - 1].length - Boundary(api.State())) <= Max(Threshold(), Retain())
    {
      ghost var start, w := api.trace, api.State();
      listed := api.history;
      var swept := Sweep();
      api.Since(start);
      if swept.Err? { return 0, Some(LogFailed(swept.error)), listed; }
      ghost var t := api.trace;
      var size := recorder.Size();
      api.SinceWriters(t);
      if size.Err? { return 0, Some(LogFailed(size.error)), listed; }
      api.Since(start);
      if !api.overrun { LengthsGrow(w); }
      if size.value.1 <= Threshold() { return 0, None, listed; }
      moved, failure, listed := ArchiveFront();
    }

    // A checkpointed length is within what a later one says, and within the log.
    lemma LengthsGrow(w: World)
      requires api.Valid() && !api.overrun && Evolves(w, api.State())
      ensures |w.revisions| > 0 ==>
                w.revisions[|w.revisions| - 1].length <= api.revisions[|api.revisions| - 1].length <= |api.history|
    {
      api.CheckpointBoundary();
      api.RegisterGood();
      LengthMonotone(w, api.State());
    }

    // `Run` after its sweep and its size check: read the chain and cut it.
    method ArchiveFront() returns (moved: nat, failure: Option<RunFailure>, ghost listed: seq<Record>)
      requires Wired() && api.Valid() && (!api.overrun ==> NothingPending(api.State()))
      modifies api
      ensures api.Valid() && old(api.trace) <= api.trace && (old(api.overrun) ==> api.overrun)
      ensures old(api.disturbed) <= api.disturbed
      ensures !api.overrun ==> RunOutcome(old(api.State()), api.State(), moved, failure)
      ensures failure.Some? && failure.value.RefusedToArchive? ==> api.overrun
      ensures failure.None? && moved > 0 && !api.overrun ==>
                && old(api.history) <= listed <= api.history
                && moved + Retain() == |listed| - old(Boundary(api.State())) > Threshold()
      ensures failure.Some? && !api.overrun && RoundTrips(api.config) ==>
                api.disturbed > old(api.disturbed) || Behind(api.config, api.State())
      ensures failure.None? && moved == 0 && !api.overrun ==>
                |old(api.history)| - old(Boundary(api.State())) <= Max(Threshold(), Retain())
    {
      ghost var t := api.trace;
      var read;
      read, listed := recorder.Chain();
      api.SinceWriters(t);
      if read.Err? { return 0, Some(LogFailed(read.error)), listed; }
      var records, cp := read.value.0, read.value.1;
      if |records| <= Threshold() { return 0, None, listed; }
      var cut := |records| - Retain();
      if cut <= 0 { return 0, None, listed; }
      if !api.overrun { CutIsFront(listed, cut); }
      ghost var m := api.trace;
      moved, failure := MoveOut(records[..cut], AnchorOf(cp));
      api.Since(m);
    }

    // What is cut off the front of a chain read while only writers ran.
    lemma CutIsFront(listed: seq<Record>, cut: nat)
      requires Wired() && api.Valid() && !api.overrun && NothingPending(api.State())
      requires listed <= api.history && 0 < cut
      requires cut + Retain() == |listed[Min(Boundary(api.State()), |listed|)..]|
      ensures FrontCut(api.config, api.State(), listed[Min(Boundary(api.State()), |listed|)..][..cut],
                       AnchorOf(Published(api.State())))
    {
      api.Good();
      PublishedAnchor(api.config, api.State());
      FrontOfSuffix(listed, api.history, Boundary(api.State()), cut);
    }

    lemma FrontOfSuffix(listed: seq<Record>, history: seq<Record>, b: nat, cut: nat)
      requires listed <= history && cut <= |listed[Min(b, |listed|)..]| && 0 < cut
      ensures b + cut <= |history| && listed[Min(b, |listed|)..][..cut] == history[b..b + cut]
    {
    }

    // Verify, write and read back, publish the boundary, and only then delete.
    method MoveOut(segment: seq<Record>, anchor: Option<Anchor>) returns (moved: nat, failure: Option<RunFailure>)
      requires Wired() && api.Valid() && |segment| > 0
      requires !api.overrun ==> FrontCut(api.config, api.State(), segment, anchor)
      modifies api
      ensures api.Valid() && old(api.trace) <= api.trace && (old(api.overrun) ==> api.overrun)
      ensures old(api.disturbed) <= api.disturbed
      ensures !api.overrun ==> RunOutcome(old(api.State()), api.State(), moved, failure)
      ensures failure.None? && !api.overrun ==> moved == |segment|
      ensures failure.Some? && failure.value.RefusedToArchive? ==> api.overrun
      ensures failure.Some? && !api.overrun && RoundTrips(api.config) ==>
                api.disturbed > old(api.disturbed) || Behind(api.config, api.State())
    {
      if !api.overrun && RoundTrips(api.config) { CutRestores(segment, anchor); }
      var problems := CheckFront(segment, anchor);
      if problems != [] { return 0, Some(RefusedToArchive(problems)); }
      moved, failure := Transfer(segment[0].sequence, segment[|segment| - 1], segment, anchor);
    }

    lemma CutRestores(segment: seq<Record>, anchor: Option<Anchor>)
      requires api.Valid() && !api.overrun && FrontCut(api.config, api.State(), segment, anchor)
      requires RoundTrips(api.config)
      ensures Restores(segment, anchor)
    {
      api.Good();
      FrontIsLinked(api.config, api.State(), segment, anchor);
    }

    // Copy a front that verifies, and on success give it over to the archive.
    method Transfer(first: nat, last: Record, segment: seq<Record>, anchor: Option<Anchor>)
      returns (moved: nat, failure: Option<RunFailure>)
      requires Wired() && api.Valid() && |segment| > 0 && last == segment[|segment| - 1]
      requires !api.overrun ==> IsCut(api.State(), Segment(first, last.sequence), segment, anchor)
      modifies api
      ensures api.Valid() && old(api.trace) <= api.trace && (old(api.overrun) ==> api.overrun)
      ensures old(api.disturbed) <= api.disturbed
      ensures failure.Some? ==> !failure.value.RefusedToArchive?
      ensures !api.overrun ==> RunOutcome(old(api.State()), api.State(), moved, failure)
      ensures failure.None? && !api.overrun ==> moved == |segment|
      ensures failure.Some? && !api.overrun && Restores(segment, anchor) ==>
                api.disturbed > old(api.disturbed) || Behind(api.config, api.State())
    {
      ghost var w := api.State();
      var s := Segment(first, last.sequence);
      var written := WriteAndReadBack(s, segment, anchor);
      if written.Err? { return 0, Some(written.error); }
      ghost var m := api.State();
      moved, failure := PublishAndDelete(first, last, Anchor(last.sequence, last.hash, written.value));
      if !api.overrun { OutcomeAfter(w, m, api.State(), moved, failure, s); }
    }

    // Never archive a stretch that does not verify.
    method CheckFront(segment: seq<Record>, anchor: Option<Anchor>) returns (problems: seq<Problem>)
      requires api.Valid() && |segment| > 0
      ensures !api.overrun && FrontCut(api.config, api.State(), segment, anchor) ==>
                && problems == []
                && IsCut(api.State(), Segment(segment[0].sequence, segment[|segment| - 1].sequence), segment, anchor)
    {
      var v := VerifyFrom(api.digest, api.config.hash, segment, anchor, None);
      if !api.overrun && FrontCut(api.config, api.State(), segment, anchor) { FrontVerifies(segment, anchor); }
      return v.problems;
    }

    lemma FrontVerifies(segment: seq<Record>, anchor: Option<Anchor>)
      requires api.Valid() && !api.overrun && FrontCut(api.config, api.State(), segment, anchor)
      ensures Verified(api.config.hash, segment, anchor, None).valid
      ensures segment[0].sequence == Boundary(api.State()) + 1
      ensures segment[|segment| - 1].sequence == Boundary(api.State()) + |segment|
    {
      api.Good();
      FrontIsLinked(api.config, api.State(), segment, anchor);
      ValidIffLinked(api.config.hash, segment, anchor, None);
    }

    // The point of no return: the boundary says where the records went, then they are deleted.
    method PublishAndDelete(first: nat, last: Record, a: Anchor)
      returns (moved: nat, failure: Option<RunFailure>)
      requires Wired() && api.Valid() && a.length == last.sequence && a.head == last.hash
      requires !api.overrun ==>
                 && ReadyToPublish(api.config, api.State(), a)
                 && first == Boundary(api.State()) + 1
      modifies api
      ensures api.Valid() && old(api.trace) <= api.trace && (old(api.overrun) ==> api.overrun)
      ensures old(api.disturbed) <= api.disturbed
      ensures failure.Some? ==> failure.value.LogFailed?
      ensures !api.overrun ==> RunOutcome(old(api.State()), api.State(), moved, failure)
      ensures failure.None? && !api.overrun ==>
                moved == last.sequence + 1 - first && Segment(first, last.sequence) in api.published
      ensures failure.Some? && !api.overrun ==>
                api.disturbed > old(api.disturbed) || Behind(api.config, api.State())
    {
      ghost var t, w := api.trace, api.State();
      var advanced := recorder.AdvanceBoundary(a);
      api.Since(t);
      if advanced.Err? { return 0, Some(LogFailed(advanced.error)); }
      moved, failure := DeleteCut(t, first, last.sequence);
    }

    // What is left to do once the boundary is published. `t` is when it was not.
    method DeleteCut(ghost t: seq<Step>, first: nat, last: nat) returns (moved: nat, failure: Option<RunFailure>)
      requires Wired() && api.Valid()
      requires !api.overrun ==>
                 var w := Execute(api.config, EMPTY, t);
                 && !w.overrun && first == Boundary(w) + 1 <= last <= |w.history|
                 && (forall k :: k in w.records ==> k in api.records)
                 && (forall k :: k in api.records ==> k > Boundary(w))
                 && Boundary(api.State()) == last && api.published == w.published + [Segment(first, last)]
                 && NoNewOrphans(w, api.State())
      modifies api
      ensures api.Valid() && old(api.trace) <= api.trace && (old(api.overrun) ==> api.overrun)
      ensures old(api.disturbed) <= api.disturbed
      ensures failure.Some? ==> failure.value.LogFailed?
      ensures !api.overrun ==> RunOutcome(Execute(api.config, EMPTY, t), api.State(), moved, failure)
      ensures failure.None? && !api.overrun ==> moved == last + 1 - first && Segment(first, last) in api.published
      ensures failure.Some? ==> api.disturbed > old(api.disturbed)
    {
      ghost var w, stored := Execute(api.config, EMPTY, t), api.records;
      var failed;
      moved, failed := DeleteThrough(first, last);
      if failed.Some? { return moved, Some(LogFailed(failed.value)); }
      if !api.overrun { CountOfCut(t, w, stored, first, last); }
      return moved, None;
    }

    // Everything in the cut was stored when the boundary was published.
    lemma CountOfCut(t: seq<Step>, w: World, stored: map<nat, Record>, first: nat, last: nat)
      requires Sound(api.config) && w == Execute(api.config, EMPTY, t) && !w.overrun
      requires first == Boundary(w) + 1 <= last <= |w.history| && forall k :: k in w.records ==> k in stored
      ensures CountStored(stored, first, last + 1 - first) == last + 1 - first
    {
      AllStored(t, w);
      AllCounted(stored, first, last + 1 - first);
    }

    lemma AllStored(t: seq<Step>, w: World)
      requires Sound(api.config) && w == Execute(api.config, EMPTY, t) && !w.overrun
      ensures forall k :: Boundary(w) < k <= |w.history| ==> k in w.records
    {
      RunsAreSafe(api.config, t);
    }
  }

  /** What a run that had nothing left to sweep may have done by the time it returns. */
  ghost predicate RunOutcome(w: World, w': World, moved: nat, failure: Option<RunFailure>) {
    match failure
    case None =>
      && NothingPending(w')
      && Boundary(w') == Boundary(w) + moved
      && w'.published ==
         w.published + (if moved == 0 then [] else [Segment(Boundary(w) + 1, Boundary(w) + moved)])
      && NoNewOrphans(w, w')
    case Some(LogFailed(_)) => true
    case Some(f) => SameBoundary(w, w') && (LeavesNothing(f) ==> NoNewOrphans(w, w'))
  }
}
