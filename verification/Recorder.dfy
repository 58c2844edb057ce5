/**
 The recorder (internal/audit/recorder.go): finding the head, appending under contention, and the
 two kinds of write to the checkpoint. Every method is a sequence of API calls with other
 processes running in between, and every one of them keeps the protocol's invariant.

 Claims about positions hold unless some writer overran the archive boundary, see
 `ProtocolSafety.CreateIsSafeIff` for when that can happen. Claims under `trace == old(trace)` are
 for a call during which nobody else did anything.
 */
module Recording {
  import opened Wrappers
  import opened Records
  import opened Chain
  import opened Protocol
  import opened ProtocolSafety
  import opened Guarantees
  import opened ApiServer
  import HashChain = Chain

  const MAX_APPEND_ATTEMPTS: nat := 4096
  const BOUNDARY_ATTEMPTS: nat := 5

  datatype Failure =
    | ApiFailed(api: ApiError)
    | LostEveryRace
    | RegressedHead
    | RegressedBoundary
    | PastTheHead

  // ---------- sort.Slice by sequence number ----------

  function InsertRecord(x: Record, s: seq<Record>): seq<Record> {
    if |s| == 0 then [x]
    else if s[0].sequence < x.sequence then [s[0]] + InsertRecord(x, s[1..])
    else [x] + s
  }

  function SortBySequence(s: seq<Record>): seq<Record> {
    if |s| == 0 then [] else InsertRecord(s[0], SortBySequence(s[1..]))
  }

  ghost predicate Increasing(s: seq<Record>) {
    forall i, j :: 0 <= i < j < |s| ==> s[i].sequence < s[j].sequence
  }

  ghost predicate DistinctSequences(s: seq<Record>) {
    forall i, j :: 0 <= i < j < |s| ==> s[i].sequence != s[j].sequence
  }

  lemma {:induction false} InsertRecordMembers(x: Record, s: seq<Record>, y: Record)
    ensures y in InsertRecord(x, s) <==> y == x || y in s
  {
    if |s| > 0 {
      assert s == [s[0]] + s[1..];
      if s[0].sequence < x.sequence { InsertRecordMembers(x, s[1..], y); }
    }
  }

  lemma IncreasingCons(x: Record, s: seq<Record>)
    requires Increasing(s) && forall y :: y in s ==> x.sequence < y.sequence
    ensures Increasing([x] + s)
  {
    var t := [x] + s;
    forall i, j | 0 <= i < j < |t| ensures t[i].sequence < t[j].sequence {
      assert t[j] == s[j - 1] && s[j - 1] in s;
    }
  }

  lemma {:induction false} InsertRecordKeepsOrder(x: Record, s: seq<Record>)
    requires Increasing(s) && forall y :: y in s ==> y.sequence != x.sequence
    ensures Increasing(InsertRecord(x, s))
  {
    if |s| > 0 {
      assert s == [s[0]] + s[1..];
      if s[0].sequence < x.sequence {
        InsertRecordKeepsOrder(x, s[1..]);
        forall y | y in InsertRecord(x, s[1..]) ensures s[0].sequence < y.sequence {
          InsertRecordMembers(x, s[1..], y);
        }
        IncreasingCons(s[0], InsertRecord(x, s[1..]));
      } else {
        assert s[0] in s;
        IncreasingCons(x, s);
      }
    }
  }

  lemma {:induction false} SortBySequenceSorts(s: seq<Record>)
    requires DistinctSequences(s)
    ensures Increasing(SortBySequence(s))
    ensures forall y :: y in SortBySequence(s) <==> y in s
  {
    if |s| > 0 {
      var rest := SortBySequence(s[1..]);
      SortBySequenceSorts(s[1..]);
      assert s == [s[0]] + s[1..];
      forall y | y in rest ensures y.sequence != s[0].sequence {
        assert y in s[1..];
        var k :| 0 <= k < |s[1..]| && s[1..][k] == y;
        assert s[k + 1] == y;
      }
      InsertRecordKeepsOrder(s[0], rest);
      forall y ensures y in SortBySequence(s) <==> y in s { InsertRecordMembers(s[0], rest, y); }
    }
  }

  // Whatever order the API lists in, sorting by sequence number gives the listing.
  lemma SortedListing(items: seq<Record>, records: map<nat, Record>)
    requires Lists(items, records) && forall k :: k in records ==> records[k].sequence == k
    ensures IsListing(SortBySequence(items), records)
  {
    var keys :| ListedBy(items, keys, records);
    assert forall i :: 0 <= i < |items| ==> items[i].sequence == keys[i];
    SortBySequenceSorts(items);
    forall k | k in records ensures records[k] in items {
      var i :| 0 <= i < |keys| && keys[i] == k;
      assert items[i] == records[k];
    }
  }

  /** A record of this event that took a position after `from`, on the record before it. */
  ghost predicate Appended(h: Hash, history: seq<Record>, from: nat, event: Record, r: Record) {
    && from < r.sequence <= |history| && history[r.sequence - 1] == r
    && r.kind == event.kind && r.subject == event.subject && r.actor == event.actor && r.detail == event.detail
    && r.time == event.time.(nanos := 0)
    && r.prevHash == (if r.sequence == 1 then GENESIS_HASH else history[r.sequence - 2].hash)
    && r.hash == h(r)
  }

  lemma AppendedStays(h: Hash, history: seq<Record>, history': seq<Record>, from: nat, event: Record, r: Record)
    requires Appended(h, history, from, event, r) && history <= history'
    ensures Appended(h, history', from, event, r)
  {
  }

  lemma SealedIsAppended(
    h: Hash, history: seq<Record>, event: Record, prev: Option<Record>, sealed: Record, from: nat)
    requires Observed(history, prev) && Carries(sealed, event) && sealed.hash == h(sealed)
    requires sealed.sequence == (if prev.None? then 1 else prev.value.sequence + 1)
    requires sealed.prevHash == (if prev.None? then GENESIS_HASH else prev.value.hash)
    requires sealed.sequence == |history| + 1 && from <= |history|
    ensures Appended(h, history + [sealed], from, event, sealed)
  {
  }

  /** What `head` finds in a state nobody is changing. */
  function IndexedHead(records: map<nat, Record>, revisions: seq<CheckpointSpec>, history: seq<Record>)
    : Option<Record>
  {
    if |revisions| == 0 then LastOf(history)
    else FindHead(records, revisions[|revisions| - 1].length)
  }

  /** The newest revision is this checkpoint, with the archive fields of the revision before it. */
  predicate HeadWritten(revisions: seq<CheckpointSpec>, cp: Checkpoint) {
    var n := |revisions| - 1;
    && n >= 0
    && if n == 0 then revisions[0] == CheckpointSpec(cp.length, cp.head, cp.time, 0, "", "")
       else
         var was := revisions[n - 1];
         && was.length <= cp.length
         && revisions[n] == CheckpointSpec(
              cp.length, cp.head, cp.time, was.archivedLength, was.archivedHead, was.archiveLocation)
  }

  /** The newest revision is the one before it with this boundary, which it reaches. */
  predicate AnchorWritten(revisions: seq<CheckpointSpec>, a: Anchor) {
    var n := |revisions| - 1;
    && n >= 1 && revisions[n - 1].archivedLength <= a.length <= revisions[n - 1].length
    && revisions[n] == CheckpointSpec(
         revisions[n - 1].length, revisions[n - 1].head, revisions[n - 1].time, a.length, a.head, a.location)
  }

  /** An attempt to move the boundary, from when the archiver began to when the write was answered. */
  ghost predicate BoundaryAttempted(w: World, w': World, landed: bool, a: Anchor) {
    && w'.sink == w.sink
    && (forall k :: k in w.records ==> k in w'.records)
    && (landed ==> AnchorWritten(w'.revisions, a))
    && (landed && !w'.overrun ==>
        && Boundary(w') == a.length
        && w'.published == w.published + [Segment(Boundary(w) + 1, a.length)]
        && forall k :: k in w'.records ==> k > Boundary(w))
  }

  /** The length the checkpoint says, or zero before there is one. */
  function CheckpointedLength(revisions: seq<CheckpointSpec>): nat {
    if |revisions| == 0 then 0 else revisions[|revisions| - 1].length
  }

  lemma LengthMonotone(w: World, w': World)
    requires RegisterOk(w') && w.revisions <= w'.revisions
    ensures CheckpointedLength(w.revisions) <= CheckpointedLength(w'.revisions)
  {
    if |w.revisions| > 0 { RevisionsMonotone(w', |w.revisions| - 1, |w'.revisions| - 1); }
  }

  // The checkpointed length never goes back while nobody has overrun the boundary.
  lemma LengthBetween(c: Config, earlier: seq<Step>, later: seq<Step>)
    requires Sound(c) && earlier <= later && !Execute(c, EMPTY, later).overrun
    ensures CheckpointedLength(Execute(c, EMPTY, earlier).revisions) <=
            CheckpointedLength(Execute(c, EMPTY, later).revisions)
  {
    assert later[..|earlier|] == earlier && later[..|later|] == later;
    RunsAreSafe(c, later);
    LaterHistory(c, later, |earlier|, |later|);
    LengthMonotone(Execute(c, EMPTY, earlier), Execute(c, EMPTY, later));
  }

  /** Enough of the chain was seen to append to it, unless the boundary has passed this length. */
  ghost predicate Fresh(w: World, prev: Option<Record>, length: nat) {
    w.overrun || Boundary(w) > length || SeenLength(prev) >= length
  }

  /** How far a walk from this length has come after `i` steps. */
  ghost predicate Walked(w: World, prev: Option<Record>, length: nat, i: nat) {
    w.overrun
    || (prev.Some? && prev.value.sequence == length + i)
    || (prev.None? && i == 0 && (length == 0 || Boundary(w) >= length))
  }

  class Recorder {
    const api: Cluster
    // Whether this recorder is the archiver's own, so that nobody archives beside it.
    const inArchiver: bool

    constructor (api: Cluster, inArchiver: bool)
      ensures this.api == api && this.inArchiver == inArchiver
    {
      this.api, this.inArchiver := api, inArchiver;
    }

    /** `load`: the stored records in sequence order. */
    method Load() returns (r: Result<seq<Record>, Failure>)
      requires api.Valid()
      modifies api
      ensures api.Valid() && old(api.trace) <= api.trace
      ensures api.Undisturbed(old(api.disturbed), old(api.trace), old(api.State()))
      ensures r.Err? ==> api.disturbed > old(api.disturbed)
      ensures inArchiver ==> AllWriters(api.trace[|old(api.trace)|..])
      ensures r.Ok? ==> IsListing(r.value, api.records)
      ensures r.Err? ==> r.error == ApiFailed(Unavailable)
    {
      api.OthersRun(inArchiver);
      var items := api.ListRecords();
      if items.Err? { return Err(ApiFailed(items.error)); }
      api.Good();
      SortedListing(items.value, api.records);
      return Ok(SortBySequence(items.value));
    }

    /** `recordAt`: one record by sequence number, or none. */
    method RecordAt(sequence: nat) returns (r: Result<Option<Record>, Failure>)
      requires api.Valid()
      modifies api
      ensures api.Valid() && old(api.trace) <= api.trace
      ensures api.Undisturbed(old(api.disturbed), old(api.trace), old(api.State()))
      ensures r.Err? ==> api.disturbed > old(api.disturbed)
      ensures r.Ok? && !api.overrun ==>
                Observed(api.history, r.value) && (r.value.Some? ==> r.value.value.sequence == sequence)
      ensures r.Ok? && api.trace == old(api.trace) ==> r.value == StoredAt(api.records, sequence)
      ensures r == Ok(None) ==> sequence == 0 || sequence !in api.records
      ensures r.Err? ==> r.error == ApiFailed(Unavailable)
    {
      if sequence == 0 { return Ok(None); }
      api.OthersRun(inArchiver);
      var got := api.GetRecord(sequence);
      if got == Err(NotFound) { return Ok(None); }
      if got.Err? { return Err(ApiFailed(got.error)); }
      if !api.overrun { api.StoredIsObserved(sequence); }
      return Ok(Some(got.value));
    }

    // What `recordAt` or `head` returned is still a record of the history later on.
    lemma StillObserved(earlier: seq<Step>, prev: Option<Record>)
      requires api.Valid() && earlier <= api.trace && !api.overrun
      requires var w := Execute(api.config, EMPTY, earlier); !w.overrun ==> Observed(w.history, prev)
      ensures Observed(api.history, prev)
    {
      api.Since(earlier);
    }

    /**
     `head`: the last record, found through the checkpoint and a forward walk, or by listing when
     there is no checkpoint. Whatever runs meanwhile, what it returns is a record really appended.
     With nobody running meanwhile it is exactly what the index says. And it is fresh: it is no
     earlier than the checkpoint was, unless the boundary has passed that by now.
     */
    method Head() returns (r: Result<Option<Record>, Failure>)
      requires api.Valid()
      modifies api
      ensures api.Valid() && old(api.trace) <= api.trace
      ensures api.Undisturbed(old(api.disturbed), old(api.trace), old(api.State()))
      ensures r.Err? ==> api.disturbed > old(api.disturbed)
      ensures r.Ok? && !api.overrun ==> Observed(api.history, r.value)
      ensures r.Ok? && api.trace == old(api.trace) && !api.overrun ==>
                r.value == IndexedHead(api.records, api.revisions, api.history)
      ensures r.Err? ==> r.error == ApiFailed(Unavailable)
      ensures r.Ok? ==> Fresh(api.State(), r.value, CheckpointedLength(old(api.revisions)))
    {
      ghost var t0, w0 := api.trace, api.State();
      api.OthersRun(inArchiver);
      if !api.overrun { LengthBetween(api.config, t0, api.trace); }
      api.Since(t0);
      ghost var t1 := api.trace;
      r := HeadNow();
      assert api.trace == t0 ==> t1 == t0 && api.State() == w0;
    }

    // `head` from the moment it reads the checkpoint.
    method HeadNow() returns (r: Result<Option<Record>, Failure>)
      requires api.Valid()
      modifies api
      ensures api.Valid() && old(api.trace) <= api.trace
      ensures api.Undisturbed(old(api.disturbed), old(api.trace), old(api.State()))
      ensures r.Err? ==> api.disturbed > old(api.disturbed)
      ensures r.Ok? && !api.overrun ==> Observed(api.history, r.value)
      ensures r.Ok? && api.trace == old(api.trace) && !api.overrun ==>
                r.value == IndexedHead(api.records, old(api.revisions), api.history)
      ensures (old(api.overrun) ==> api.overrun) && (api.trace == old(api.trace) ==> api.State() == old(api.State()))
      ensures r.Err? ==> r.error == ApiFailed(Unavailable)
      ensures r.Ok? ==> Fresh(api.State(), r.value, CheckpointedLength(old(api.revisions)))
    {
      ghost var t := api.trace;
      var found := api.GetCheckpoint();
      if found == Err(NotFound) {
        r := HeadByListing();
      } else if found.Err? {
        r := Err(ApiFailed(found.error));
      } else {
        if !api.overrun { api.CheckpointBoundary(); }
        r := WalkForward(found.value.0.length);
      }
      api.Since(t);
    }

    // The boundary never goes back while nobody has overrun it.
    lemma BoundaryGrows(earlier: seq<Step>)
      requires api.Valid() && earlier <= api.trace && !api.overrun
      ensures Boundary(Execute(api.config, EMPTY, earlier)) <= Boundary(api.State())
    {
      api.Since(earlier);
      RunsAreSafe(api.config, earlier);
      api.Good();
      BoundaryMonotone(api.config, Execute(api.config, EMPTY, earlier), api.State());
    }

    lemma StillFresh(earlier: seq<Step>, prev: Option<Record>, length: nat)
      requires api.Valid() && earlier <= api.trace && Fresh(Execute(api.config, EMPTY, earlier), prev, length)
      ensures Fresh(api.State(), prev, length)
    {
      api.Since(earlier);
      if !api.overrun { BoundaryGrows(earlier); }
    }

    lemma StillWalked(earlier: seq<Step>, prev: Option<Record>, length: nat, i: nat)
      requires api.Valid() && earlier <= api.trace && Walked(Execute(api.config, EMPTY, earlier), prev, length, i)
      ensures Walked(api.State(), prev, length, i)
    {
      api.Since(earlier);
      if !api.overrun { BoundaryGrows(earlier); }
    }

    // A walk starts at the record of its length, unless that has been archived.
    lemma WalkStarts(prev: Option<Record>, length: nat)
      requires api.Valid() && (!api.overrun ==> length <= |api.history|)
      requires !api.overrun && prev.Some? ==> prev.value.sequence == length
      requires prev.None? ==> length == 0 || length !in api.records
      ensures Walked(api.State(), prev, length, 0)
    {
      api.Good();
    }

    // A walk that ends where nothing is stored has come far enough.
    lemma WalkEnds(prev: Option<Record>, length: nat, i: nat)
      requires api.Valid() && Walked(api.State(), prev, length, i) && length + i + 1 !in api.records
      ensures Fresh(api.State(), prev, length)
    {
      api.Good();
    }

    /** The cold path of `head`: a chain that has no checkpoint yet is read once. */
    method HeadByListing() returns (r: Result<Option<Record>, Failure>)
      requires api.Valid()
      modifies api
      ensures api.Valid() && old(api.trace) <= api.trace
      ensures api.Undisturbed(old(api.disturbed), old(api.trace), old(api.State()))
      ensures r.Err? ==> api.disturbed > old(api.disturbed)
      ensures r.Ok? && !api.overrun ==> Observed(api.history, r.value)
      ensures r.Ok? && !api.overrun && |api.revisions| == 0 ==> r.value == LastOf(api.history)
      ensures r.Err? ==> r.error == ApiFailed(Unavailable)
    {
      var listed := Load();
      if listed.Err? { return Err(listed.error); }
      ColdHead(listed.value);
      return Ok(LastOf(listed.value));
    }

    // The end of a listing is a record of the history; without a checkpoint it is the head.
    lemma ColdHead(listed: seq<Record>)
      requires api.Valid() && IsListing(listed, api.records)
      ensures !api.overrun ==> Observed(api.history, LastOf(listed))
      ensures !api.overrun && |api.revisions| == 0 ==> LastOf(listed) == LastOf(api.history)
    {
      api.Good();
      if !api.overrun {
        var from := ListingIsSuffix(api.config, api.State(), listed);
        CoreIsPositioned(api.config, api.State());
      }
    }

    /** The forward walk of `head`, bounded by `maxCatchUp`. */
    method WalkForward(length: nat) returns (r: Result<Option<Record>, Failure>)
      requires api.Valid()
      modifies api
      ensures api.Valid() && old(api.trace) <= api.trace
      ensures api.Undisturbed(old(api.disturbed), old(api.trace), old(api.State()))
      ensures r.Err? ==> api.disturbed > old(api.disturbed)
      ensures r.Ok? && !api.overrun ==> Observed(api.history, r.value)
      ensures r.Ok? && api.trace == old(api.trace) ==> r.value == FindHead(api.records, length)
      ensures r.Err? ==> r.error == ApiFailed(Unavailable)
      ensures r.Ok? && (old(api.overrun) || length <= |old(api.history)|) ==> Fresh(api.State(), r.value, length)
    {
      ghost var t0, w0 := api.trace, api.State();
      ghost var published := w0.overrun || length <= |w0.history|;
      var at := WalkFrom(length, published);
      if at.Err? { return at; }
      ghost var t := api.trace;
      r := WalkOnward(length, at.value, published);
      assert api.trace == t0 ==> t == t0 && api.State() == w0;
    }

    // The loop: one record after another, for as long as there is one.
    method WalkOnward(length: nat, start: Option<Record>, ghost published: bool)
      returns (r: Result<Option<Record>, Failure>)
      requires api.Valid() && OnWalk(api.State(), published, start, length, 0)
      modifies api
      ensures api.Valid() && old(api.trace) <= api.trace
      ensures api.Undisturbed(old(api.disturbed), old(api.trace), old(api.State()))
      ensures r.Err? ==> api.disturbed > old(api.disturbed)
      ensures r.Ok? && !api.overrun ==> Observed(api.history, r.value)
      ensures r.Ok? && api.trace == old(api.trace) ==>
                r.value == Walk(old(api.records), length, start, MAX_CATCH_UP)
      ensures r.Err? ==> r.error == ApiFailed(Unavailable)
      ensures r.Ok? && published ==> Fresh(api.State(), r.value, length)
    {
      ghost var t0, w0 := api.trace, api.State();
      var prev := start;
      var i := 0;
      while i < MAX_CATCH_UP
        invariant i <= MAX_CATCH_UP && api.Valid() && t0 <= api.trace
        invariant old(api.disturbed) <= api.disturbed && (api.disturbed == old(api.disturbed) ==> api.trace == t0)
        invariant OnWalk(api.State(), published, prev, length, i)
        invariant api.trace == t0 ==>
                    Walk(w0.records, length, start, MAX_CATCH_UP) ==
                    Walk(w0.records, length + i, prev, MAX_CATCH_UP - i)
      {
        ghost var earlier := api.trace;
        var next := WalkOn(prev, length, i, published);
        assert api.trace == t0 ==> earlier == t0 && api.State() == w0;
        if next.Err? { return next; }
        if next.value.None? { return Ok(prev); }
        prev := next.value;
        i := i + 1;
      }
      return Ok(prev);
    }

    /** A walk has come to a record of the history, far enough from where it started. */
    ghost predicate OnWalk(w: World, published: bool, prev: Option<Record>, length: nat, i: nat) {
      (!w.overrun ==> Observed(w.history, prev)) && (published ==> Walked(w, prev, length, i))
    }

    /** The record a walk starts from. */
    method WalkFrom(length: nat, ghost published: bool) returns (r: Result<Option<Record>, Failure>)
      requires api.Valid() && (published ==> api.overrun || length <= |api.history|)
      modifies api
      ensures api.Valid() && old(api.trace) <= api.trace
      ensures api.Undisturbed(old(api.disturbed), old(api.trace), old(api.State()))
      ensures r.Err? ==> api.disturbed > old(api.disturbed)
      ensures r.Ok? && !api.overrun ==> Observed(api.history, r.value)
      ensures r.Ok? && api.trace == old(api.trace) ==> r.value == StoredAt(api.records, length)
      ensures r.Ok? && published ==> Walked(api.State(), r.value, length, 0)
      ensures r.Err? ==> r.error == ApiFailed(Unavailable)
    {
      ghost var t0 := api.trace;
      r := RecordAt(length);
      api.Since(t0);
      if r.Ok? && published { WalkStarts(r.value, length); }
    }

    /** One step of a walk that has come to `prev`: the next record, or none, and then it has come far enough. */
    method WalkOn(ghost prev: Option<Record>, length: nat, i: nat, ghost published: bool)
      returns (r: Result<Option<Record>, Failure>)
      requires api.Valid() && (!api.overrun ==> Observed(api.history, prev))
      requires published ==> Walked(api.State(), prev, length, i)
      modifies api
      ensures api.Valid() && old(api.trace) <= api.trace
      ensures api.Undisturbed(old(api.disturbed), old(api.trace), old(api.State()))
      ensures r.Err? ==> api.disturbed > old(api.disturbed)
      ensures r.Ok? && !api.overrun ==>
                Observed(api.history, r.value) && (r.value == None ==> Observed(api.history, prev))
      ensures r.Ok? && api.trace == old(api.trace) ==> r.value == StoredAt(api.records, length + i + 1)
      ensures r.Ok? && published ==>
                if r.value.Some? then Walked(api.State(), r.value, length, i + 1) else Fresh(api.State(), prev, length)
      ensures r.Err? ==> r.error == ApiFailed(Unavailable)
    {
      ghost var earlier := api.trace;
      r := RecordAt(length + i + 1);
      if r == Ok(None) {
        if !api.overrun { StillObserved(earlier, prev); }
        if published {
          StillWalked(earlier, prev, length, i);
          WalkEnds(prev, length, i);
        }
      }
    }

    /**
     `Append`. A successful append made the creation by which its record landed, in a position of
     the history later than everything that was there when it was called; and the record is the
     event sealed onto the record before it. See `Guarantees.LandingsOwnTheirPositions` for why no
     other append has that position. A lost race is never reported as such: the append fails only
     when the API does, in which case it may or may not have landed, or when it has lost every race.

     And the creation it made does not overrun the boundary, unless by then the boundary had passed the
     length that the checkpoint already had when the append was called.

     With nothing else going on, and a checkpoint that lags by no more than a walk covers, it does
     succeed: one record is added at the end, one revision of the checkpoint describes it, and that is all.
     */
    method Append(event: Record) returns (r: Result<Record, Failure>, ghost at: nat)
      requires api.Valid()
      modifies api
      ensures api.Valid() && old(api.trace) <= api.trace && old(api.disturbed) <= api.disturbed
      ensures r.Ok? ==> at >= |old(api.trace)| && Landed(api.config, api.trace, at, r.value)
      ensures r.Ok? && !api.overrun ==>
                Appended(api.config.hash, api.history, |old(api.history)|, event, r.value)
      ensures r == Err(ApiFailed(Unavailable)) ==> api.disturbed > old(api.disturbed)
      ensures r.Err? ==> r.error == ApiFailed(Unavailable) || r.error == LostEveryRace
      ensures r.Ok? ==> InTime(api.trace, at, CheckpointedLength(old(api.revisions)))
      ensures api.disturbed == old(api.disturbed) && WalkReachesHead(old(api.State())) ==>
                r.Ok? && AppendedAlone(old(api.State()), api.State(), r.value)
    {
      at := 0;
      ghost var t0, seen := api.trace, CheckpointedLength(api.revisions);
      ghost var fits := WalkReachesHead(api.State());
      if fits { IndexedHeadIsLast(); }
      var found := HeadSince(t0);
      if found.Err? { return Err(found.error), at; }
      var prev := found.value;
      var i := 0;
      while i < MAX_APPEND_ATTEMPTS
        invariant api.Valid() && old(api.trace) <= api.trace && old(api.disturbed) <= api.disturbed
        invariant !api.overrun ==> Observed(api.history, prev)
        invariant Fresh(api.State(), prev, seen)
        invariant api.disturbed == old(api.disturbed) && fits ==>
                    i == 0 && api.State() == old(api.State()) && prev == LastOf(api.history)
      {
        api.Since(old(api.trace));
        r, at := TryAppend(event, prev, seen);
        if r != Err(ApiFailed(AlreadyExists)) { return; }
        var again := HeadSince(t0);
        if again.Err? { return Err(again.error), at; }
        prev := again.value;
        i := i + 1;
      }
      return Err(LostEveryRace), at;
    }

    /** The checkpoint lags by no more than a walk covers, or there is none. */
    ghost predicate WalkReachesHead(w: World) {
      !w.overrun && (|w.revisions| == 0 || |w.history| <= CheckpointedLength(w.revisions) + MAX_CATCH_UP)
    }

    /** One record more, at the end, described by one revision more, and nothing else. */
    ghost predicate AppendedAlone(w: World, w': World, r: Record) {
      && r.sequence == |w.history| + 1
      && w' == w.(records := w.records[r.sequence := r], history := w.history + [r], revisions := w'.revisions)
      && |w'.revisions| == |w.revisions| + 1 && w'.revisions[..|w.revisions|] == w.revisions
      && HeadWritten(w'.revisions, Checkpoint(r.sequence, r.hash, r.time, None))
    }

    /** One record more, at the end, and nothing else so far. */
    ghost predicate CreatedAlone(w: World, w': World, r: Record) {
      && r.sequence == |w.history| + 1
      && w' == w.(records := w.records[r.sequence := r], history := w.history + [r])
    }

    lemma IndexedHeadIsLast()
      requires api.Valid() && WalkReachesHead(api.State())
      ensures IndexedHead(api.records, api.revisions, api.history) == LastOf(api.history)
    {
      if |api.revisions| > 0 {
        var length := CheckpointedLength(api.revisions);
        assert Reachable(api.config, api.State());
        HeadIndexAgrees(api.config, api.State(), length, FindHead(api.records, length));
      }
    }

    /** The creation at this point of a run overruns only if the boundary had passed this length. */
    ghost predicate InTime(trace: seq<Step>, at: nat, length: nat)
      requires at < |trace|
    {
      var w := Execute(api.config, EMPTY, trace[..at]);
      !w.overrun && Boundary(w) <= length ==> !Execute(api.config, EMPTY, trace[..at + 1]).overrun
    }

    /** One attempt of `Append`, with the checkpoint moved if it landed. */
    method TryAppend(event: Record, prev: Option<Record>, ghost seen: nat)
      returns (r: Result<Record, Failure>, ghost at: nat)
      requires api.Valid() && (!api.overrun ==> Observed(api.history, prev)) && Fresh(api.State(), prev, seen)
      modifies api
      ensures api.Valid() && old(api.trace) <= api.trace && old(api.disturbed) <= api.disturbed
      ensures r.Ok? ==> at >= |old(api.trace)| && Landed(api.config, api.trace, at, r.value)
      ensures r.Ok? && !api.overrun ==>
                Appended(api.config.hash, api.history, |old(api.history)|, event, r.value)
      ensures r.Err? ==> r.error == ApiFailed(AlreadyExists) || r.error == ApiFailed(Unavailable)
      ensures r == Err(ApiFailed(Unavailable)) ==> api.disturbed > old(api.disturbed)
      ensures r.Ok? ==> InTime(api.trace, at, seen)
      ensures api.disturbed == old(api.disturbed) && !old(api.overrun) && prev == LastOf(old(api.history)) ==>
                r.Ok? && AppendedAlone(old(api.State()), api.State(), r.value)
    {
      ghost var from := |api.history|;
      r, at := TryCreate(event, prev, seen);
      if r.Ok? {
        ghost var landing, m := api.trace, api.State();
        Announce(event, r.value, from);
        StillLanded(landing, at, r.value, seen);
      }
    }

    // Looking for the head again, after losing a race.
    method HeadSince(ghost earlier: seq<Step>) returns (r: Result<Option<Record>, Failure>)
      requires api.Valid() && earlier <= api.trace
      modifies api
      ensures api.Valid() && old(api.trace) <= api.trace
      ensures api.Undisturbed(old(api.disturbed), old(api.trace), old(api.State()))
      ensures r.Err? ==> api.disturbed > old(api.disturbed)
      ensures r.Ok? && !api.overrun ==> Observed(api.history, r.value)
      ensures r.Ok? ==>
                Fresh(api.State(), r.value, CheckpointedLength(Execute(api.config, EMPTY, earlier).revisions))
      ensures r.Ok? && api.trace == old(api.trace) && !api.overrun ==>
                r.value == IndexedHead(api.records, api.revisions, api.history)
      ensures r.Err? ==> r.error == ApiFailed(Unavailable)
    {
      ghost var t1 := api.trace;
      r := Head();
      if r.Ok? { FreshAgain(earlier, t1, r.value); }
    }

    // Looking for the head again, later, finds one at least as fresh.
    lemma FreshAgain(t0: seq<Step>, t1: seq<Step>, prev: Option<Record>)
      requires api.Valid() && t0 <= t1 <= api.trace
      requires Fresh(api.State(), prev, CheckpointedLength(Execute(api.config, EMPTY, t1).revisions))
      ensures Fresh(api.State(), prev, CheckpointedLength(Execute(api.config, EMPTY, t0).revisions))
    {
      api.Since(t1);
      if !api.overrun { LengthBetween(api.config, t0, t1); }
    }

    lemma StillLanded(earlier: seq<Step>, at: nat, r: Record, length: nat)
      requires earlier <= api.trace && Landed(api.config, earlier, at, r) && InTime(earlier, at, length)
      ensures Landed(api.config, api.trace, at, r) && InTime(api.trace, at, length)
    {
      assert earlier[..at] == api.trace[..at] && earlier[..at + 1] == api.trace[..at + 1];
    }

    lemma JustLanded(earlier: seq<Step>, before: seq<Record>, s: Step, r: Record, seen: nat)
      requires api.Valid() && api.trace == earlier + [s] && s.Create?
      requires Execute(api.config, EMPTY, earlier).history == before && api.history == before + [r]
      requires var w := Execute(api.config, EMPTY, earlier); !w.overrun && Boundary(w) <= seen ==> !api.overrun
      ensures Landed(api.config, api.trace, |earlier|, r) && InTime(api.trace, |earlier|, seen)
    {
      assert api.trace[..|earlier|] == earlier && api.trace[..|earlier| + 1] == api.trace;
    }

    // A record that landed moves the checkpoint; if that fails, the append has still succeeded.
    method Announce(ghost event: Record, head: Record, ghost from: nat)
      requires api.Valid() && (!api.overrun ==> Appended(api.config.hash, api.history, from, event, head))
      modifies api
      ensures api.Valid() && old(api.trace) <= api.trace && old(api.disturbed) <= api.disturbed
      ensures !api.overrun ==> Appended(api.config.hash, api.history, from, event, head)
      ensures api.disturbed == old(api.disturbed) && !old(api.overrun) && head.sequence == |old(api.history)| ==>
                && OneRevisionMore(old(api.State()), api.State())
                && HeadWritten(api.revisions, Checkpoint(head.sequence, head.hash, head.time, None))
    {
      ghost var earlier, landing := api.trace, api.history;
      if !api.overrun { NoneLonger(); }
      var published := WriteCheckpoint(head);
      api.Since(earlier);
      if !api.overrun { AppendedStays(api.config.hash, landing, api.history, from, event, head); }
    }

    ghost predicate EndFree(w: World) {
      && |w.history| + 1 !in w.records && Boundary(w) <= |w.history|
      && (|w.history| > 0 ==> w.history[|w.history| - 1].sequence == |w.history|)
    }

    // Nothing is stored past the end of the log, and its last record is numbered by its length.
    lemma EndIsFree()
      requires api.Valid() && !api.overrun
      ensures EndFree(api.State())
    {
      api.CheckpointBoundary();
      api.Good();
      if |api.history| > 0 { api.LastPosition(); }
    }

    // No revision is longer than the log.
    lemma NoneLonger()
      requires api.Valid() && !api.overrun
      ensures forall i :: 0 <= i < |api.revisions| ==> api.revisions[i].length <= |api.history|
    {
      api.RegisterGood();
      forall i | 0 <= i < |api.revisions| ensures api.revisions[i].length <= |api.history| {
        assert RevisionOk(api.history, api.revisions[i]);
      }
    }

    /** One attempt of `Append`: wait, seal onto the head last seen, create if absent. */
    method TryCreate(event: Record, prev: Option<Record>, ghost seen: nat)
      returns (r: Result<Record, Failure>, ghost at: nat)
      requires api.Valid() && (!api.overrun ==> Observed(api.history, prev)) && Fresh(api.State(), prev, seen)
      modifies api
      ensures api.Valid() && old(api.trace) <= api.trace && old(api.disturbed) <= api.disturbed
      ensures r.Ok? ==> at >= |old(api.trace)| && Landed(api.config, api.trace, at, r.value)
      ensures r.Ok? && !api.overrun ==>
                Appended(api.config.hash, api.history, |old(api.history)|, event, r.value)
      ensures r.Err? ==> r.error == ApiFailed(AlreadyExists) || r.error == ApiFailed(Unavailable)
      ensures r == Err(ApiFailed(Unavailable)) ==> api.disturbed > old(api.disturbed)
      ensures r.Ok? ==> InTime(api.trace, at, seen)
      ensures api.disturbed == old(api.disturbed) && !old(api.overrun) && prev == LastOf(old(api.history)) ==>
                r.Ok? && CreatedAlone(old(api.State()), api.State(), r.value)
    {
      ghost var from := |api.history|;
      Pause(prev, seen);
      r, at := CreateNow(event, prev, seen, from);
    }

    // Others run; what was seen is still a record of the history, and as fresh as it was.
    method Pause(ghost prev: Option<Record>, ghost seen: nat)
      requires api.Valid() && (!api.overrun ==> Observed(api.history, prev)) && Fresh(api.State(), prev, seen)
      modifies api
      ensures api.Valid() && old(api.trace) <= api.trace && old(api.history) <= api.history
      ensures api.Undisturbed(old(api.disturbed), old(api.trace), old(api.State()))
      ensures (!api.overrun ==> Observed(api.history, prev)) && Fresh(api.State(), prev, seen)
    {
      ghost var earlier := api.trace;
      api.OthersRun(inArchiver);
      StillFresh(earlier, prev, seen);
      if !api.overrun { StillObserved(earlier, prev); }
      api.Since(earlier);
    }

    // Seal the event onto what was seen and create it, if nobody has that position.
    method CreateNow(event: Record, prev: Option<Record>, ghost seen: nat, ghost from: nat)
      returns (r: Result<Record, Failure>, ghost at: nat)
      requires api.Valid() && (!api.overrun ==> Observed(api.history, prev)) && Fresh(api.State(), prev, seen)
      requires from <= |api.history|
      modifies api
      ensures api.Valid() && old(api.trace) <= api.trace && old(api.disturbed) <= api.disturbed
      ensures r.Ok? ==> at == |old(api.trace)| && Landed(api.config, api.trace, at, r.value)
      ensures r.Ok? && !api.overrun ==> Appended(api.config.hash, api.history, from, event, r.value)
      ensures r.Err? ==> r.error == ApiFailed(AlreadyExists) || r.error == ApiFailed(Unavailable)
      ensures r == Err(ApiFailed(Unavailable)) ==> api.disturbed > old(api.disturbed)
      ensures r.Ok? ==> InTime(api.trace, at, seen)
      ensures r.Ok? && !old(api.overrun) && prev == LastOf(old(api.history)) ==>
                CreatedAlone(old(api.State()), api.State(), r.value)
      ensures r == Err(ApiFailed(AlreadyExists)) ==> old(api.overrun) || prev != LastOf(old(api.history))
    {
      ghost var calling, w := api.trace, api.State();
      if !api.overrun { EndIsFree(); }
      var sealed := SealOnto(api.digest, api.config.hash, event, prev);
      at := |api.trace|;
      var created := api.CreateRecord(sealed, event, prev);
      if created.Err? { return Err(ApiFailed(created.error)), at; }
      JustInTime(calling, w, Create(event, prev), sealed, prev, seen);
      JustAppended(w, event, prev, sealed, from);
      if !w.overrun && prev == LastOf(w.history) { JustAlone(w, prev, sealed); }
      return Ok(sealed), at;
    }

    /** The record follows what was seen, and says what the event says. */
    ghost predicate SealedOnto(sealed: Record, event: Record, prev: Option<Record>) {
      && Carries(sealed, event) && sealed.hash == api.config.hash(sealed)
      && sealed.sequence == SeenLength(prev) + 1
      && sealed.prevHash == (if prev.None? then GENESIS_HASH else prev.value.hash)
    }

    // When the creation that was answered landed, and that it was in time.
    lemma JustInTime(calling: seq<Step>, w: World, s: Step, sealed: Record, prev: Option<Record>, seen: nat)
      requires api.Valid() && w == Execute(api.config, EMPTY, calling) && s.Create? && api.trace == calling + [s]
      requires api.State() == WithRecord(w, sealed) && sealed.sequence == SeenLength(prev) + 1 && Fresh(w, prev, seen)
      ensures Landed(api.config, api.trace, |calling|, sealed) && InTime(api.trace, |calling|, seen)
    {
      JustLanded(calling, w.history, s, sealed, seen);
    }

    // Where it landed, and what it is.
    lemma JustAppended(w: World, event: Record, prev: Option<Record>, sealed: Record, from: nat)
      requires api.Valid() && api.State() == WithRecord(w, sealed) && SealedOnto(sealed, event, prev)
      requires (!w.overrun ==> Observed(w.history, prev)) && from <= |w.history|
      ensures !api.overrun ==> Appended(api.config.hash, api.history, from, event, sealed)
    {
      if !api.overrun {
        api.LastPosition();
        assert api.history[|api.history| - 1] == sealed;
        SealedIsAppended(api.config.hash, w.history, event, prev, sealed, from);
      }
    }

    lemma JustAlone(w: World, prev: Option<Record>, sealed: Record)
      requires api.State() == WithRecord(w, sealed) && sealed.sequence == SeenLength(prev) + 1
      requires !w.overrun && EndFree(w) && prev == LastOf(w.history)
      ensures CreatedAlone(w, api.State(), sealed)
    {
    }

    /** `writeCheckpoint`: the head and the length read off the record that just became the head. */
    method WriteCheckpoint(head: Record) returns (r: Result<(), Failure>)
      requires api.Valid()
      requires !api.overrun ==> 1 <= head.sequence <= |api.history| && api.history[head.sequence - 1] == head
      modifies api
      ensures api.Valid() && old(api.trace) <= api.trace && old(api.disturbed) <= api.disturbed
      ensures r.Ok? ==>
                && |api.revisions| > |old(api.revisions)|
                && HeadWritten(api.revisions, Checkpoint(head.sequence, head.hash, head.time, None))
      ensures r == Err(RegressedHead) ==>
                exists i :: 0 <= i < |api.revisions| && api.revisions[i].length > head.sequence
      ensures api.disturbed == old(api.disturbed) ==>
                if r.Ok? then OneRevisionMore(old(api.State()), api.State())
                else api.State() == old(api.State()) && r.error == RegressedHead
    {
      r := PutCheckpoint(Checkpoint(head.sequence, head.hash, head.time, None));
    }

    /**
     `putCheckpoint`. On success a checkpoint without archive fields has become the newest revision,
     over one that was no longer than it, and kept that one's boundary. It is refused only if a longer
     one had been published. With nothing else going on it succeeds unless it is refused, and writes
     exactly the one revision.
     */
    method PutCheckpoint(cp: Checkpoint) returns (r: Result<(), Failure>)
      requires api.Valid() && (!api.overrun ==> Describes(api.history, cp))
      modifies api
      ensures api.Valid() && old(api.trace) <= api.trace && old(api.disturbed) <= api.disturbed
      ensures r.Ok? ==> |api.revisions| > |old(api.revisions)|
      ensures r.Ok? && cp.archived.None? ==> HeadWritten(api.revisions, cp)
      ensures r == Err(RegressedHead) ==>
                exists i :: 0 <= i < |api.revisions| && api.revisions[i].length > cp.length
      ensures r == Err(RegressedBoundary) ==> cp.archived.Some?
      ensures api.disturbed == old(api.disturbed) ==>
                if r.Ok? then OneRevisionMore(old(api.State()), api.State())
                else api.State() == old(api.State()) && (r.error == RegressedHead || r.error == RegressedBoundary)
    {
      ghost var t0 := api.trace;
      api.OthersRun(inArchiver);
      api.Since(t0);
      var found := api.GetCheckpoint();
      if found == Err(NotFound) {
        r := Publish(0, SpecOf(cp), cp);
      } else if found.Err? {
        r := Err(ApiFailed(found.error));
      } else {
        r := PutOver(found.value.0, found.value.1, cp);
      }
    }

    /** A revision was added to the checkpoint, and nothing else changed. */
    ghost predicate OneRevisionMore(w: World, w': World) {
      && |w'.revisions| == |w.revisions| + 1 && w'.revisions[..|w.revisions|] == w.revisions
      && w' == w.(revisions := w'.revisions)
    }

    // What there is to do once a revision was read: refuse, or write over it.
    method PutOver(existing: CheckpointSpec, version: nat, cp: Checkpoint) returns (r: Result<(), Failure>)
      requires api.Valid() && (!api.overrun ==> Describes(api.history, cp))
      requires 0 < version == |api.revisions| && existing == api.revisions[version - 1]
      modifies api
      ensures api.Valid() && old(api.trace) <= api.trace && old(api.disturbed) <= api.disturbed
      ensures r.Ok? ==> |api.revisions| > |old(api.revisions)|
      ensures r.Ok? && cp.archived.None? ==> HeadWritten(api.revisions, cp)
      ensures r == Err(RegressedHead) ==> existing.length > cp.length && api.State() == old(api.State())
      ensures r == Err(RegressedBoundary) ==> cp.archived.Some? && api.State() == old(api.State())
      ensures api.disturbed == old(api.disturbed) ==>
                if r.Ok? then OneRevisionMore(old(api.State()), api.State())
                else api.State() == old(api.State()) && (r.error == RegressedHead || r.error == RegressedBoundary)
    {
      var spec := SpecOf(cp);
      if existing.length > spec.length { return Err(RegressedHead); }
      if existing.archivedLength > spec.archivedLength && spec.archivedLength > 0 { return Err(RegressedBoundary); }
      if spec.archivedLength == 0 {
        spec := spec.(archivedLength := existing.archivedLength, archivedHead := existing.archivedHead,
          archiveLocation := existing.archiveLocation);
      }
      r := Publish(version, spec, cp);
    }

    // The write itself, over the revision that was read, or a creation if there was none.
    method Publish(version: nat, spec: CheckpointSpec, cp: Checkpoint) returns (r: Result<(), Failure>)
      requires api.Valid() && (!api.overrun ==> Describes(api.history, cp)) && version == |api.revisions|
      requires Merge(RevisionAt(api.State(), version), cp) == Some(spec)
      modifies api
      ensures api.Valid() && old(api.trace) <= api.trace && old(api.disturbed) <= api.disturbed
      ensures r.Ok? ==> api.revisions == old(api.revisions) + [spec]
      ensures r.Err? ==> r.error.ApiFailed? && api.disturbed > old(api.disturbed)
      ensures api.disturbed == old(api.disturbed) ==> OneRevisionMore(old(api.State()), api.State())
    {
      ghost var t := api.trace;
      api.OthersRun(inArchiver);
      api.Since(t);
      var written := api.PutCheckpointObject(version, spec, PublishHead(version, cp));
      return if written.Ok? then Ok(()) else Err(ApiFailed(written.error));
    }

    /**
     `Chain`: list, then read the checkpoint, then drop what its boundary covers. Others run
     between the two calls, so the result is the history as it was listed, above the boundary as it
     is now.
     */
    method Chain() returns (r: Result<(seq<Record>, Option<Checkpoint>), Failure>, ghost listed: seq<Record>)
      requires api.Valid()
      modifies api
      ensures api.Valid() && old(api.trace) <= api.trace
      ensures api.Undisturbed(old(api.disturbed), old(api.trace), old(api.State()))
      ensures r.Err? ==> api.disturbed > old(api.disturbed)
      ensures inArchiver ==> AllWriters(api.trace[|old(api.trace)|..])
      ensures old(api.history) <= listed <= api.history
      ensures r.Ok? ==> r.value.1 == Published(api.State())
      ensures r.Ok? && !api.overrun ==> r.value.0 == listed[Min(Boundary(api.State()), |listed|)..]
    {
      ghost var t0 := api.trace;
      var loaded := Load();
      api.Since(t0);
      listed := api.history;
      if loaded.Err? { return Err(loaded.error), listed; }
      ghost var t1 := api.trace;
      r := ChainFrom(loaded.value);
      api.Since(t1);
      if inArchiver { api.WritersConcat(t0, t1); }
    }

    /** The rest of `Chain` once the records are listed: read the checkpoint, drop what it covers. */
    method ChainFrom(records: seq<Record>) returns (r: Result<(seq<Record>, Option<Checkpoint>), Failure>)
      requires api.Valid() && IsListing(records, api.records)
      modifies api
      ensures api.Valid() && old(api.trace) <= api.trace
      ensures api.Undisturbed(old(api.disturbed), old(api.trace), old(api.State()))
      ensures r.Err? ==> api.disturbed > old(api.disturbed)
      ensures inArchiver ==> AllWriters(api.trace[|old(api.trace)|..])
      ensures r.Ok? ==> r.value.1 == Published(api.State())
      ensures r.Ok? && !api.overrun ==>
                r.value.0 == old(api.history)[Min(Boundary(api.State()), |old(api.history)|)..]
    {
      ghost var t0, listed := api.trace, api.history;
      api.OthersRun(inArchiver);
      if !api.overrun { LiveNow(t0, records); }
      r := CutLive(records, listed);
    }

    // Read the checkpoint and drop what it covers.
    method CutLive(records: seq<Record>, ghost listed: seq<Record>)
      returns (r: Result<(seq<Record>, Option<Checkpoint>), Failure>)
      requires api.Valid()
      requires !api.overrun ==>
                 var b := Boundary(api.State());
                 Above(records, b) == listed[Min(b, |listed|)..] && (b == 0 ==> records == listed)
      modifies api`disturbed
      ensures old(api.disturbed) <= api.disturbed && (r.Err? ==> api.disturbed > old(api.disturbed))
      ensures r.Ok? ==> r.value.1 == Published(api.State())
      ensures r.Ok? && !api.overrun ==> r.value.0 == listed[Min(Boundary(api.State()), |listed|)..]
    {
      if !api.overrun { api.CheckpointBoundary(); }
      var found := api.GetCheckpoint();
      if found == Err(NotFound) { return Ok((records, None)); }
      if found.Err? { return Err(ApiFailed(found.error)); }
      var cp := FromApi(found.value.0);
      var live := DropArchived(records, cp);
      return Ok((live, Some(cp)));
    }

    // Drop what the archive boundary of a checkpoint covers.
    method DropArchived(records: seq<Record>, cp: Checkpoint) returns (live: seq<Record>)
      ensures live == if Offset(cp.archived) > 0 then Above(records, Offset(cp.archived)) else records
    {
      live := records;
      if cp.archived.Some? && cp.archived.value.length > 0 {
        live := KeepAbove(records, cp.archived.value.length);
      }
    }

    // What filtering an earlier listing by the present boundary leaves.
    lemma LiveNow(earlier: seq<Step>, rs: seq<Record>)
      requires api.Valid() && earlier <= api.trace && !api.overrun
      requires IsListing(rs, Execute(api.config, EMPTY, earlier).records)
      ensures var listed := Execute(api.config, EMPTY, earlier).history;
              var b := Boundary(api.State());
              && Above(rs, b) == listed[Min(b, |listed|)..]
              && (b == 0 ==> rs == listed)
    {
      var w := Execute(api.config, EMPTY, earlier);
      api.Since(earlier);
      RunsAreSafe(api.config, earlier);
      api.Good();
      BoundaryMonotone(api.config, w, api.State());
      LiveRecords(api.config, w, rs, Boundary(api.State()));
      var from := ListingIsSuffix(api.config, w, rs);
    }

    // The loop at the end of `Chain`.
    method KeepAbove(records: seq<Record>, boundary: nat) returns (kept: seq<Record>)
      ensures kept == Above(records, boundary)
    {
      kept := [];
      var i := 0;
      while i < |records|
        invariant 0 <= i <= |records|
        invariant kept + Above(records[i..], boundary) == Above(records, boundary)
      {
        if records[i].sequence > boundary { kept := kept + [records[i]]; }
        i := i + 1;
      }
    }

    /**
     `Verify`. The anchor plays no part, so once anything has been archived an untouched log does
     not verify; before that it verifies unless the checkpoint moved past what was listed.
     */
    method Verify() returns (r: Result<Verification, Failure>, ghost listed: seq<Record>)
      requires api.Valid()
      modifies api
      ensures api.Valid() && old(api.trace) <= api.trace
      ensures api.Undisturbed(old(api.disturbed), old(api.trace), old(api.State()))
      ensures r.Err? ==> api.disturbed > old(api.disturbed)
      ensures old(api.history) <= listed <= api.history
      ensures r.Ok? && !api.overrun ==>
                (r.value.valid <==>
                 && Boundary(api.State()) == 0
                 && (Published(api.State()).Some? ==> Published(api.State()).value.length <= |listed|))
      ensures r.Ok? && !api.overrun ==>
                r.value == Verified(api.config.hash, listed[Min(Boundary(api.State()), |listed|)..], None,
                                    Published(api.State()))
    {
      var read;
      read, listed := Chain();
      if read.Err? { return Err(read.error), listed; }
      var v := HashChain.Verify(api.digest, api.config.hash, read.value.0, read.value.1);
      if !api.overrun {
        api.Good();
        UnanchoredVerifiesIff(api.config, api.State(), listed);
      }
      return Ok(v), listed;
    }

    /**
     `Size`: the length of the chain and how much of it is still stored, in 64-bit arithmetic. Read
     off the checkpoint, or counted when there is none.
     */
    method Size() returns (r: Result<(nat, nat), Failure>)
      requires api.Valid()
      modifies api
      ensures api.Valid() && old(api.trace) <= api.trace
      ensures api.Undisturbed(old(api.disturbed), old(api.trace), old(api.State()))
      ensures r.Err? ==> api.disturbed > old(api.disturbed)
      ensures inArchiver ==> AllWriters(api.trace[|old(api.trace)|..])
      ensures r.Ok? && !api.overrun && |api.history| < UINT64 ==>
                SizeOf(api.revisions, r.value) || r.value.1 == r.value.0 <= |api.history|
      ensures r.Ok? && !api.overrun && |api.history| < UINT64 && |old(api.revisions)| > 0 ==>
                SizeOf(api.revisions, r.value)
      ensures r.Ok? && !api.overrun && |api.revisions| == 0 ==> r.value == (|api.history|, |api.history|)
    {
      ghost var t0 := api.trace;
      api.OthersRun(inArchiver);
      api.Since(t0);
      ghost var t1 := api.trace;
      var found := api.GetCheckpoint();
      if found == Err(NotFound) {
        var loaded := Load();
        if inArchiver { api.WritersConcat(t0, t1); }
        if loaded.Err? { return Err(loaded.error); }
        if !api.overrun { ListingFits(loaded.value); }
        return Ok((|loaded.value|, |loaded.value|));
      }
      if found.Err? { return Err(ApiFailed(found.error)); }
      var spec := found.value.0;
      if !api.overrun { api.CheckpointBoundary(); }
      return Ok((spec.length, Uint64Minus(spec.length, spec.archivedLength)));
    }

    /** A length and how much of it is above the boundary, as the newest revision has them. */
    predicate SizeOf(revisions: seq<CheckpointSpec>, size: (nat, nat)) {
      && |revisions| > 0
      && size.0 == revisions[|revisions| - 1].length
      && size.1 == size.0 - revisions[|revisions| - 1].archivedLength
    }

    lemma ListingFits(rs: seq<Record>)
      requires api.Valid() && !api.overrun && IsListing(rs, api.records)
      ensures |rs| <= |api.history| && (|api.revisions| == 0 ==> |rs| == |api.history|)
    {
      api.Good();
      var from := ListingIsSuffix(api.config, api.State(), rs);
    }

    /**
     `advanceBoundary`: read, check, write over the revision read, and again on a conflict. On
     success the newest revision carries the new boundary and is otherwise the one before it, and the
     segment counts as published. It refuses to pass the published head, and never has to refuse to go
     back.
     */
    method AdvanceBoundary(a: Anchor) returns (r: Result<(), Failure>)
      requires inArchiver && api.Valid()
      requires !api.overrun ==> ReadyToPublish(api.config, api.State(), a)
      modifies api
      ensures api.Valid() && old(api.trace) <= api.trace && old(api.disturbed) <= api.disturbed
      ensures r.Err? ==> api.disturbed > old(api.disturbed) || Refused(api.revisions, a, r.error)
      ensures BoundaryAttempted(old(api.State()), api.State(), r.Ok?, a)
      ensures r == Err(PastTheHead) ==> |api.revisions| > 0 && api.revisions[|api.revisions| - 1].length < a.length
      ensures r == Err(RegressedBoundary) ==> api.overrun
    {
      ghost var t0 := api.trace;
      var i := 0;
      while i < BOUNDARY_ATTEMPTS
        invariant api.Valid() && t0 <= api.trace && AllWriters(api.trace[|t0|..])
        invariant old(api.disturbed) <= api.disturbed && (i > 0 ==> old(api.disturbed) < api.disturbed)
        invariant !api.overrun ==> ReadyToPublish(api.config, api.State(), a)
      {
        r := TryAdvance(t0, a);
        if r != Err(ApiFailed(Conflict)) { return; }
        i := i + 1;
      }
      api.SinceWriters(t0);
      return Err(LostEveryRace);
    }

    /** The checkpoint is not there, says less than the boundary would, or says more of it already. */
    predicate Refused(revisions: seq<CheckpointSpec>, a: Anchor, why: Failure) {
      if |revisions| == 0 then why == ApiFailed(NotFound)
      else if revisions[|revisions| - 1].archivedLength > a.length then why == RegressedBoundary
      else revisions[|revisions| - 1].length < a.length && why == PastTheHead
    }

    /** One attempt of `advanceBoundary`. `since` is when the archiver began. */
    method TryAdvance(ghost since: seq<Step>, a: Anchor) returns (r: Result<(), Failure>)
      requires inArchiver && api.Valid() && since <= api.trace && AllWriters(api.trace[|since|..])
      requires !api.overrun ==> ReadyToPublish(api.config, api.State(), a)
      modifies api
      ensures api.Valid() && old(api.trace) <= api.trace && old(api.disturbed) <= api.disturbed
      ensures r == Err(ApiFailed(Conflict)) ==>
                AllWriters(api.trace[|since|..]) && (!api.overrun ==> ReadyToPublish(api.config, api.State(), a))
      ensures r.Err? ==> api.disturbed > old(api.disturbed) || Refused(api.revisions, a, r.error)
      ensures BoundaryAttempted(Execute(api.config, EMPTY, since), api.State(), r.Ok?, a)
      ensures r == Err(PastTheHead) ==> |api.revisions| > 0 && api.revisions[|api.revisions| - 1].length < a.length
      ensures r == Err(RegressedBoundary) ==> api.overrun
    {
      WaitReady(since, a);
      r := AdvanceNow(since, a);
    }

    // Read, check, write over the revision read.
    method AdvanceNow(ghost since: seq<Step>, a: Anchor) returns (r: Result<(), Failure>)
      requires inArchiver && api.Valid() && since <= api.trace && AllWriters(api.trace[|since|..])
      requires !api.overrun ==> ReadyToPublish(api.config, api.State(), a)
      modifies api
      ensures api.Valid() && old(api.trace) <= api.trace && old(api.disturbed) <= api.disturbed
      ensures r == Err(ApiFailed(Conflict)) ==>
                AllWriters(api.trace[|since|..]) && (!api.overrun ==> ReadyToPublish(api.config, api.State(), a))
      ensures r.Err? ==> api.disturbed > old(api.disturbed) || Refused(api.revisions, a, r.error)
      ensures BoundaryAttempted(Execute(api.config, EMPTY, since), api.State(), r.Ok?, a)
      ensures r == Err(PastTheHead) ==> |api.revisions| > 0 && api.revisions[|api.revisions| - 1].length < a.length
      ensures r == Err(RegressedBoundary) ==> api.overrun
    {
      NotYetAttempted(since, a);
      var found := api.GetCheckpoint();
      if found.Err? { return Err(ApiFailed(found.error)); }
      r := AdvanceOver(since, found.value.0, found.value.1, a);
    }

    // What there is to do once a revision was read: refuse, or write over it.
    method AdvanceOver(ghost since: seq<Step>, existing: CheckpointSpec, version: nat, a: Anchor)
      returns (r: Result<(), Failure>)
      requires inArchiver && api.Valid() && since <= api.trace && AllWriters(api.trace[|since|..])
      requires !api.overrun ==> ReadyToPublish(api.config, api.State(), a)
      requires 0 < version == |api.revisions| && api.revisions[version - 1] == existing
      requires BoundaryAttempted(Execute(api.config, EMPTY, since), api.State(), false, a)
      modifies api
      ensures api.Valid() && old(api.trace) <= api.trace && old(api.disturbed) <= api.disturbed
      ensures r == Err(ApiFailed(Conflict)) ==>
                AllWriters(api.trace[|since|..]) && (!api.overrun ==> ReadyToPublish(api.config, api.State(), a))
      ensures r.Err? ==> api.disturbed > old(api.disturbed) || Refused(api.revisions, a, r.error)
      ensures BoundaryAttempted(Execute(api.config, EMPTY, since), api.State(), r.Ok?, a)
      ensures r == Err(PastTheHead) ==> |api.revisions| > 0 && api.revisions[|api.revisions| - 1].length < a.length
      ensures r == Err(RegressedBoundary) ==> api.overrun
    {
      if existing.archivedLength > a.length { return Err(RegressedBoundary); }
      if existing.length < a.length { return Err(PastTheHead); }
      var spec := existing.(archivedLength := a.length, archivedHead := a.head, archiveLocation := a.location);
      r := WriteBoundary(since, version, existing, spec, a);
    }

    // While only writers ran, nothing has come of the attempt.
    lemma NotYetAttempted(since: seq<Step>, a: Anchor)
      requires api.Valid() && since <= api.trace && AllWriters(api.trace[|since|..])
      ensures BoundaryAttempted(Execute(api.config, EMPTY, since), api.State(), false, a)
    {
      api.SinceWriters(since);
    }

    // Other writers run; what the archiver established stays established.
    method WaitReady(ghost since: seq<Step>, a: Anchor)
      requires inArchiver && api.Valid() && since <= api.trace && AllWriters(api.trace[|since|..])
      requires !api.overrun ==> ReadyToPublish(api.config, api.State(), a)
      modifies api
      ensures api.Valid() && old(api.trace) <= api.trace && AllWriters(api.trace[|since|..])
      ensures api.Undisturbed(old(api.disturbed), old(api.trace), old(api.State()))
      ensures old(api.revisions) <= api.revisions
      ensures !api.overrun ==> ReadyToPublish(api.config, api.State(), a)
    {
      ghost var t := api.trace;
      api.OthersRun(inArchiver);
      api.WritersConcat(since, t);
      api.Since(t);
      if !api.overrun { StillReady(t, a); }
    }

    // The update that carries the boundary, over the revision that was read.
    method WriteBoundary(
      ghost since: seq<Step>, version: nat, existing: CheckpointSpec, spec: CheckpointSpec, a: Anchor)
      returns (r: Result<(), Failure>)
      requires inArchiver && api.Valid() && since <= api.trace && AllWriters(api.trace[|since|..])
      requires !api.overrun ==> ReadyToPublish(api.config, api.State(), a)
      requires 0 < version == |api.revisions| && api.revisions[version - 1] == existing
      requires MoveBoundary(existing, a) == Some(spec)
      modifies api
      ensures api.Valid() && old(api.trace) <= api.trace
      ensures r == Err(ApiFailed(Conflict)) ==>
                AllWriters(api.trace[|since|..]) && (!api.overrun ==> ReadyToPublish(api.config, api.State(), a))
      ensures BoundaryAttempted(Execute(api.config, EMPTY, since), api.State(), r.Ok?, a)
      ensures r.Err? ==> r.error.ApiFailed? && api.disturbed > old(api.disturbed)
      ensures old(api.disturbed) <= api.disturbed
    {
      WaitReady(since, a);
      api.SinceWriters(since);
      ghost var m := api.State();
      var updated := api.PutCheckpointObject(version, spec, PublishBoundary(version, a));
      AttemptedFrom(Execute(api.config, EMPTY, since), m, api.State(), updated.Ok?, a, spec);
      return if updated.Ok? then Ok(()) else Err(ApiFailed(updated.error));
    }

    // What one versioned write of the boundary comes to, after only writers ran.
    lemma AttemptedFrom(w: World, m: World, w': World, landed: bool, a: Anchor, spec: CheckpointSpec)
      requires WritersEvolve(w, m) && w'.sink == m.sink && w'.records == m.records && w'.overrun == m.overrun
      requires landed ==>
                 && w'.revisions == m.revisions + [spec] && Current(m).Some?
                 && MoveBoundary(Current(m).value, a) == Some(spec)
                 && w'.published == m.published + [Segment(Boundary(m) + 1, a.length)]
      requires !m.overrun ==> NothingPending(m)
      ensures BoundaryAttempted(w, w', landed, a)
    {
    }

    // What the archiver established stays established while only writers run.
    lemma StillReady(earlier: seq<Step>, a: Anchor)
      requires api.Valid() && earlier <= api.trace && AllWriters(api.trace[|earlier|..]) && !api.overrun
      requires ReadyToPublish(api.config, Execute(api.config, EMPTY, earlier), a)
      ensures ReadyToPublish(api.config, api.State(), a)
    {
      var w := Execute(api.config, EMPTY, earlier);
      api.SinceWriters(earlier);
      HoldsGrows(api.config, w.sink, w.history, api.history, Segment(Boundary(w) + 1, a.length));
    }
  }
}
