/**
 What the protocol invariant gives the people who read the log: what a listing holds, that a
 snapshot verifies and when a torn one does not, that no record is lost, that the checkpoint is a
 monotone register, and that the head index agrees with the listing.
 */
module Guarantees {
  import opened Wrappers
  import opened Records
  import opened Chain
  import opened Protocol
  import opened ProtocolSafety

  function Max(a: nat, b: nat): nat {
    if a < b then b else a
  }

  function Min(a: nat, b: nat): nat {
    if a < b then a else b
  }

  // ---------- listings ----------

  /** The stored records, in sequence order: what `load` returns. */
  ghost predicate IsListing(rs: seq<Record>, records: map<nat, Record>) {
    && (forall i, j :: 0 <= i < j < |rs| ==> rs[i].sequence < rs[j].sequence)
    && (forall r :: r in rs ==> r.sequence in records && records[r.sequence] == r)
    && (forall k :: k in records ==> records[k] in rs)
  }

  /** The records of a listing above a boundary: the filter at the end of `Chain`. */
  function Above(rs: seq<Record>, boundary: nat): seq<Record> {
    if |rs| == 0 then []
    else (if rs[0].sequence > boundary then [rs[0]] else []) + Above(rs[1..], boundary)
  }

  ghost predicate Positioned(w: World) {
    forall i :: 0 <= i < |w.history| ==> w.history[i].sequence == i + 1
  }

  lemma CoreIsPositioned(c: Config, w: World)
    requires Core(c, w)
    ensures Positioned(w)
  {
    forall i | 0 <= i < |w.history| ensures w.history[i].sequence == i + 1 {
      HistoryAt(c, w, i);
    }
  }

  // The store has no holes between a stored record and the head.
  lemma StoredUpward(w: World, j: nat, k: nat)
    requires StoreOk(w) && Positioned(w) && j in w.records && j <= k <= |w.history|
    ensures k in w.records && w.records[k] == w.history[k - 1] && w.records[k].sequence == k
  {
  }

  lemma ListedAt(w: World, rs: seq<Record>, i: nat)
    requires StoreOk(w) && Positioned(w) && IsListing(rs, w.records) && i < |rs|
    ensures rs[i].sequence in w.records && 1 <= rs[i].sequence <= |w.history|
    ensures rs[i] == w.history[rs[i].sequence - 1]
  {
    assert rs[i] in rs;
  }

  lemma IndexOf(w: World, rs: seq<Record>, k: nat) returns (j: nat)
    requires StoreOk(w) && Positioned(w) && IsListing(rs, w.records) && k in w.records
    ensures j < |rs| && rs[j].sequence == k
  {
    assert w.records[k] in rs;
    j :| 0 <= j < |rs| && rs[j] == w.records[k];
  }

  lemma NextListed(w: World, rs: seq<Record>, i: nat)
    requires StoreOk(w) && Positioned(w) && IsListing(rs, w.records) && i + 1 < |rs|
    ensures rs[i + 1].sequence == rs[i].sequence + 1
  {
    ListedAt(w, rs, i);
    ListedAt(w, rs, i + 1);
    var k := rs[i].sequence;
    assert k < rs[i + 1].sequence;
    StoredUpward(w, k, k + 1);
    var j := IndexOf(w, rs, k + 1);
  }

  lemma {:induction false} ListingIsDense(w: World, rs: seq<Record>, i: nat)
    requires StoreOk(w) && Positioned(w) && IsListing(rs, w.records) && i < |rs|
    ensures rs[i].sequence == rs[0].sequence + i
  {
    if i > 0 {
      ListingIsDense(w, rs, i - 1);
      NextListed(w, rs, i - 1);
    }
  }

  lemma HeadIsListed(w: World, rs: seq<Record>)
    requires StoreOk(w) && Positioned(w) && IsListing(rs, w.records) && Boundary(w) < |w.history|
    ensures |rs| > 0 && rs[|rs| - 1].sequence == |w.history|
    ensures rs[0].sequence == |w.history| - |rs| + 1 <= Boundary(w) + 1
  {
    var n, last := |w.history|, |rs| - 1;
    assert n in w.records && Boundary(w) + 1 in w.records;
    var j := IndexOf(w, rs, n);
    var m := IndexOf(w, rs, Boundary(w) + 1);
    ListedAt(w, rs, last);
    ListingIsDense(w, rs, last);
    ListingIsDense(w, rs, m);
  }

  /** A listing of a good state is a suffix of the history, reaching at least down to the boundary. */
  lemma ListingIsSuffix(c: Config, w: World, rs: seq<Record>) returns (from: nat)
    requires Sound(c) && Core(c, w) && IsListing(rs, w.records)
    ensures from <= Boundary(w) <= |w.history| && rs == w.history[from..]
    ensures Boundary(w) < |w.history| || |w.history| == 0
  {
    CoreIsPositioned(c, w);
    if |rs| > 0 { ListedAt(w, rs, 0); }
    from := 0;
    if |w.history| > 0 {
      HeadIsListed(w, rs);
      from := |w.history| - |rs|;
      ListedSuffix(w, rs, from);
    }
  }

  lemma ListedSuffix(w: World, rs: seq<Record>, from: nat)
    requires StoreOk(w) && Positioned(w) && IsListing(rs, w.records)
    requires |rs| > 0 && from + |rs| == |w.history| && rs[0].sequence == from + 1
    ensures rs == w.history[from..]
  {
    forall i | 0 <= i < |rs| ensures rs[i] == w.history[from + i] {
      ListedAt(w, rs, i);
      ListingIsDense(w, rs, i);
    }
  }

  // Filtering a dense listing by a boundary drops exactly what the boundary covers.
  lemma {:induction false} AboveIsSuffix(rs: seq<Record>, from: nat, boundary: nat)
    requires forall i :: 0 <= i < |rs| ==> rs[i].sequence == from + i + 1
    requires from <= boundary
    ensures Above(rs, boundary) == rs[Min(boundary - from, |rs|)..]
  {
    if |rs| > 0 {
      if from < boundary {
        AboveIsSuffix(rs[1..], from + 1, boundary);
      } else {
        AboveAll(rs, boundary);
      }
    }
  }

  lemma {:induction false} AboveAll(rs: seq<Record>, boundary: nat)
    requires forall i :: 0 <= i < |rs| ==> rs[i].sequence > boundary
    ensures Above(rs, boundary) == rs
  {
    if |rs| > 0 {
      AboveAll(rs[1..], boundary);
      assert rs == [rs[0]] + rs[1..];
    }
  }

  /** Dropping what a boundary covers from a listing leaves the history above that boundary. */
  lemma LiveRecords(c: Config, w: World, rs: seq<Record>, boundary: nat)
    requires Sound(c) && Core(c, w) && IsListing(rs, w.records) && Boundary(w) <= boundary
    ensures Above(rs, boundary) == w.history[Min(boundary, |w.history|)..]
  {
    var from := ListingIsSuffix(c, w, rs);
    LiveOfSuffix(c, w, from, boundary);
  }

  lemma LiveOfSuffix(c: Config, w: World, from: nat, boundary: nat)
    requires Core(c, w) && from <= |w.history| && from <= boundary
    ensures Above(w.history[from..], boundary) == w.history[Min(boundary, |w.history|)..]
  {
    CoreIsPositioned(c, w);
    AboveOfSuffix(w.history, from, boundary);
  }

  lemma AboveOfSuffix(history: seq<Record>, from: nat, boundary: nat)
    requires from <= |history| && from <= boundary
    requires forall i :: 0 <= i < |history| ==> history[i].sequence == i + 1
    ensures Above(history[from..], boundary) == history[Min(boundary, |history|)..]
  {
    var rs := history[from..];
    var k := Min(boundary - from, |rs|);
    assert forall i :: 0 <= i < |rs| ==> rs[i] == history[from + i];
    AboveIsSuffix(rs, from, boundary);
    SuffixOfSuffix(history, from, k);
    assert from + k == Min(boundary, |history|);
  }

  lemma SuffixOfSuffix<T>(s: seq<T>, from: nat, k: nat)
    requires from + k <= |s|
    ensures s[from..][k..] == s[from + k..]
  {
  }

  // ---------- snapshots ----------

  function Published(w: World): Option<Checkpoint> {
    if Current(w).None? then None else Some(FromApi(Current(w).value))
  }

  lemma PublishedAnchor(c: Config, w: World)
    requires Core(c, w)
    ensures Offset(AnchorOf(Published(w))) == Boundary(w)
    ensures Start(AnchorOf(Published(w))) == HashAt(w.history, Boundary(w))
    ensures Published(w).Some? ==>
              && Boundary(w) <= Published(w).value.length <= |w.history|
              && Published(w).value.head == HashAt(w.history, Published(w).value.length)
  {
    if |w.revisions| > 0 { RevisionAnchor(w.history, w.revisions[|w.revisions| - 1]); }
  }

  lemma RevisionAnchor(history: seq<Record>, spec: CheckpointSpec)
    requires RevisionOk(history, spec)
    ensures var cp := FromApi(spec);
            && Offset(cp.archived) == spec.archivedLength <= cp.length <= |history|
            && Start(cp.archived) == HashAt(history, spec.archivedLength)
            && cp.head == HashAt(history, cp.length)
  {
  }

  // A stretch of the history up to some length, read against a published checkpoint.
  lemma StretchAgainstCheckpoint(c: Config, w: World, to: nat)
    requires Sound(c) && Core(c, w) && Boundary(w) <= to <= |w.history|
    ensures var v := Verified(c.hash, w.history[Boundary(w)..to], AnchorOf(Published(w)), Published(w));
            && (v.valid <==> (Published(w).Some? ==> Published(w).value.length <= to))
            && v.length == to && v.head == HashAt(w.history, to)
  {
    PublishedAnchor(c, w);
    StretchAgainst(c, w.history, Boundary(w), to, AnchorOf(Published(w)), Published(w));
  }

  lemma StretchAgainst(
    c: Config, history: seq<Record>, from: nat, to: nat, anchor: Option<Anchor>, cp: Option<Checkpoint>)
    requires Linked(c.hash, history, 0, GENESIS_HASH) && from <= to <= |history|
    requires Offset(anchor) == from && Start(anchor) == HashAt(history, from)
    requires cp.Some? ==> cp.value.head == HashAt(history, cp.value.length)
    ensures var v := Verified(c.hash, history[from..to], anchor, cp);
            && (v.valid <==> (cp.Some? ==> cp.value.length <= to))
            && v.length == to && v.head == HashAt(history, to)
  {
    StretchIsLinked(c, history, from, to);
    StretchHead(history, from, to);
    LinkedAgainst(c.hash, history[from..to], anchor, cp, history);
  }

  lemma StretchHead(history: seq<Record>, from: nat, to: nat)
    requires from <= to <= |history|
    ensures HeadAfter(history[from..to], HashAt(history, from)) == HashAt(history, to)
  {
  }

  // Intact records reaching a position of the history, against a checkpoint taken of it.
  lemma LinkedAgainst(
    h: Hash, rs: seq<Record>, anchor: Option<Anchor>, cp: Option<Checkpoint>, history: seq<Record>)
    requires Linked(h, rs, Offset(anchor), Start(anchor))
    requires HeadAfter(rs, Start(anchor)) == HashAt(history, Offset(anchor) + |rs|)
    requires cp.Some? ==> cp.value.head == HashAt(history, cp.value.length)
    ensures var v := Verified(h, rs, anchor, cp);
            && (v.valid <==> (cp.Some? ==> cp.value.length <= Offset(anchor) + |rs|))
            && v.length == Offset(anchor) + |rs| && v.head == HashAt(history, Offset(anchor) + |rs|)
  {
    ValidIffLinked(h, rs, anchor, cp);
  }

  /** The part of the history the boundary does not cover. */
  function Retained(w: World): seq<Record> {
    w.history[Min(Boundary(w), |w.history|)..]
  }

  /**
   A snapshot of the log, listing and checkpoint taken together, verifies in every reachable
   state, including between publishing a boundary and deleting what it covers; and it is the
   whole history above the boundary.
   */
  lemma SnapshotVerifies(c: Config, w: World, rs: seq<Record>)
    requires Sound(c) && Reachable(c, w) && !w.overrun && IsListing(rs, w.records)
    ensures Above(rs, Boundary(w)) == Retained(w)
    ensures Verified(c.hash, Above(rs, Boundary(w)), AnchorOf(Published(w)), Published(w)).valid
    ensures Verified(c.hash, Above(rs, Boundary(w)), AnchorOf(Published(w)), Published(w)).length == |w.history|
  {
    ReachableIsGood(c, w);
    LiveRecords(c, w, rs, Boundary(w));
    RetainedVerifies(c, w);
  }

  lemma RetainedVerifies(c: Config, w: World)
    requires Sound(c) && Core(c, w)
    ensures Verified(c.hash, Retained(w), AnchorOf(Published(w)), Published(w)).valid
    ensures Verified(c.hash, Retained(w), AnchorOf(Published(w)), Published(w)).length == |w.history|
  {
    BoundaryWithinHistory(c, w);
    WholeStretch(w.history, Boundary(w));
    StretchAgainstCheckpoint(c, w, |w.history|);
  }

  lemma BoundaryWithinHistory(c: Config, w: World)
    requires Core(c, w)
    ensures Boundary(w) <= |w.history|
    ensures Published(w).Some? ==> Published(w).value.length <= |w.history|
  {
    PublishedAnchor(c, w);
  }

  lemma WholeStretch(history: seq<Record>, b: nat)
    requires b <= |history|
    ensures history[b..|history|] == history[Min(b, |history|)..]
  {
  }

  lemma {:induction false} RevisionsMonotone(w: World, i: nat, j: nat)
    requires RegisterOk(w) && i <= j < |w.revisions|
    ensures w.revisions[i].length <= w.revisions[j].length
    ensures w.revisions[i].archivedLength <= w.revisions[j].archivedLength
    decreases j - i
  {
    if i < j {
      RevisionsMonotone(w, i, j - 1);
      var a, b := w.revisions[j - 1], w.revisions[j];
      assert HeadMoved(a, b) || BoundaryMoved(a, b);
    }
  }

  /**
   The checkpoint is a register that only moves forward, over every interleaving of the two kinds
   of writer: neither the length nor the boundary ever decreases, the boundary is within the
   length and the length within the log, and both hashes are those of the records at those
   positions.
   */
  lemma CheckpointRegister(c: Config, w: World, i: nat, j: nat)
    requires Sound(c) && Reachable(c, w) && !w.overrun && i <= j < |w.revisions|
    ensures w.revisions[i].length <= w.revisions[j].length
    ensures w.revisions[i].archivedLength <= w.revisions[j].archivedLength
    ensures w.revisions[j].archivedLength <= w.revisions[j].length <= |w.history|
    ensures w.revisions[j].head == HashAt(w.history, w.revisions[j].length)
    ensures w.revisions[j].archivedLength > 0 ==>
              w.revisions[j].archivedHead == HashAt(w.history, w.revisions[j].archivedLength)
  {
    ReachableIsGood(c, w);
    RevisionsMonotone(w, i, j);
    assert RevisionOk(w.history, w.revisions[j]);
  }

  /** Between two consecutive revisions one kind of writer wrote, and left the other's fields alone. */
  lemma NeitherWriterErasesTheOther(c: Config, w: World, i: nat)
    requires Sound(c) && Reachable(c, w) && !w.overrun && i + 1 < |w.revisions|
    ensures var a, b := w.revisions[i], w.revisions[i + 1];
            || (a.archivedLength == b.archivedLength && a.archivedHead == b.archivedHead
                && a.archiveLocation == b.archiveLocation)
            || (a.length == b.length && a.head == b.head && a.time == b.time)
  {
    ReachableIsGood(c, w);
    assert HeadMoved(w.revisions[i], w.revisions[i + 1]) || BoundaryMoved(w.revisions[i], w.revisions[i + 1]);
  }

  lemma BoundaryMonotone(c: Config, w: World, w': World)
    requires Core(c, w) && Core(c, w') && Evolves(w, w')
    ensures Boundary(w) <= Boundary(w')
  {
    BoundaryMoves(w, w');
  }

  lemma BoundaryMoves(w: World, w': World)
    requires RegisterOk(w') && w.revisions <= w'.revisions
    ensures Boundary(w) <= Boundary(w')
  {
    if |w.revisions| > 0 {
      assert w'.revisions[|w.revisions| - 1] == w.revisions[|w.revisions| - 1];
      RevisionsMonotone(w', |w.revisions| - 1, |w'.revisions| - 1);
    }
  }

  /**
   `Chain` lists the records and reads the checkpoint in two calls. When others run in between,
   the result verifies if and only if the checkpoint it read reaches no further than the listing
   or the boundary: an append that lands and is published between the two calls makes a sound log
   look truncated.
   */
  lemma TornSnapshotVerifiesIff(c: Config, w: World, w': World, rs: seq<Record>)
    requires Sound(c) && Reachable(c, w) && Leads(c, w, w') && !w'.overrun
    requires IsListing(rs, w.records)
    ensures Verified(c.hash, Above(rs, Boundary(w')), AnchorOf(Published(w')), Published(w')).valid <==>
            (Published(w').Some? ==> Published(w').value.length <= Max(|w.history|, Boundary(w')))
  {
    LeadsFromReachable(c, w, w');
    ReachableIsGood(c, w);
    ReachableIsGood(c, w');
    BoundaryMonotone(c, w, w');
    LiveRecords(c, w, rs, Boundary(w'));
    PublishedAnchor(c, w');
    var to := Max(|w.history|, Boundary(w'));
    StretchAgainstCheckpoint(c, w', to);
    TornSlice(w.history, w'.history, Boundary(w'), to);
  }

  lemma TornSlice(listed: seq<Record>, history: seq<Record>, boundary: nat, to: nat)
    requires listed <= history && to == Max(|listed|, boundary) && to <= |history|
    ensures listed[Min(boundary, |listed|)..] == history[boundary..to]
  {
  }

  // Read without its anchor, a snapshot verifies while nothing has been archived and not after.
  lemma UnanchoredVerifiesIff(c: Config, w: World, listed: seq<Record>)
    requires Sound(c) && Core(c, w) && listed <= w.history
    ensures Verified(c.hash, listed[Min(Boundary(w), |listed|)..], None, Published(w)).valid <==>
            Boundary(w) == 0 && (Published(w).Some? ==> Published(w).value.length <= |listed|)
  {
    if Boundary(w) == 0 {
      NothingArchived(c, w, |listed|);
      assert listed[Min(0, |listed|)..] == w.history[0..|listed|];
    } else {
      ArchivedAlready(c, w, listed);
    }
  }

  lemma NothingArchived(c: Config, w: World, to: nat)
    requires Sound(c) && Core(c, w) && Boundary(w) == 0 && to <= |w.history|
    ensures Verified(c.hash, w.history[0..to], None, Published(w)).valid <==>
            (Published(w).Some? ==> Published(w).value.length <= to)
  {
    StretchAgainstCheckpoint(c, w, to);
  }

  lemma ArchivedAlready(c: Config, w: World, listed: seq<Record>)
    requires Core(c, w) && listed <= w.history && Boundary(w) > 0
    ensures !Verified(c.hash, listed[Min(Boundary(w), |listed|)..], None, Published(w)).valid
  {
    var live := listed[Min(Boundary(w), |listed|)..];
    PublishedAnchor(c, w);
    ValidIffLinked(c.hash, live, None, Published(w));
    if |live| > 0 {
      HistoryAt(c, w, Boundary(w));
      assert live[0] == w.history[Boundary(w)];
      assert !LinkAt(c.hash, live, 0, 0, GENESIS_HASH);
    }
  }

  /**
   `Recorder.Verify` walks the stored records from the beginning of the log whatever has been
   archived, so an untouched log passes it if and only if nothing has been archived yet.
   */
  lemma VerifyIgnoresTheAnchor(c: Config, w: World, rs: seq<Record>)
    requires Sound(c) && Reachable(c, w) && !w.overrun && IsListing(rs, w.records)
    ensures Verified(c.hash, Above(rs, Boundary(w)), None, Published(w)).valid <==> Boundary(w) == 0
  {
    ReachableIsGood(c, w);
    LiveRecords(c, w, rs, Boundary(w));
    BoundaryWithinHistory(c, w);
    UnanchoredVerifiesIff(c, w, w.history);
  }

  // ---------- the size of the chain ----------

  const UINT64: nat := 0x1_0000_0000_0000_0000

  /** Unsigned 64-bit subtraction, as the processor does it. */
  function Uint64Minus(a: nat, b: nat): nat {
    (a - b) % UINT64
  }

  lemma MinusWithoutWrap(a: nat, b: nat)
    requires b <= a < UINT64
    ensures Uint64Minus(a, b) == a - b
  {
  }

  /** The subtraction in `Size` never wraps: it is the number of records above the boundary. */
  lemma SizeDoesNotWrap(c: Config, w: World)
    requires Sound(c) && Reachable(c, w) && !w.overrun && |w.history| < UINT64
    requires Current(w).Some?
    ensures var s := Current(w).value;
            Uint64Minus(s.length, s.archivedLength) + s.archivedLength == s.length
  {
    ReachableIsGood(c, w);
    PublishedAnchor(c, w);
    MinusWithoutWrap(Current(w).value.length, Current(w).value.archivedLength);
  }

  // ---------- the head index ----------

  const MAX_CATCH_UP: nat := 1000

  function StoredAt(records: map<nat, Record>, sequence: nat): Option<Record> {
    if sequence == 0 || sequence !in records then None else Some(records[sequence])
  }

  /** The forward walk from a checkpointed length. */
  function Walk(records: map<nat, Record>, at: nat, prev: Option<Record>, budget: nat): Option<Record>
    decreases budget
  {
    if budget == 0 || StoredAt(records, at + 1).None? then prev
    else Walk(records, at + 1, StoredAt(records, at + 1), budget - 1)
  }

  /** What `head` finds when a checkpoint exists and nothing changes under it. */
  function FindHead(records: map<nat, Record>, length: nat): Option<Record> {
    Walk(records, length, StoredAt(records, length), MAX_CATCH_UP)
  }

  lemma {:induction false} WalkReaches(w: World, at: nat, prev: Option<Record>, budget: nat)
    requires StoreOk(w) && Boundary(w) <= at < |w.history|
    requires budget == 0 ==> at > 0 && prev == Some(w.history[at - 1])
    ensures Walk(w.records, at, prev, budget) == Some(w.history[Min(at + budget, |w.history|) - 1])
    decreases budget
  {
    if budget > 0 {
      assert at + 1 in w.records && w.records[at + 1] == w.history[at];
      if at + 1 < |w.history| {
        WalkReaches(w, at + 1, StoredAt(w.records, at + 1), budget - 1);
      } else {
        assert at + 2 !in w.records;
      }
    }
  }

  lemma HeadFound(w: World, length: nat)
    requires StoreOk(w) && Positioned(w) && 1 <= length <= |w.history|
    requires Boundary(w) <= length && Boundary(w) < |w.history|
    ensures FindHead(w.records, length) == Some(w.history[Min(length + MAX_CATCH_UP, |w.history|) - 1])
  {
    if length < |w.history| {
      WalkReaches(w, length, StoredAt(w.records, length), MAX_CATCH_UP);
    } else {
      assert length in w.records && length + 1 !in w.records;
    }
  }

  lemma CurrentLength(c: Config, w: World)
    requires Sound(c) && Core(c, w) && Current(w).Some?
    ensures 1 <= Current(w).value.length <= |w.history|
    ensures Boundary(w) <= Current(w).value.length && Boundary(w) < |w.history|
  {
    assert RevisionOk(w.history, w.revisions[|w.revisions| - 1]);
  }

  lemma StoreAndCheckpoint(c: Config, w: World)
    requires Sound(c) && Reachable(c, w) && !w.overrun && Current(w).Some?
    ensures StoreOk(w) && Positioned(w)
    ensures 1 <= Current(w).value.length <= |w.history|
    ensures Boundary(w) <= Current(w).value.length && Boundary(w) < |w.history|
  {
    ReachableIsGood(c, w);
    CoreIsPositioned(c, w);
    CurrentLength(c, w);
  }

  lemma FarBehindCollides(w: World, n: nat)
    requires StoreOk(w) && Positioned(w) && Boundary(w) < n < |w.history|
    ensures w.history[n - 1].sequence == n && n in w.records && n + 1 in w.records
  {
  }

  /**
   The index agrees with the listing. In every reachable state with a checkpoint that lags the
   log by at most 1000 records, `head` finds the last record of the history; with a larger lag it
   finds an earlier record that is still stored, so the creation that follows collides. It never
   finds nothing, even when the checkpointed record itself has been archived.
   */
  lemma HeadIndexAgrees(c: Config, w: World, length: nat, found: Option<Record>)
    requires Sound(c) && Reachable(c, w) && !w.overrun && Current(w).Some?
    requires length == Current(w).value.length && found == FindHead(w.records, length)
    ensures found.Some?
    ensures |w.history| <= length + 1000 ==> found == LastOf(w.history)
    ensures |w.history| > length + 1000 ==>
              && found.value.sequence == length + 1000
              && found.value.sequence in w.records && found.value.sequence + 1 in w.records
  {
    StoreAndCheckpoint(c, w);
    IndexAgrees(w, length, found);
  }

  lemma IndexAgrees(w: World, length: nat, found: Option<Record>)
    requires StoreOk(w) && Positioned(w) && 1 <= length <= |w.history|
    requires Boundary(w) <= length && Boundary(w) < |w.history| && found == FindHead(w.records, length)
    ensures found.Some?
    ensures |w.history| <= length + MAX_CATCH_UP ==> found == LastOf(w.history)
    ensures |w.history| > length + MAX_CATCH_UP ==>
              && found.value.sequence == length + MAX_CATCH_UP
              && found.value.sequence in w.records && found.value.sequence + 1 in w.records
  {
    HeadFound(w, length);
    FoundIsHeadOrCollides(w, length, MAX_CATCH_UP, found);
  }

  lemma FoundIsHeadOrCollides(w: World, length: nat, budget: nat, found: Option<Record>)
    requires StoreOk(w) && Positioned(w) && 1 <= length <= |w.history| && Boundary(w) <= length && budget > 0
    requires found == Some(w.history[Min(length + budget, |w.history|) - 1])
    ensures |w.history| <= length + budget ==> found == LastOf(w.history)
    ensures |w.history| > length + budget ==>
              && found.value.sequence == length + budget
              && found.value.sequence in w.records && found.value.sequence + 1 in w.records
  {
    if |w.history| > length + budget { FarBehindCollides(w, length + budget); }
  }

  /**
   What `head` finds is fresh enough to append to for as long as the boundary has not passed the length
   that the checkpoint had when it was read: however far the chain has gone since, the creation then
   collides or lands at the end.
   */
  lemma FoundHeadIsSafe(c: Config, w0: World, w1: World, event: Record, prev: Option<Record>)
    requires Sound(c) && Reachable(c, w0) && Leads(c, w0, w1) && !w1.overrun && Current(w0).Some?
    requires prev == FindHead(w0.records, Current(w0).value.length)
    requires Boundary(w1) <= Current(w0).value.length
    ensures Observed(w1.history, prev)
    ensures Core(c, AfterCreate(c, w1, event, prev)) && !AfterCreate(c, w1, event, prev).overrun
  {
    LeadsFromReachable(c, w0, w1);
    ReachableIsGood(c, w1);
    FoundIsRecent(c, w0, Current(w0).value.length, prev);
    CreateKeepsCore(c, w1, event, prev);
  }

  lemma FoundIsRecent(c: Config, w: World, length: nat, found: Option<Record>)
    requires Sound(c) && Reachable(c, w) && !w.overrun && Current(w).Some?
    requires length == Current(w).value.length && found == FindHead(w.records, length)
    ensures Observed(w.history, found) && SeenLength(found) >= length
  {
    StoreAndCheckpoint(c, w);
    HeadFound(w, length);
  }

  /** Without a checkpoint nothing has been archived, and the last record listed is the head. */
  lemma ColdHeadAgrees(c: Config, w: World, rs: seq<Record>)
    requires Sound(c) && Reachable(c, w) && !w.overrun && Current(w).None?
    requires IsListing(rs, w.records)
    ensures rs == w.history && LastOf(rs) == LastOf(w.history)
  {
    ReachableIsGood(c, w);
    var from := ListingIsSuffix(c, w, rs);
  }

  // ---------- sweeping ----------

  /** One read settles it: if the record at the boundary is gone, nothing the boundary covers is left. */
  lemma SweepReadDecides(c: Config, w: World)
    requires Sound(c) && Reachable(c, w) && !w.overrun && Boundary(w) > 0
    ensures Boundary(w) !in w.records <==> NothingPending(w)
  {
    ReachableIsGood(c, w);
  }

  // ---------- nothing is lost ----------

  /** All that is asked of the segment codec: the number of records and their hash strings survive. */
  ghost predicate KeepsHashes(c: Config) {
    forall rs: seq<Record> {:trigger c.decode(c.encode(rs))} :: c.decode(c.encode(rs)).Some? ==>
      var back := c.decode(c.encode(rs)).value;
      |back| == |rs| && forall i :: 0 <= i < |rs| ==> back[i].hash == rs[i].hash
  }

  lemma HashAtIsClean(c: Config, history: seq<Record>, n: nat)
    requires Clean(c.hash) && Linked(c.hash, history, 0, GENESIS_HASH)
    ensures '\n' !in HashAt(history, n)
  {
    assert 0 < n <= |history| ==> LinkAt(c.hash, history, n - 1, 0, GENESIS_HASH);
  }

  /**
   Read-back verification is sufficient: a segment that decodes and verifies from the anchor it
   was cut at is, record for record, what was encoded, unless the hash collides between the two.
   */
  lemma ReadBackSuffices(c: Config, digest: Digest, history: seq<Record>, from: nat, to: nat, back: seq<Record>)
    requires Implements(c.hash, digest) && Clean(c.hash) && KeepsHashes(c)
    requires Linked(c.hash, history, 0, GENESIS_HASH) && from <= to <= |history|
    requires c.decode(c.encode(history[from..to])) == Some(back)
    requires Linked(c.hash, back, from, HashAt(history, from))
    ensures SameToTheSecond(back, history[from..to]) || Collision(c.hash, back, history[from..to])
  {
    StretchIsLinked(c, history, from, to);
    HashAtIsClean(c, history, from);
    SameHashesSameRecords(c.hash, digest, back, history[from..to], from, HashAt(history, from));
  }

  lemma {:induction false} TileCovering(published: seq<Segment>, boundary: nat, k: nat, i: nat)
    returns (found: nat)
    requires Tiles(published, boundary) && 1 <= k <= boundary && i < |published| && published[i].first <= k
    ensures found < |published| && published[found].first <= k <= published[found].last
    decreases |published| - i
  {
    if k <= published[i].last {
      found := i;
    } else {
      assert i + 1 < |published|;
      assert published[i + 1].first == published[i].last + 1;
      found := TileCovering(published, boundary, k, i + 1);
    }
  }

  /** The file of a published segment decodes to a record that is, to the second, the one appended. */
  ghost predicate ArchivedFaithfully(c: Config, w: World, s: Segment) {
    && 1 <= s.first <= s.last <= |w.history|
    && s in w.sink && c.decode(w.sink[s]).Some?
    && var back := c.decode(w.sink[s]).value;
       var cut := w.history[s.first - 1..s.last];
       SameToTheSecond(back, cut) || Collision(c.hash, back, cut)
  }

  /**
   No record is lost: in every reachable state, whatever the sink did and wherever anybody
   stopped, each record ever appended is still stored unchanged, or lies in a published segment
   whose file decodes to it. A record is missing from the store only if the boundary covers it.
   */
  lemma NoRecordIsLost(c: Config, digest: Digest, w: World, k: nat)
    requires Sound(c) && Implements(c.hash, digest) && Clean(c.hash) && KeepsHashes(c)
    requires Reachable(c, w) && !w.overrun && 1 <= k <= |w.history|
    ensures k !in w.records ==> k <= Boundary(w)
    ensures || (k in w.records && w.records[k] == w.history[k - 1])
            || exists i :: 0 <= i < |w.published|
                           && w.published[i].first <= k <= w.published[i].last
                           && ArchivedFaithfully(c, w, w.published[i])
  {
    ReachableIsGood(c, w);
    if k !in w.records {
      var i := TileCovering(w.published, Boundary(w), k, 0);
      PublishedIsFaithful(c, digest, w, i);
    }
  }

  lemma PublishedIsFaithful(c: Config, digest: Digest, w: World, i: nat)
    requires Implements(c.hash, digest) && Clean(c.hash) && KeepsHashes(c) && Core(c, w) && i < |w.published|
    ensures ArchivedFaithfully(c, w, w.published[i])
  {
    var s := w.published[i];
    assert Holds(c, w.sink, w.history, s);
    ReadBackSuffices(c, digest, w.history, s.first - 1, s.last, c.decode(w.sink[s]).value);
  }

  /** The step of a run by which this record became part of the history. */
  ghost predicate Landed(c: Config, trace: seq<Step>, at: nat, r: Record) {
    && at < |trace| && trace[at].Create?
    && Execute(c, EMPTY, trace[..at + 1]).history == Execute(c, EMPTY, trace[..at]).history + [r]
  }

  lemma LaterHistory(c: Config, trace: seq<Step>, i: nat, j: nat)
    requires i <= j <= |trace|
    ensures Evolves(Execute(c, EMPTY, trace[..i]), Execute(c, EMPTY, trace[..j]))
  {
    assert trace[..j] == trace[..i] + trace[i..j];
    ExecuteSplit(c, EMPTY, trace[..i], trace[i..j]);
    RunsEvolve(c, Execute(c, EMPTY, trace[..i]), trace[i..j]);
  }

  /**
   Nothing but what was appended is in the log: every record of the history of every run landed by a
   creation in that run, and carries exactly the event of that creation.
   */
  lemma {:induction false} EveryRecordWasAppended(c: Config, trace: seq<Step>, k: nat) returns (at: nat)
    requires k < |Execute(c, EMPTY, trace).history|
    ensures var r := Execute(c, EMPTY, trace).history[k];
            Landed(c, trace, at, r) && Carries(r, trace[at].event)
  {
    var last := |trace| - 1;
    var w := Execute(c, EMPTY, trace[..last]);
    assert trace[..last + 1] == trace;
    if k < |w.history| {
      StepEvolves(c, w, trace[last]);
      at := EveryRecordWasAppended(c, trace[..last], k);
      assert trace[..last][..at] == trace[..at] && trace[..last][..at + 1] == trace[..at + 1];
    } else {
      at := last;
      NewlyAppended(c, w, trace[last]);
    }
  }

  lemma NewlyAppended(c: Config, w: World, s: Step)
    ensures var more := Apply(c, w, s).history;
            more != w.history ==> s.Create? && exists r :: more == w.history + [r] && Carries(r, s.event)
  {
    if s.Create? && Enabled(c, w, s) && AfterCreate(c, w, s.event, s.prev) != w {
      assert Carries(Seal(c.hash, s.event, s.prev), s.event);
    }
  }

  /** Two creations that landed own different positions, in the order they landed. */
  lemma LandingsOwnTheirPositions(c: Config, trace: seq<Step>, i: nat, r: Record, j: nat, s: Record)
    requires Sound(c) && !Execute(c, EMPTY, trace).overrun
    requires i < j && Landed(c, trace, i, r) && Landed(c, trace, j, s)
    ensures r.sequence < s.sequence
    ensures r.sequence == |Execute(c, EMPTY, trace[..i + 1]).history|
  {
    PositionOfLanding(c, trace, i, r);
    PositionOfLanding(c, trace, j, s);
    LaterHistory(c, trace, i + 1, j);
  }

  lemma PositionOfLanding(c: Config, trace: seq<Step>, at: nat, r: Record)
    requires Sound(c) && !Execute(c, EMPTY, trace).overrun && Landed(c, trace, at, r)
    ensures r.sequence == |Execute(c, EMPTY, trace[..at + 1]).history| == |Execute(c, EMPTY, trace[..at]).history| + 1
  {
    var w := Execute(c, EMPTY, trace);
    assert trace[..|trace|] == trace;
    LaterHistory(c, trace, at + 1, |trace|);
    RunsAreSafe(c, trace);
    CoreIsPositioned(c, w);
    LastOfPrefix(Execute(c, EMPTY, trace[..at]).history, r, w.history);
  }

  lemma LastOfPrefix(before: seq<Record>, r: Record, history: seq<Record>)
    requires before + [r] <= history && forall k :: 0 <= k < |history| ==> history[k].sequence == k + 1
    ensures r.sequence == |before| + 1
  {
    assert history[|before|] == (before + [r])[|before|] == r;
  }

  /**
   The history of every run is one chain: position n holds the record numbered n, linked to the one
   before it and unmodified, so every successful append owns a position of its own.
   */
  lemma HistoryIsOneChain(c: Config, w: World)
    requires Sound(c) && Reachable(c, w) && !w.overrun
    ensures Verified(c.hash, w.history, None, None).valid
    ensures forall i :: 0 <= i < |w.history| ==> w.history[i].sequence == i + 1
    ensures forall k :: k in w.records ==> 1 <= k <= |w.history| && w.records[k] == w.history[k - 1]
  {
    ReachableIsGood(c, w);
    CoreIsPositioned(c, w);
    ValidIffLinked(c.hash, w.history, None, None);
  }
}
