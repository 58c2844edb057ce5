/**
 The maintenance loop (internal/maintenance/loop.go): one archive run after another, with writers
 appending all the while; and what the archive directory is worth when every run completed.
 */
module Maintenance {
  import opened Text
  import opened AuditNames
  import opened Protocol
  import opened ProtocolSafety
  import opened Guarantees
  import opened ApiServer
  import opened Archiving
  import opened Offline

  /** Every file in the sink has its boundary published. */
  ghost predicate NoOrphans(w: World) {
    forall s :: s in w.sink ==> s in w.published
  }

  /** With no orphans, every directory of the sink's files passes the offline check. */
  lemma NoOrphansIsApproved(c: Config, w: World, dir: Directory, asJson: bool)
    requires Sound(c) && KeepsHashes(c) && Reachable(c, w) && !w.overrun && NoOrphans(w)
    requires SinkDirectory(dir, w.sink) && 0 < Boundary(w) < Pow10(WIDTH)
    ensures AuditExit(c.hash, c.decode, Listed(dir), Given(Published(w)), asJson) == Approved
  {
    SinkVerifiesIffNoOrphans(c, w, dir, asJson);
  }

  /** What anybody who copies the sink's files can check against the checkpoint. */
  ghost predicate DirectoryApproved(c: Config, w: World) {
    forall dir, asJson :: SinkDirectory(dir, w.sink) ==>
      AuditExit(c.hash, c.decode, Listed(dir), Given(Published(w)), asJson) == Approved
  }

  lemma CompletedRunsVerify(c: Config, w: World)
    requires Sound(c) && KeepsHashes(c) && Reachable(c, w) && !w.overrun && NoOrphans(w)
    requires 0 < Boundary(w) < Pow10(WIDTH)
    ensures DirectoryApproved(c, w)
  {
    forall dir, asJson | SinkDirectory(dir, w.sink)
      ensures AuditExit(c.hash, c.decode, Listed(dir), Given(Published(w)), asJson) == Approved
    {
      NoOrphansIsApproved(c, w, dir, asJson);
    }
  }

  class Loop {
    const api: Cluster
    const archiver: Archiver

    constructor (archiver: Archiver)
      requires archiver.Wired()
      ensures this.archiver == archiver && Wired()
    {
      this.archiver, this.api := archiver, archiver.api;
    }

    ghost predicate Wired() {
      archiver.Wired() && archiver.api == api
    }

    /**
     `once`, and whether the run completed, or failed without leaving a file behind. Undisturbed, and with a
     checkpoint that keeps up, it completes and leaves nothing to sweep.
     */
    method Once() returns (settled: bool)
      requires Wired() && api.Valid()
      modifies api
      ensures api.Valid() && old(api.trace) <= api.trace && (old(api.overrun) ==> api.overrun)
      ensures settled && !api.overrun && NoOrphans(old(api.State())) ==> NoOrphans(api.State())
      ensures old(api.disturbed) <= api.disturbed
      ensures api.disturbed == old(api.disturbed) && !api.overrun && RoundTrips(api.config)
              && !Behind(api.config, api.State()) ==>
                settled && NothingPending(api.State())
    {
      ghost var t, w := api.trace, api.State();
      var moved, failure, listed := archiver.Run();
      api.Since(t);
      settled := failure.None? || LeavesNothing(failure.value);
      if settled && !api.overrun && NoOrphans(w) { StillNoOrphans(w, api.State()); }
    }

    lemma StillNoOrphans(w: World, w': World)
      requires NoOrphans(w) && NoNewOrphans(w, w') && Evolves(w, w')
      ensures NoOrphans(w')
    {
    }

    /** `observe`: it measures the chain and changes nothing. */
    method Observe()
      requires Wired() && api.Valid()
      modifies api
      ensures api.Valid() && old(api.trace) <= api.trace
      ensures AllWriters(api.trace[|old(api.trace)|..])
    {
      var size := archiver.recorder.Size();
    }

    /**
     `Start`: any number of rounds, writers running before and during each. If every run was settled,
     nothing is in the sink without a published boundary; so once anything has been archived, whoever
     copies the sink's files finds that they pass the offline check.
     */
    method Start() returns (allSettled: bool)
      requires Wired() && api.Valid()
      modifies api
      ensures api.Valid() && old(api.trace) <= api.trace
      ensures allSettled && !api.overrun && NoOrphans(old(api.State())) ==> NoOrphans(api.State())
      ensures allSettled && !api.overrun && NoOrphans(old(api.State())) && KeepsHashes(api.config)
              && 0 < Boundary(api.State()) < Pow10(WIDTH) ==>
                DirectoryApproved(api.config, api.State())
    {
      ghost var w := api.State();
      allSettled := true;
      var rounds: nat := *;
      while rounds > 0
        invariant api.Valid() && old(api.trace) <= api.trace && (w.overrun ==> api.overrun)
        invariant allSettled && !api.overrun && NoOrphans(w) ==> NoOrphans(api.State())
      {
        ghost var t := api.trace;
        Observe();
        api.SinceWriters(t);
        var settled := Once();
        allSettled := allSettled && settled;
        rounds := rounds - 1;
      }
      if allSettled && !api.overrun && NoOrphans(w) && KeepsHashes(api.config)
         && 0 < Boundary(api.State()) < Pow10(WIDTH) {
        assert Reachable(api.config, api.State());
        CompletedRunsVerify(api.config, api.State());
      }
    }
  }
}
