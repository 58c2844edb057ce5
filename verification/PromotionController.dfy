/**
 The promotion controller as it runs (internal/controller/promotion_controller.go): `Reconcile` as a
 sequence of API calls with everybody else running in between. Each write is shown to be a step of
 the promotion state machine, so what is proved of every run holds of every cluster it runs in.
 */
module PromotionController {
  import opened Wrappers
  import opened Text
  import opened Signing
  import opened Gating
  import opened Promotions
  import opened PromotionHistory

  datatype ApiError = NotFound | Conflict | Unavailable

  class Cluster {
    // The names of the report about a model version.
    const names: Names

    var requests: map<Key, Stored<Promotion>>
    var reports: map<Key, Stored<Report>>
    var revision: nat

    // What has happened so far, for the claims: nothing the controller does depends on it.
    var specs: set<(Key, nat, Spec)>
    var seen: set<(Key, Report)>
    var promoted: set<(Key, string)>
    var owed: set<nat>
    var attempts: seq<nat>
    ghost var trace: seq<Step>
    // How often somebody else took a step, or a call failed or was not answered.
    ghost var disturbed: nat

    function State(): World
      reads this`requests, this`reports, this`revision, this`specs, this`seen, this`promoted, this`owed, this`attempts
    {
      World(requests, reports, revision, specs, seen, promoted, owed, attempts)
    }

    ghost predicate Valid()
      reads this`requests, this`reports, this`revision, this`specs, this`seen, this`promoted, this`owed, this`attempts
      reads this`trace
    {
      State() == Execute(names, EMPTY, trace)
    }

    constructor (names: Names)
      ensures Valid() && State() == EMPTY && trace == [] && this.names == names
    {
      this.names := names;
      requests, reports, revision := map[], map[], 0;
      specs, seen, promoted, owed, attempts, trace, disturbed := {}, {}, {}, {}, [], [], 0;
    }

    lemma Stepped(before: World, earlier: seq<Step>, s: Step)
      requires before == Execute(names, EMPTY, earlier) && trace == earlier + [s]
      requires Enabled(names, before, s) && State() == Effect(before, s)
      ensures Valid()
    {
      assert trace[..|trace| - 1] == earlier && trace[|trace| - 1] == s;
      assert Execute(names, EMPTY, trace) == ExecuteLast(names, EMPTY, trace);
    }

    /** What has been read since an earlier point stays true of it. */
    lemma Since(earlier: seq<Step>)
      requires Valid() && earlier <= trace
      ensures Evolves(names, Execute(names, EMPTY, earlier), State()) && Good(names, State())
    {
      var more := trace[|earlier|..];
      assert trace == earlier + more;
      ExecuteSplit(names, EMPTY, earlier, more);
      RunsEvolve(names, Execute(names, EMPTY, earlier), more);
      RunsAreGood(names, trace);
    }

    /** From then until now there was a disturbance, or nothing happened at all. */
    ghost predicate Undisturbed(count: nat, earlier: seq<Step>, w: World)
      reads this
    {
      count <= disturbed && (disturbed == count ==> trace == earlier && State() == w)
    }

    /** A step, if it is one that can be taken now. */
    method Perform(s: Step)
      requires Valid()
      modifies this
      ensures Valid() && (trace == old(trace) || trace == old(trace) + [s])
      ensures trace == old(trace) ==> State() == old(State())
      ensures Enabled(names, old(State()), s) ==> trace == old(trace) + [s] && State() == Effect(old(State()), s)
      ensures !Enabled(names, old(State()), s) ==> trace == old(trace)
      ensures disturbed == old(disturbed)
    {
      if Enabled(names, State(), s) {
        var w := Effect(State(), s);
        requests, reports, revision := w.requests, w.reports, w.revision;
        specs, seen, promoted, owed, attempts := w.specs, w.seen, w.promoted, w.owed, w.attempts;
        trace := trace + [s];
        Stepped(old(State()), old(trace), s);
      }
    }

    /**
     Any number of steps by users, scans and other replicas of the controller. Nobody else records a
     decision that this process wrote and has yet to record.
     */
    method OthersRun(mine: set<nat>)
      requires Valid()
      modifies this
      ensures Valid() && old(trace) <= trace
      ensures forall u :: u in mine && u in old(owed) ==> u in owed
      ensures Undisturbed(old(disturbed), old(trace), old(State()))
    {
      var steps: nat := *;
      while steps > 0
        invariant Valid() && old(trace) <= trace
        invariant forall u :: u in mine && u in old(owed) ==> u in owed
        invariant Undisturbed(old(disturbed), old(trace), old(State()))
      {
        var s: Step := *;
        if !(s.RecordDecision? && s.uid in mine) {
          Perform(s);
          disturbed := disturbed + 1;
        }
        steps := steps - 1;
      }
    }

    /** A call says it is unavailable exactly when it failed or was not answered. */
    ghost predicate Answered<T>(r: Result<T, ApiError>, count: nat)
      reads this`disturbed
    {
      disturbed == if r == Err(Unavailable) then count + 1 else count
    }

    method GetRequest(key: Key) returns (r: Result<Stored<Promotion>, ApiError>)
      modifies this`disturbed
      ensures Answered(r, old(disturbed))
      ensures r.Ok? ==> key in requests && r.value == requests[key]
      ensures r.Err? ==> r.error == NotFound || r.error == Unavailable
      ensures r == Err(NotFound) ==> key !in requests
    {
      var reachable: bool := *;
      if !reachable {
        disturbed := disturbed + 1;
        return Err(Unavailable);
      }
      if key !in requests { return Err(NotFound); }
      return Ok(requests[key]);
    }

    method GetReport(key: Key) returns (r: Result<Stored<Report>, ApiError>)
      modifies this`disturbed
      ensures Answered(r, old(disturbed))
      ensures r.Ok? ==> key in reports && r.value == reports[key]
      ensures r.Err? ==> r.error == NotFound || r.error == Unavailable
      ensures r == Err(NotFound) ==> key !in reports
    {
      var reachable: bool := *;
      if !reachable {
        disturbed := disturbed + 1;
        return Err(Unavailable);
      }
      if key !in reports { return Err(NotFound); }
      return Ok(reports[key]);
    }

    /** An update of a request's status over revision `version`: it conflicts if that is not current. */
    method UpdateStatus(key: Key, version: nat, status: Status, ghost reportKey: Key, ghost report: Option<Report>)
      returns (r: Result<(), ApiError>)
      requires Valid() && Enabled(names, State(), WriteStatus(key, version, reportKey, report))
      requires Current(requests, key, version) ==>
                 status == NextStatus(requests[key].value.status, requests[key].value.spec, report)
      modifies this
      ensures Valid() && old(trace) <= trace && Answered(r, old(disturbed))
      ensures r.Err? && r.error != Unavailable ==> !Current(requests, key, version) && trace == old(trace)
      ensures r.Ok? ==>
                && Current(old(requests), key, version)
                && requests == old(requests)[key := Stored(
                     old(requests)[key].value.(status := status), old(revision) + 1, old(requests)[key].uid)]
                && (IsTerminal(status.phase) ==> old(requests)[key].uid in owed)
    {
      var reachable: bool := *;
      if !reachable {
        disturbed := disturbed + 1;
        return Err(Unavailable);
      }
      if key !in requests { return Err(NotFound); }
      if requests[key].version != version { return Err(Conflict); }
      StoreStatus(key, status, reportKey, report);
      var answered: bool := *;
      if !answered { disturbed := disturbed + 1; }
      return if answered then Ok(()) else Err(Unavailable);
    }

    // The write itself, over the revision that is current.
    method StoreStatus(key: Key, status: Status, ghost reportKey: Key, ghost report: Option<Report>)
      requires Valid() && key in requests
      requires Enabled(names, State(), WriteStatus(key, requests[key].version, reportKey, report))
      requires status == NextStatus(requests[key].value.status, requests[key].value.spec, report)
      modifies this
      ensures Valid() && old(trace) <= trace && disturbed == old(disturbed)
      ensures requests == old(requests)[key := Stored(
                old(requests)[key].value.(status := status), old(revision) + 1, old(requests)[key].uid)]
      ensures IsTerminal(status.phase) ==> old(requests)[key].uid in owed
    {
      var held := requests[key];
      requests := requests[key := Stored(held.value.(status := status), revision + 1, held.uid)];
      revision, specs := revision + 1, specs + {(key, held.uid, held.value.spec)};
      if IsTerminal(status.phase) { owed := owed + {held.uid}; }
      trace := trace + [WriteStatus(key, held.version, reportKey, report)];
      Stepped(old(State()), old(trace), WriteStatus(key, held.version, reportKey, report));
    }

    /** An update of a report's status over revision `version`, for an environment that was added. */
    method UpdateReport(key: Key, version: nat, value: Report, ghost request: Key, ghost uid: nat, spec: Spec)
      returns (r: Result<(), ApiError>)
      requires Valid() && Enabled(names, State(), AddEnvironment(key, version, request, uid, spec))
      requires Current(reports, key, version) ==>
                 value == reports[key].value.(environments := Sort(reports[key].value.environments + [spec.target]))
      modifies this
      ensures Valid() && old(trace) <= trace && Answered(r, old(disturbed))
      ensures r.Err? && r.error != Unavailable ==> !Current(reports, key, version) && trace == old(trace)
      ensures requests == old(requests)
      ensures r.Ok? ==>
                && Current(old(reports), key, version) && (key, spec.target) in promoted
                && reports == old(reports)[key := Stored(value, old(revision) + 1, old(reports)[key].uid)]
    {
      var reachable: bool := *;
      if !reachable {
        disturbed := disturbed + 1;
        return Err(Unavailable);
      }
      if key !in reports { return Err(NotFound); }
      if reports[key].version != version { return Err(Conflict); }
      StoreEnvironments(key, value, request, uid, spec);
      var answered: bool := *;
      if !answered { disturbed := disturbed + 1; }
      return if answered then Ok(()) else Err(Unavailable);
    }

    // The write itself, over the revision that is current.
    method StoreEnvironments(key: Key, value: Report, ghost request: Key, ghost uid: nat, spec: Spec)
      requires Valid() && key in reports
      requires Enabled(names, State(), AddEnvironment(key, reports[key].version, request, uid, spec))
      requires value == reports[key].value.(environments := Sort(reports[key].value.environments + [spec.target]))
      modifies this
      ensures Valid() && old(trace) <= trace && disturbed == old(disturbed) && requests == old(requests)
      ensures (key, spec.target) in promoted
      ensures reports == old(reports)[key := Stored(value, old(revision) + 1, old(reports)[key].uid)]
    {
      ghost var s := AddEnvironment(key, reports[key].version, request, uid, spec);
      reports := reports[key := Stored(value, revision + 1, reports[key].uid)];
      revision, seen := revision + 1, seen + {(key, value)};
      promoted := promoted + {(key, spec.target)};
      trace := trace + [s];
      Stepped(old(State()), old(trace), s);
    }
  }

  /** A revision that was really stored, by this point of a run. */
  ghost predicate SawRequest(w: World, key: Key, s: Stored<Promotion>) {
    && s.version <= w.revision && (key, s.uid, s.value.spec) in w.specs
    && (Current(w.requests, key, s.version) ==> w.requests[key] == s)
  }

  ghost predicate SawReport(w: World, key: Key, s: Stored<Report>) {
    && s.version <= w.revision && (key, s.value) in w.seen
    && (Current(w.reports, key, s.version) ==> w.reports[key] == s)
    && forall e :: e in s.value.environments ==> (key, e) in w.promoted
  }

  lemma StillSawRequest(n: Names, w: World, w': World, key: Key, s: Stored<Promotion>)
    requires Evolves(n, w, w') && SawRequest(w, key, s)
    ensures SawRequest(w', key, s)
  {
  }

  // ---------- what was read, and when ----------

  ghost predicate RequestThen(n: Names, trace: seq<Step>, key: Key, s: Stored<Promotion>) {
    var w := Execute(n, EMPTY, trace);
    key in w.requests && w.requests[key] == s
  }

  ghost predicate ReportThen(n: Names, trace: seq<Step>, key: Key, s: Stored<Report>) {
    var w := Execute(n, EMPTY, trace);
    key in w.reports && w.reports[key] == s
  }

  /** No report was there, or one that says it is about another model or version. */
  ghost predicate NoReportThen(n: Names, trace: seq<Step>, key: Key, p: Spec) {
    var w := Execute(n, EMPTY, trace);
    key in w.reports ==>
      var r := w.reports[key].value;
      || (r.model != "" && r.model != p.model)
      || (r.version != "" && p.version != "" && r.version != p.version)
  }

  /** From this many steps on, at some point of the run. */
  ghost predicate RequestSeen(n: Names, trace: seq<Step>, from: nat, key: Key, s: Stored<Promotion>) {
    exists m :: from <= m <= |trace| && RequestThen(n, trace[..m], key, s)
  }

  ghost predicate ReportSeen(n: Names, trace: seq<Step>, from: nat, key: Key, s: Stored<Report>) {
    exists m :: from <= m <= |trace| && ReportThen(n, trace[..m], key, s)
  }

  ghost predicate NoReportSeen(n: Names, trace: seq<Step>, from: nat, key: Key, p: Spec) {
    exists m :: from <= m <= |trace| && NoReportThen(n, trace[..m], key, p)
  }

  /**
   How the report was looked for: under the current name and then under the old one, passing over
   reports that say they are about something else.
   */
  ghost predicate LookedUp(
    n: Names, trace: seq<Step>, from: nat, namespace: string, p: Spec, found: Option<(Key, Stored<Report>)>)
  {
    var current, legacy := Key(namespace, n.current(p.model, p.version)), Key(namespace, n.legacy(p.model, p.version));
    match found
    case None => NoReportSeen(n, trace, from, current, p) && NoReportSeen(n, trace, from, legacy, p)
    case Some((key, s)) =>
      && ReportSeen(n, trace, from, key, s)
      && (s.value.model == "" || s.value.model == p.model)
      && (s.value.version == "" || p.version == "" || s.value.version == p.version)
      && (key == current || (key == legacy && NoReportSeen(n, trace, from, current, p)))
  }

  lemma StillSeen(n: Names, trace: seq<Step>, trace': seq<Step>, from: nat, key: Key, s: Stored<Promotion>)
    requires trace <= trace' && RequestSeen(n, trace, from, key, s)
    ensures RequestSeen(n, trace', from, key, s)
  {
    var m :| from <= m <= |trace| && RequestThen(n, trace[..m], key, s);
    assert trace'[..m] == trace[..m];
  }

  lemma StillNoReport(n: Names, trace: seq<Step>, trace': seq<Step>, from: nat, from': nat, key: Key, p: Spec)
    requires trace <= trace' && from' <= from && NoReportSeen(n, trace, from, key, p)
    ensures NoReportSeen(n, trace', from', key, p)
  {
    var m :| from <= m <= |trace| && NoReportThen(n, trace[..m], key, p);
    assert trace'[..m] == trace[..m];
  }

  lemma StillLookedUp(
    n: Names, trace: seq<Step>, trace': seq<Step>, from: nat, from': nat, namespace: string, p: Spec,
    found: Option<(Key, Stored<Report>)>)
    requires trace <= trace' && from' <= from && LookedUp(n, trace, from, namespace, p, found)
    ensures LookedUp(n, trace', from', namespace, p, found)
  {
    var current, legacy := Key(namespace, n.current(p.model, p.version)), Key(namespace, n.legacy(p.model, p.version));
    if NoReportSeen(n, trace, from, current, p) { StillNoReport(n, trace, trace', from, from', current, p); }
    if NoReportSeen(n, trace, from, legacy, p) { StillNoReport(n, trace, trace', from, from', legacy, p); }
    if found.Some? {
      var m :| from <= m <= |trace| && ReportThen(n, trace[..m], found.value.0, found.value.1);
      assert trace'[..m] == trace[..m];
    }
  }

  /** `statusUnchanged`. */
  predicate SameStatus(a: Status, b: Status) {
    && a.phase == b.phase && a.message == b.message && a.verdict == b.verdict
    && a.reviewedBy == b.reviewedBy && a.reviewTime == b.reviewTime && a.observed == b.observed
  }

  class Reconciler {
    const api: Cluster
    const recording: bool

    constructor (api: Cluster, recording: bool)
      ensures this.api == api && this.recording == recording
    {
      this.api, this.recording := api, recording;
    }

    /** `securityReport`: the first report under one of the names that is about this model. */
    method SecurityReport(request: Key, p: Spec) returns (r: Result<Option<(Key, Stored<Report>)>, ApiError>)
      requires api.Valid()
      modifies api
      ensures api.Valid() && old(api.trace) <= api.trace
      ensures api.Undisturbed(old(api.disturbed), old(api.trace), old(api.State()))
      ensures r.Ok? ==> LookedUp(api.names, api.trace, |old(api.trace)|, request.namespace, p, r.value)
      ensures r.Ok? && r.value.Some? ==>
                && SawReport(api.State(), r.value.value.0, r.value.value.1)
                && Found(api.names, request, p, r.value.value.0, r.value.value.1.value)
      ensures r.Err? ==> api.disturbed > old(api.disturbed)
    {
      ghost var from := |api.trace|;
      var names := ReportNames(api.names, p.model, p.version);
      var i := 0;
      while i < |names|
        invariant 0 <= i <= |names| && api.Valid() && old(api.trace) <= api.trace
        invariant api.Undisturbed(old(api.disturbed), old(api.trace), old(api.State()))
        invariant forall j :: 0 <= j < i ==>
                    NoReportSeen(api.names, api.trace, from, Key(request.namespace, names[j]), p)
      {
        ghost var before := api.trace;
        var settled;
        settled, r := LookUnder(request, names[i], p);
        forall j | 0 <= j < i ensures NoReportSeen(api.names, api.trace, from, Key(request.namespace, names[j]), p) {
          StillNoReport(api.names, before, api.trace, from, from, Key(request.namespace, names[j]), p);
        }
        if settled {
          if r.Ok? { StillLooked(before, api.trace, from, request, names, i, p, r.value.value); }
          return;
        }
        StillNoReport(api.names, api.trace, api.trace, |before|, from, Key(request.namespace, names[i]), p);
        i := i + 1;
      }
      assert NoReportSeen(api.names, api.trace, from, Key(request.namespace, names[0]), p);
      assert NoReportSeen(api.names, api.trace, from, Key(request.namespace, names[|names| - 1]), p);
      return Ok(None);
    }

    // What was found under one name, after nothing was under those before it.
    lemma StillLooked(
      before: seq<Step>, trace: seq<Step>, from: nat, request: Key, names: seq<string>, i: nat, p: Spec,
      found: (Key, Stored<Report>))
      requires names == ReportNames(api.names, p.model, p.version) && i < |names| && from <= |before|
      requires forall j :: 0 <= j < i ==> NoReportSeen(api.names, trace, from, Key(request.namespace, names[j]), p)
      requires found.0 == Key(request.namespace, names[i]) && ReportSeen(api.names, trace, |before|, found.0, found.1)
      requires About(found.1.value, p)
      ensures LookedUp(api.names, trace, from, request.namespace, p, Some(found))
    {
      var m :| |before| <= m <= |trace| && ReportThen(api.names, trace[..m], found.0, found.1);
      assert from <= m;
      assert i > 0 ==> NoReportSeen(api.names, trace, from, Key(request.namespace, names[0]), p);
    }

    // One turn of the loop: what is under this name settles it, or is passed over.
    method LookUnder(request: Key, name: string, p: Spec)
      returns (settled: bool, r: Result<Option<(Key, Stored<Report>)>, ApiError>)
      requires api.Valid() && name in ReportNames(api.names, p.model, p.version)
      modifies api
      ensures api.Valid() && old(api.trace) <= api.trace
      ensures api.Undisturbed(old(api.disturbed), old(api.trace), old(api.State()))
      ensures r.Err? ==> settled && api.disturbed > old(api.disturbed)
      ensures settled && r.Ok? ==>
                && r.value.Some? && r.value.value.0 == Key(request.namespace, name)
                && ReportSeen(api.names, api.trace, |old(api.trace)|, r.value.value.0, r.value.value.1)
                && SawReport(api.State(), r.value.value.0, r.value.value.1)
                && Found(api.names, request, p, r.value.value.0, r.value.value.1.value)
      ensures !settled ==> NoReportSeen(api.names, api.trace, |old(api.trace)|, Key(request.namespace, name), p)
    {
      api.OthersRun({});
      var key := Key(request.namespace, name);
      var got := api.GetReport(key);
      assert api.trace[..|api.trace|] == api.trace;
      if got.Err? && got.error != NotFound { return true, Err(got.error); }
      if got.Ok? {
        var report := got.value.value;
        if !(report.model != "" && report.model != p.model)
           && !(report.version != "" && p.version != "" && report.version != p.version) {
          ReadsReport(key);
          assert ReportThen(api.names, api.trace[..|api.trace|], key, got.value);
          return true, Ok(Some((key, got.value)));
        }
      }
      assert NoReportThen(api.names, api.trace[..|api.trace|], key, p);
      return false, Ok(None);
    }

    // A report that is there can be read.
    lemma ReadsReport(key: Key)
      requires api.Valid() && key in api.reports
      ensures SawReport(api.State(), key, api.reports[key])
    {
      api.Since(api.trace);
      assert ReportOk(api.State(), key, api.reports[key]);
    }

    /** `applyEnvironment`: add an environment to the set a report approves, and keep the set sorted. */
    method ApplyEnvironment(key: Key, held: Stored<Report>, ghost request: Key, ghost uid: nat, spec: Spec)
      returns (r: Result<(), ApiError>)
      requires api.Valid() && SawReport(api.State(), key, held)
      requires held.value.verdict == APPROVED && Found(api.names, request, spec, key, held.value)
      requires spec.decision == APPROVE && (request, uid, spec) in api.specs
      modifies api
      ensures api.Valid() && old(api.trace) <= api.trace
      ensures old(api.disturbed) <= api.disturbed
      ensures r.Err? ==> api.disturbed > old(api.disturbed) || !Current(old(api.reports), key, held.version)
      ensures api.disturbed == old(api.disturbed) ==> api.requests == old(api.requests)
      ensures r.Ok? ==> (key, spec.target) in api.promoted
    {
      var environments := held.value.environments;
      var i := 0;
      while i < |environments|
        invariant 0 <= i <= |environments|
        invariant forall j :: 0 <= j < i ==> environments[j] != spec.target
      {
        if environments[i] == spec.target { return Ok(()); }
        i := i + 1;
      }
      environments := environments + [spec.target];
      environments := Sort(environments);
      ghost var t := api.trace;
      api.OthersRun({});
      api.Since(t);
      r := api.UpdateReport(key, held.version, held.value.(environments := environments), request, uid, spec);
    }

    /** The request is this revision of it with the new status, written since, and nothing else new. */
    ghost predicate WrittenIn(w: World, key: Key, s: Stored<Promotion>, next: Status) {
      && key in w.requests && w.requests[key].uid == s.uid && w.requests[key].version > s.version
      && w.requests[key].value == s.value.(status := next)
    }

    /** What a reconcile without an error found, or left, at one point of its run. */
    ghost predicate Outcome(w: World, key: Key, seen: Option<Stored<Promotion>>, next: Status) {
      match seen
      case None => key !in w.requests
      case Some(s) => IsTerminal(s.value.status.phase) || s.value.status == next || WrittenIn(w, key, s, next)
    }

    /**
     `Reconcile`. Without an error, and at the point `at` of the run: the request was gone, was settled,
     already said `next`, or had just come to say it. And `next` is what has to be concluded from the
     request and the report as they were read, at points of this call: blocked if and only if there was no
     report, or none with an Approved verdict; rejected or approved if and only if there was one and a
     person had decided so; and pending if nobody had. An approval had its environment added to that
     report first. With recording on, the reconcile whose write of a decision landed makes the attempt to
     record it. It fails only if somebody else stepped in or a call failed.
     */
    method Reconcile(key: Key)
      returns (r: Result<(), ApiError>, ghost seen: Option<Stored<Promotion>>,
        ghost found: Option<(Key, Stored<Report>)>, ghost next: Status, ghost at: nat)
      requires api.Valid()
      modifies api
      ensures api.Valid() && old(api.trace) <= api.trace && old(api.disturbed) <= api.disturbed
      ensures r.Err? ==> api.disturbed > old(api.disturbed)
      ensures r.Ok? ==>
                && |old(api.trace)| <= at <= |api.trace|
                && Outcome(Execute(api.names, EMPTY, api.trace[..at]), key, seen, next)
      ensures seen.Some? ==> RequestSeen(api.names, api.trace, |old(api.trace)|, key, seen.value)
      ensures r.Ok? && seen.Some? && !IsTerminal(seen.value.value.status.phase) ==>
                var p := seen.value.value.spec;
                var permitted := found.Some? && found.value.1.value.verdict == APPROVED;
                && LookedUp(api.names, api.trace, |old(api.trace)|, key.namespace, p, found)
                && (next.phase == Blocked <==> !permitted)
                && (next.phase == Rejected <==> permitted && p.decision == REJECT)
                && (next.phase == Phase.Approved <==> permitted && p.decision == APPROVE)
                && (next.phase == Pending <==> permitted && p.decision != REJECT && p.decision != APPROVE)
                && Concludes(seen.value.value.status, p, Evaluated(found), next)
                && (next.phase == Phase.Approved ==> (found.value.0, p.target) in api.promoted)
                && (recording && IsTerminal(next.phase) ==> seen.value.uid in api.attempts)
    {
      seen, found, next := None, None, NO_STATUS;
      api.OthersRun({});
      var got := api.GetRequest(key);
      at := |api.trace|;
      assert api.trace[..at] == api.trace;
      if got == Err(NotFound) { return Ok(()), seen, found, next, at; }
      if got.Err? { return Err(got.error), seen, found, next, at; }
      var pr := got.value;
      seen := Some(pr);
      ghost var t := api.trace;
      assert RequestThen(api.names, t[..at], key, pr);
      if IsTerminal(pr.value.status.phase) { return Ok(()), seen, found, next, at; }
      ReadsRequest(key);
      r, found, next, at := Evaluate(key, pr);
      StillSeen(api.names, t, api.trace, |old(api.trace)|, key, pr);
      if r.Ok? {
        StillLookedUp(api.names, api.trace, api.trace, |t|, |old(api.trace)|, key.namespace, pr.value.spec, found);
      }
    }

    // `Reconcile` of a request that is not settled: look for the report, and act on it.
    method Evaluate(key: Key, pr: Stored<Promotion>)
      returns (r: Result<(), ApiError>, ghost found: Option<(Key, Stored<Report>)>, ghost next: Status,
        ghost at: nat)
      requires api.Valid() && SawRequest(api.State(), key, pr) && !IsTerminal(pr.value.status.phase)
      modifies api
      ensures api.Valid() && old(api.trace) <= api.trace && old(api.disturbed) <= api.disturbed
      ensures r.Err? ==> api.disturbed > old(api.disturbed) || !Current(old(api.requests), key, pr.version)
      ensures r.Ok? ==>
                && |old(api.trace)| <= at <= |api.trace|
                && Outcome(Execute(api.names, EMPTY, api.trace[..at]), key, Some(pr), next)
                && Concludes(pr.value.status, pr.value.spec, Evaluated(found), next)
                && LookedUp(api.names, api.trace, |old(api.trace)|, key.namespace, pr.value.spec, found)
                && (next.phase == Phase.Approved ==> (found.value.0, pr.value.spec.target) in api.promoted)
                && (recording && IsTerminal(next.phase) ==> pr.uid in api.attempts)
    {
      ghost var t := api.trace;
      found, next, at := None, NO_STATUS, 0;
      var report := SecurityReport(key, pr.value.spec);
      StillRead(t, key, pr);
      if report.Err? { return Err(report.error), found, next, at; }
      found := report.value;
      ghost var looked := api.trace;
      if api.disturbed == old(api.disturbed) && found.Some? { FoundNow(|t|, key, pr.value.spec, found.value); }
      r, next, at := Act(key, pr, report.value);
      StillLookedUp(api.names, looked, api.trace, |t|, |t|, key.namespace, pr.value.spec, found);
    }

    // A report that was found while nothing happened is there now.
    lemma FoundNow(from: nat, request: Key, p: Spec, found: (Key, Stored<Report>))
      requires api.Valid() && from == |api.trace|
      requires LookedUp(api.names, api.trace, from, request.namespace, p, Some(found))
      ensures Current(api.reports, found.0, found.1.version)
    {
      var m :| from <= m <= |api.trace| && ReportThen(api.names, api.trace[..m], found.0, found.1);
      assert api.trace[..m] == api.trace;
    }

    function Evaluated(found: Option<(Key, Stored<Report>)>): Option<Report> {
      if found.None? then None else Some(found.value.1.value)
    }

    // A request that is there can be read.
    lemma ReadsRequest(key: Key)
      requires api.Valid() && key in api.requests
      ensures SawRequest(api.State(), key, api.requests[key])
    {
      api.Since(api.trace);
      assert RequestOk(api.names, api.State(), key, api.requests[key]);
    }

    // What was read earlier is still a revision that was really stored.
    lemma StillRead(earlier: seq<Step>, key: Key, pr: Stored<Promotion>)
      requires api.Valid() && earlier <= api.trace && SawRequest(Execute(api.names, EMPTY, earlier), key, pr)
      ensures SawRequest(api.State(), key, pr)
      ensures var w := Execute(api.names, EMPTY, earlier); w.seen <= api.seen && w.promoted <= api.promoted
    {
      api.Since(earlier);
      StillSawRequest(api.names, Execute(api.names, EMPTY, earlier), api.State(), key, pr);
    }

    // `Reconcile` from its switch on: conclude, apply, write the status, record.
    method Act(key: Key, pr: Stored<Promotion>, found: Option<(Key, Stored<Report>)>)
      returns (r: Result<(), ApiError>, next: Status, ghost at: nat)
      requires api.Valid() && SawRequest(api.State(), key, pr) && !IsTerminal(pr.value.status.phase)
      requires found.Some? ==>
                 && SawReport(api.State(), found.value.0, found.value.1)
                 && Found(api.names, key, pr.value.spec, found.value.0, found.value.1.value)
      modifies api
      ensures api.Valid() && old(api.trace) <= api.trace && old(api.disturbed) <= api.disturbed
      ensures r.Err? ==>
                || api.disturbed > old(api.disturbed) || !Current(old(api.requests), key, pr.version)
                || (found.Some? && !Current(old(api.reports), found.value.0, found.value.1.version))
      ensures r.Ok? ==>
                && |old(api.trace)| <= at <= |api.trace|
                && Outcome(Execute(api.names, EMPTY, api.trace[..at]), key, Some(pr), next)
                && Concludes(pr.value.status, pr.value.spec, Evaluated(found), next)
                && (next.phase == Phase.Approved ==> (found.value.0, pr.value.spec.target) in api.promoted)
                && (recording && IsTerminal(next.phase) ==> pr.uid in api.attempts)
    {
      var p := pr.value.spec;
      ghost var t := api.trace;
      at := |api.trace|;
      assert api.trace[..at] == api.trace;
      next := Conclude(pr.value.status, p, Evaluated(found));
      if next.phase == Phase.Approved {
        var applied := ApplyEnvironment(found.value.0, found.value.1, key, pr.uid, p);
        StillRead(t, key, pr);
        if applied.Err? { return Err(applied.error), next, at; }
      }
      if SameStatus(pr.value.status, next) { return Ok(()), next, at; }
      r, at := WriteAndRecord(key, pr, if found.None? then key else found.value.0, Evaluated(found), next);
    }

    // The switch itself: what follows from the request and the report.
    method Conclude(was: Status, p: Spec, report: Option<Report>) returns (next: Status)
      ensures Concludes(was, p, report, next)
    {
      next := was;
      if report.None? {
        return next.(verdict := "", observed := None, phase := Blocked, message := NeverScanned(p.model, p.version));
      }
      var verdict := report.value.verdict;
      next := next.(verdict := verdict, observed := report.value.lastScan);
      if verdict != APPROVED {
        next := next.(phase := Blocked, message := VerdictForbids(p.model, p.version, verdict));
      } else if p.decision == REJECT {
        next := next.(phase := Rejected, reviewedBy := p.decidedBy, reviewTime := p.decidedAt,
          message := DeclinedBy(p.decidedBy, p.reason));
      } else if p.decision == APPROVE {
        next := next.(phase := Phase.Approved, reviewedBy := p.decidedBy, reviewTime := p.decidedAt,
          message := PromotedTo(p.target, p.decidedBy));
      } else {
        next := next.(phase := Pending, message := WaitingForAPerson(p.version, p.target));
      }
    }

    // The status update, and the one attempt to put a decision on record.
    method WriteAndRecord(key: Key, pr: Stored<Promotion>, reportKey: Key, report: Option<Report>, next: Status)
      returns (r: Result<(), ApiError>, ghost at: nat)
      requires api.Valid() && SawRequest(api.State(), key, pr) && !IsTerminal(pr.value.status.phase)
      requires Concludes(pr.value.status, pr.value.spec, report, next)
      requires report.Some? ==>
                 (reportKey, report.value) in api.seen && Found(api.names, key, pr.value.spec, reportKey, report.value)
      requires next.phase == Phase.Approved ==> (reportKey, pr.value.spec.target) in api.promoted
      modifies api
      ensures api.Valid() && old(api.trace) <= api.trace && old(api.disturbed) <= api.disturbed
      ensures old(api.promoted) <= api.promoted
      ensures r.Ok? ==>
                && |old(api.trace)| <= at <= |api.trace|
                && WrittenIn(Execute(api.names, EMPTY, api.trace[..at]), key, pr, next)
      ensures r.Ok? && IsTerminal(next.phase) && recording ==> pr.uid in api.attempts
      ensures r.Err? ==> api.disturbed > old(api.disturbed) || !Current(old(api.requests), key, pr.version)
    {
      ghost var t := api.trace;
      r := WriteStatus(key, pr, reportKey, report, next);
      ghost var written := api.trace;
      at := |written|;
      assert written[..at] == written;
      if r.Ok? && IsTerminal(next.phase) && recording { Record(pr.uid); }
      api.Since(t);
      assert api.trace[..at] == written;
    }

    method WriteStatus(
      key: Key, pr: Stored<Promotion>, ghost reportKey: Key, ghost report: Option<Report>, next: Status)
      returns (r: Result<(), ApiError>)
      requires api.Valid() && SawRequest(api.State(), key, pr) && !IsTerminal(pr.value.status.phase)
      requires Concludes(pr.value.status, pr.value.spec, report, next)
      requires report.Some? ==>
                 (reportKey, report.value) in api.seen && Found(api.names, key, pr.value.spec, reportKey, report.value)
      requires next.phase == Phase.Approved ==> (reportKey, pr.value.spec.target) in api.promoted
      modifies api
      ensures api.Valid() && old(api.trace) <= api.trace && old(api.disturbed) <= api.disturbed
      ensures r.Ok? ==> WrittenIn(api.State(), key, pr, next)
      ensures r.Ok? && IsTerminal(next.phase) ==> pr.uid in api.owed
      ensures r.Err? ==> api.disturbed > old(api.disturbed) || !Current(old(api.requests), key, pr.version)
    {
      ghost var t := api.trace;
      api.OthersRun({});
      StillRead(t, key, pr);
      NextStatusIff(pr.value.status, pr.value.spec, report, next);
      r := api.UpdateStatus(key, pr.version, next, reportKey, report);
    }

    // `record`, by the process whose write landed; others run before it gets there.
    method Record(uid: nat)
      requires api.Valid() && uid in api.owed
      modifies api
      ensures api.Valid() && old(api.trace) <= api.trace && old(api.disturbed) <= api.disturbed
      ensures uid in api.attempts
    {
      api.OthersRun({uid});
      api.Perform(RecordDecision(uid));
    }
  }
}
