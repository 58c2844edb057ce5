/**
 Promotion as one state machine: people submit requests through the signer, scans
 conclude on reports, and the controller (internal/controller/promotion_controller.go) acts on a
 signed decision and writes where an approved version may run. Every write but a user's is
 conditional on the revision that was read, so what the writer saw may be stale but what it
 overwrites is not.
 */
module Promotions {
  import opened Wrappers
  import opened Text
  import opened Signing
  import opened Gating

  datatype Phase = Unset | Pending | Approved | Rejected | Blocked

  datatype Message =
    | NoMessage
    | NeverScanned(model: string, version: string)
    | VerdictForbids(model: string, version: string, verdict: string)
    | DeclinedBy(decider: string, reason: string)
    | PromotedTo(environment: string, decider: string)
    | WaitingForAPerson(version: string, environment: string)

  datatype Status = Status(
    phase: Phase, verdict: string, observed: Option<Instant>,
    reviewedBy: string, reviewTime: Option<Instant>, message: Message)

  const NO_STATUS: Status := Status(Unset, "", None, "", None, NoMessage)

  datatype Promotion = Promotion(spec: Spec, status: Status)

  /** An object as the API server holds it. `uid` is one incarnation's; `version` is one write's. */
  datatype Stored<T> = Stored(value: T, version: nat, uid: nat)

  predicate IsTerminal(p: Phase) {
    p == Approved || p == Rejected
  }

  /** What a reconcile concludes from a request and the report it found, if any. */
  function NextStatus(status: Status, p: Spec, report: Option<Report>): Status {
    var seen := status.(
                verdict := if report.None? then "" else report.value.verdict,
                observed := if report.None? then None else report.value.lastScan);
    if report.None? then seen.(phase := Blocked, message := NeverScanned(p.model, p.version))
    else if report.value.verdict != APPROVED then
      seen.(phase := Blocked, message := VerdictForbids(p.model, p.version, report.value.verdict))
    else if p.decision == REJECT then
      seen.(phase := Rejected, reviewedBy := p.decidedBy, reviewTime := p.decidedAt,
      message := DeclinedBy(p.decidedBy, p.reason))
    else if p.decision == APPROVE then
      seen.(phase := Approved, reviewedBy := p.decidedBy, reviewTime := p.decidedAt,
      message := PromotedTo(p.target, p.decidedBy))
    else seen.(phase := Pending, message := WaitingForAPerson(p.version, p.target))
  }

  /**
   What a reconcile has to conclude, field by field: blocked without an Approved verdict, whatever
   anybody decided; and with one, what a person decided, or that one has yet to. Only a decision changes
   who reviewed the request and when.
   */
  predicate Concludes(was: Status, p: Spec, report: Option<Report>, next: Status) {
    var permitted := report.Some? && report.value.verdict == APPROVED;
    && (next.phase == Blocked <==> !permitted)
    && (next.phase == Rejected <==> permitted && p.decision == REJECT)
    && (next.phase == Approved <==> permitted && p.decision == APPROVE)
    && (next.phase == Pending <==> permitted && p.decision != REJECT && p.decision != APPROVE)
    && next.verdict == (if report.Some? then report.value.verdict else "")
    && next.observed == (if report.Some? then report.value.lastScan else None)
    && next.reviewedBy == (if IsTerminal(next.phase) then p.decidedBy else was.reviewedBy)
    && next.reviewTime == (if IsTerminal(next.phase) then p.decidedAt else was.reviewTime)
    && Explains(p, report, next)
  }

  /** The message gives the reason for the phase. */
  predicate Explains(p: Spec, report: Option<Report>, next: Status) {
    match next.phase
    case Unset => false
    case Blocked =>
      next.message == if report.None? then NeverScanned(p.model, p.version)
                      else VerdictForbids(p.model, p.version, report.value.verdict)
    case Rejected => next.message == DeclinedBy(p.decidedBy, p.reason)
    case Approved => next.message == PromotedTo(p.target, p.decidedBy)
    case Pending => next.message == WaitingForAPerson(p.version, p.target)
  }

  /** There is exactly one such status, and it is the one computed. */
  lemma NextStatusIff(was: Status, p: Spec, report: Option<Report>, next: Status)
    ensures Concludes(was, p, report, next) <==> next == NextStatus(was, p, report)
  {
  }

  /**
   The names of the report about a model version: the one that scans write under now, and the one that
   they wrote under before names had a fingerprint.
   */
  datatype Names = Names(current: (string, string) -> string, legacy: (string, string) -> string)

  /** `ModelReportNames`: where to look, the current name first. */
  function ReportNames(n: Names, model: string, version: string): seq<string> {
    var current, legacy := n.current(model, version), n.legacy(model, version);
    if legacy == current then [current] else [current, legacy]
  }

  /** Where a reconcile of this request looks for the report. */
  predicate LooksAt(n: Names, request: Key, p: Spec, reportKey: Key) {
    reportKey.namespace == request.namespace && reportKey.name in ReportNames(n, p.model, p.version)
  }

  /** The report is about the model the request names. */
  predicate About(r: Report, p: Spec) {
    && (r.model == "" || r.model == p.model)
    && (r.version == "" || p.version == "" || r.version == p.version)
  }

  /** A reconcile of this request takes this report for the one about its model. */
  predicate Found(n: Names, request: Key, p: Spec, reportKey: Key, r: Report) {
    LooksAt(n, request, p, reportKey) && About(r, p)
  }

  /**
   requests, reports   the objects
   revision            how many writes there have been
   specs               every request specification ever stored, with the object it was stored in
   seen                every report revision ever stored
   promoted            every (report, environment) pair the controller ever added
   owed                requests whose decision landed and was not yet put on record
   attempts            requests whose decision somebody tried to put on record, in order
   */
  datatype World = World(
    requests: map<Key, Stored<Promotion>>,
    reports: map<Key, Stored<Report>>,
    revision: nat,
    specs: set<(Key, nat, Spec)>,
    seen: set<(Key, Report)>,
    promoted: set<(Key, string)>,
    owed: set<nat>,
    attempts: seq<nat>)

  const EMPTY: World := World(map[], map[], 0, {}, {}, {}, {}, [])

  datatype Step =
      // a user creates, updates or deletes a request
    | Submit(key: Key, operation: Operation, edit: Edit)
      // a reconcile that read revision `version` of a request, and the report it found
    | WriteStatus(key: Key, version: nat, reportKey: Key, report: Option<Report>)
      // a reconcile that read revision `version` of a report, for this state of a request
    | AddEnvironment(reportKey: Key, version: nat, request: Key, uid: nat, spec: Spec)
    | RecordDecision(uid: nat)
      // a scan writes who a report is about, and then what it concludes
    | Describe(reportKey: Key, model: string, modelVersion: string, digest: string)
    | Conclude(reportKey: Key, version: nat, verdict: string, at: Instant)
    | RemoveReport(reportKey: Key)
      // somebody else leaves a report, about anything and under any name: an older operator, say
    | LeaveReport(reportKey: Key, left: Report)

  /** The object is still the revision that was read. */
  predicate Current<T>(objects: map<Key, Stored<T>>, key: Key, version: nat) {
    key in objects && objects[key].version == version
  }

  /** The report says which model version it is about. */
  predicate Identified(r: Report) {
    r.model != "" && r.version != ""
  }

  /** It says so under the current name of that model version, as scans write it. */
  predicate WrittenUnder(n: Names, key: Key, r: Report) {
    Identified(r) && key.name == n.current(r.model, r.version)
  }

  /** What a caller knows when it makes the call. */
  predicate Enabled(n: Names, w: World, s: Step) {
    match s
    case WriteStatus(key, version, reportKey, report) =>
      Current(w.requests, key, version) ==>
        var p := w.requests[key].value;
        && !IsTerminal(p.status.phase)
        && (report.Some? ==> (reportKey, report.value) in w.seen && Found(n, key, p.spec, reportKey, report.value))
        && (NextStatus(p.status, p.spec, report).phase == Approved ==> (reportKey, p.spec.target) in w.promoted)
    case AddEnvironment(reportKey, version, request, uid, spec) =>
      && (request, uid, spec) in w.specs && spec.decision == APPROVE && LooksAt(n, request, spec, reportKey)
      && (Current(w.reports, reportKey, version) ==>
          && w.reports[reportKey].value.verdict == APPROVED
          && About(w.reports[reportKey].value, spec)
          && spec.target !in w.reports[reportKey].value.environments)
    case RecordDecision(uid) => uid in w.owed
    case Describe(reportKey, model, modelVersion, _) =>
      model != "" && modelVersion != "" && reportKey.name == n.current(model, modelVersion)
    case LeaveReport(reportKey, left) => reportKey !in w.reports && left.environments == []
    case _ => true
  }

  function PutRequest(w: World, key: Key, value: Promotion, uid: nat): World {
    w.(requests := w.requests[key := Stored(value, w.revision + 1, uid)],
    revision := w.revision + 1, specs := w.specs + {(key, uid, value.spec)})
  }

  function PutReport(w: World, key: Key, value: Report, uid: nat): World {
    w.(reports := w.reports[key := Stored(value, w.revision + 1, uid)], revision := w.revision + 1,
    seen := w.seen + {(key, value)})
  }

  /** A creation whose admitted form, if it was admitted, is this. */
  function AfterCreation(w: World, key: Key, landed: Option<Spec>): World {
    if key in w.requests || landed.None? then w
    else PutRequest(w, key, Promotion(landed.value, NO_STATUS), w.revision + 1)
  }

  function AfterUpdate(w: World, key: Key, landed: Option<Spec>): World {
    if key !in w.requests || landed.None? then w
    else PutRequest(w, key, w.requests[key].value.(spec := landed.value), w.requests[key].uid)
  }

  /** What an edit of this request comes to, if it is let through. */
  function LandedUpdate(stored: Spec, e: Edit): Option<Spec> {
    Lands(e.payload, Sign(Submitted(stored, e)))
  }

  function LandedCreation(e: Edit): Option<Spec> {
    Lands(e.payload, Sign(Submission(Create, e.payload, Absent, e.user, e.now)))
  }

  function AfterSubmit(w: World, key: Key, operation: Operation, e: Edit): World {
    match operation
    case Delete => w.(requests := w.requests - {key})
    case Create => AfterCreation(w, key, LandedCreation(e))
    case Update =>
      if key !in w.requests then w
      else AfterUpdate(w, key, LandedUpdate(w.requests[key].value.spec, e))
    case Connect => w
  }

  function AfterStatus(w: World, key: Key, version: nat, report: Option<Report>): World {
    if !Current(w.requests, key, version) then w
    else
      var held := w.requests[key];
      var next := NextStatus(held.value.status, held.value.spec, report);
      var w' := PutRequest(w, key, held.value.(status := next), held.uid);
      if IsTerminal(next.phase) then w'.(owed := w.owed + {held.uid}) else w'
  }

  function AfterEnvironment(w: World, key: Key, version: nat, target: string): World {
    if !Current(w.reports, key, version) then w
    else
      var held := w.reports[key];
      PutReport(w, key, held.value.(environments := Sort(held.value.environments + [target])), held.uid)
      .(promoted := w.promoted + {(key, target)})
  }

  function AfterDescribe(w: World, key: Key, model: string, version: string, digest: string): World {
    if key !in w.reports then PutReport(w, key, Report(model, version, digest, "", None, []), w.revision + 1)
    else PutReport(w, key, w.reports[key].value.(model := model, version := version, digest := digest),
      w.reports[key].uid)
  }

  function AfterConclusion(w: World, key: Key, version: nat, verdict: string, at: Instant): World {
    if !Current(w.reports, key, version) then w
    else PutReport(w, key, w.reports[key].value.(verdict := verdict, lastScan := Some(at)), w.reports[key].uid)
  }

  function Effect(w: World, s: Step): World {
    match s
    case Submit(key, operation, e) => AfterSubmit(w, key, operation, e)
    case WriteStatus(key, version, _, report) => AfterStatus(w, key, version, report)
    case AddEnvironment(key, version, _, _, spec) => AfterEnvironment(w, key, version, spec.target)
    case RecordDecision(uid) => w.(owed := w.owed - {uid}, attempts := w.attempts + [uid])
    case Describe(key, model, version, digest) => AfterDescribe(w, key, model, version, digest)
    case Conclude(key, version, verdict, at) => AfterConclusion(w, key, version, verdict, at)
    case RemoveReport(key) => w.(reports := w.reports - {key})
    case LeaveReport(key, left) => PutReport(w, key, left, w.revision + 1)
  }

  function Apply(n: Names, w: World, s: Step): World {
    if Enabled(n, w, s) then Effect(w, s) else w
  }

  function Execute(n: Names, w: World, trace: seq<Step>): World
    decreases |trace|, 1
  {
    if |trace| == 0 then w else ExecuteLast(n, w, trace)
  }

  function ExecuteLast(n: Names, w: World, trace: seq<Step>): World
    requires |trace| > 0
    decreases |trace|, 0
  {
    Apply(n, Execute(n, w, trace[..|trace| - 1]), trace[|trace| - 1])
  }

  // ---------- the invariant ----------

  /**
   A stored report, found for the model that this request named when it was decided, had an Approved
   verdict. The request may name another model since: a signature does not freeze it.
   */
  ghost predicate EvaluatedOn(n: Names, w: World, key: Key, uid: nat, p: Spec, k: Key, r: Report, q: Spec) {
    && (key, uid, q) in w.specs && SameSignature(q, p)
    && (k, r) in w.seen && Found(n, key, q, k, r) && r.verdict == APPROVED
  }

  ghost predicate DecidedFairly(n: Names, w: World, key: Key, uid: nat, p: Spec, t: Status) {
    && t.verdict == APPROVED && t.reviewedBy == p.decidedBy
    && exists k, r, q ::
         EvaluatedOn(n, w, key, uid, p, k, r, q) && (t.phase == Approved ==> (k, p.target) in w.promoted)
  }

  ghost predicate RequestOk(n: Names, w: World, key: Key, s: Stored<Promotion>) {
    var p, t := s.value.spec, s.value.status;
    && s.uid <= s.version <= w.revision && WellSigned(p) && (key, s.uid, p) in w.specs
    && (IsTerminal(t.phase) ==>
        && p.decision == (if t.phase == Approved then APPROVE else REJECT)
        && DecidedFairly(n, w, key, s.uid, p, t))
    && (s.uid in w.owed || s.uid in w.attempts ==> IsTerminal(t.phase))
  }

  ghost predicate ReportOk(w: World, key: Key, s: Stored<Report>) {
    && s.uid <= s.version <= w.revision && StrictlySorted(s.value.environments)
    && (key, s.value) in w.seen
    && forall e :: e in s.value.environments ==> (key, e) in w.promoted
  }

  ghost predicate RecordsOk(w: World) {
    && Distinct(w.attempts)
    && (forall u :: u in w.owed ==> u <= w.revision && u !in w.attempts)
    && (forall u :: u in w.attempts ==> u <= w.revision)
  }

  /** No two requests share an incarnation. */
  ghost predicate OwnUids(w: World) {
    forall j, k :: j in w.requests && k in w.requests && w.requests[j].uid == w.requests[k].uid ==> j == k
  }

  ghost predicate Good(n: Names, w: World) {
    && OwnUids(w)
    && (forall key :: key in w.requests ==> RequestOk(n, w, key, w.requests[key]))
    && (forall key :: key in w.reports ==> ReportOk(w, key, w.reports[key]))
    && RecordsOk(w)
  }

  lemma SortedWithOneMore(s: seq<string>, x: string)
    requires StrictlySorted(s) && x !in s
    ensures StrictlySorted(Sort(s + [x]))
    ensures forall y :: y in Sort(s + [x]) <==> y in s || y == x
  {
    StrictIsDistinct(s);
    SortSorts(s + [x]);
    forall y ensures y in Sort(s + [x]) <==> y in s || y == x { SortMembers(s + [x], y); }
  }

  /** More has been written, submitted and promoted; and the same is owed and on record. */
  ghost predicate Grown(w: World, w': World) {
    && w.revision <= w'.revision && w.specs <= w'.specs && w.seen <= w'.seen && w.promoted <= w'.promoted
    && w'.owed == w.owed && w'.attempts == w.attempts
  }

  lemma FairlyStays(n: Names, w: World, w': World, key: Key, uid: nat, p: Spec, t: Status)
    requires DecidedFairly(n, w, key, uid, p, t)
    requires w.specs <= w'.specs && w.seen <= w'.seen && w.promoted <= w'.promoted
    ensures DecidedFairly(n, w', key, uid, p, t)
  {
    var k, r, q :| EvaluatedOn(n, w, key, uid, p, k, r, q) && (t.phase == Approved ==> (k, p.target) in w.promoted);
    assert EvaluatedOn(n, w', key, uid, p, k, r, q);
  }

  lemma RequestStays(n: Names, w: World, w': World, key: Key, s: Stored<Promotion>)
    requires RequestOk(n, w, key, s) && Grown(w, w')
    ensures RequestOk(n, w', key, s)
  {
    if IsTerminal(s.value.status.phase) { FairlyStays(n, w, w', key, s.uid, s.value.spec, s.value.status); }
  }

  lemma ReportStays(w: World, w': World, key: Key, s: Stored<Report>)
    requires ReportOk(w, key, s)
    requires w.revision <= w'.revision && w.promoted <= w'.promoted && w.seen <= w'.seen
    ensures ReportOk(w', key, s)
  {
  }

  // Every request but one is as it was.
  ghost predicate OthersKept(w: World, w': World, key: Key) {
    && w'.requests.Keys <= w.requests.Keys + {key}
    && forall k :: k in w'.requests && k != key ==> w'.requests[k] == w.requests[k]
  }

  lemma OthersStay(n: Names, w: World, w': World, key: Key)
    requires Good(n, w) && Grown(w, w') && OthersKept(w, w', key)
    ensures forall k :: k in w'.requests && k != key ==>
              RequestOk(n, w', k, w'.requests[k]) && w'.requests[k].uid <= w.revision
  {
    forall k | k in w'.requests && k != key
      ensures RequestOk(n, w', k, w'.requests[k]) && w'.requests[k].uid <= w.revision
    {
      assert RequestOk(n, w, k, w.requests[k]);
      RequestStays(n, w, w', k, w.requests[k]);
    }
  }

  lemma UidsStayOwn(w: World, w': World, key: Key)
    requires OwnUids(w) && OthersKept(w, w', key)
    requires forall k :: k in w'.requests && k != key ==> w'.requests[k].uid <= w.revision
    requires key in w'.requests ==>
               w'.requests[key].uid == if key in w.requests then w.requests[key].uid else w.revision + 1
    ensures OwnUids(w')
  {
  }

  lemma ReportsStay(n: Names, w: World, w': World)
    requires Good(n, w) && Grown(w, w') && w'.reports == w.reports
    ensures forall k :: k in w'.reports ==> ReportOk(w', k, w'.reports[k])
  {
    forall k | k in w'.reports ensures ReportOk(w', k, w'.reports[k]) { ReportStays(w, w', k, w.reports[k]); }
  }

  // A world in which one request was written, or none.
  lemma OneRequestWritten(n: Names, w: World, w': World, key: Key)
    requires Good(n, w) && Grown(w, w') && w'.reports == w.reports && OthersKept(w, w', key)
    requires key in w'.requests ==>
               && RequestOk(n, w', key, w'.requests[key])
               && w'.requests[key].uid == if key in w.requests then w.requests[key].uid else w.revision + 1
    ensures Good(n, w')
  {
    OthersStay(n, w, w', key);
    UidsStayOwn(w, w', key);
    ReportsStay(n, w, w');
  }

  lemma RequestsStay(n: Names, w: World, w': World)
    requires Good(n, w) && Grown(w, w') && w'.requests == w.requests
    ensures forall k :: k in w'.requests ==> RequestOk(n, w', k, w'.requests[k])
  {
    forall k | k in w'.requests ensures RequestOk(n, w', k, w'.requests[k]) {
      RequestStays(n, w, w', k, w.requests[k]);
    }
  }

  // A world in which one report was written, or none.
  lemma OneReportWritten(n: Names, w: World, w': World, key: Key)
    requires Good(n, w) && Grown(w, w') && w'.requests == w.requests
    requires w'.reports.Keys <= w.reports.Keys + {key}
    requires forall k :: k in w'.reports && k != key ==> w'.reports[k] == w.reports[k]
    requires key in w'.reports ==> ReportOk(w', key, w'.reports[key])
    ensures Good(n, w')
  {
    RequestsStay(n, w, w');
    forall k | k in w'.reports && k != key ensures ReportOk(w', k, w'.reports[k]) {
      ReportStays(w, w', k, w.reports[k]);
    }
  }

  lemma CreatedOk(n: Names, w: World, key: Key, spec: Spec)
    requires Good(n, w) && key !in w.requests && WellSigned(spec)
    ensures Good(n, PutRequest(w, key, Promotion(spec, NO_STATUS), w.revision + 1))
  {
    OneRequestWritten(n, w, PutRequest(w, key, Promotion(spec, NO_STATUS), w.revision + 1), key);
  }

  // A decision that was fair for a request is fair for what an update makes of it.
  lemma FairlyUpdated(n: Names, w: World, w': World, key: Key, uid: nat, p: Spec, spec: Spec, t: Status)
    requires DecidedFairly(n, w, key, uid, p, t) && SameSignature(p, spec) && Grown(w, w')
    ensures DecidedFairly(n, w', key, uid, spec, t)
  {
    var k, r, q :| EvaluatedOn(n, w, key, uid, p, k, r, q) && (t.phase == Approved ==> (k, p.target) in w.promoted);
    assert EvaluatedOn(n, w', key, uid, spec, k, r, q);
  }

  lemma UpdatedOk(n: Names, w: World, key: Key, spec: Spec)
    requires Good(n, w) && key in w.requests && WellSigned(spec)
    requires w.requests[key].value.spec.decision != "" ==> SameSignature(w.requests[key].value.spec, spec)
    ensures Good(n, PutRequest(w, key, w.requests[key].value.(spec := spec), w.requests[key].uid))
  {
    var held := w.requests[key];
    var w' := PutRequest(w, key, held.value.(spec := spec), held.uid);
    assert RequestOk(n, w, key, held);
    if IsTerminal(held.value.status.phase) {
      FairlyUpdated(n, w, w', key, held.uid, held.value.spec, spec, held.value.status);
    }
    OneRequestWritten(n, w, w', key);
  }

  lemma CreateKeepsGood(n: Names, w: World, key: Key, landed: Option<Spec>)
    requires Good(n, w) && (landed.Some? ==> WellSigned(landed.value))
    ensures Good(n, AfterCreation(w, key, landed))
  {
    if key !in w.requests && landed.Some? {
      CreatedOk(n, w, key, landed.value);
      assert AfterCreation(w, key, landed) == PutRequest(w, key, Promotion(landed.value, NO_STATUS), w.revision + 1);
    } else {
      assert AfterCreation(w, key, landed) == w;
    }
  }

  // Whatever lands in a stored request keeps its signature, if it had one.
  lemma SignatureStands(stored: Spec, e: Edit)
    requires LandedUpdate(stored, e).Some?
    ensures var spec := LandedUpdate(stored, e).value;
            && WellSigned(spec) && spec.requestor == stored.requestor
            && (stored.decision != "" ==> SameSignature(stored, spec))
            && (stored.decision == "" && spec.decision != "" ==> Signs(e, spec))
            && e.payload.Decoded? && e.payload.spec.model == spec.model && e.payload.spec.version == spec.version
  {
  }

  // Whatever is created names its creator, who signs for any decision in it.
  lemma CreatorSigns(e: Edit)
    requires LandedCreation(e).Some?
    ensures var spec := LandedCreation(e).value;
            && WellSigned(spec) && spec.requestor == e.user.name
            && (spec.decision != "" ==> Signs(e, spec))
            && e.payload.Decoded? && e.payload.spec.model == spec.model && e.payload.spec.version == spec.version
  {
  }

  lemma UpdateKeepsGood(n: Names, w: World, key: Key, e: Edit)
    requires Good(n, w) && key in w.requests
    ensures Good(n, AfterUpdate(w, key, LandedUpdate(w.requests[key].value.spec, e)))
  {
    if LandedUpdate(w.requests[key].value.spec, e).Some? {
      SignatureStands(w.requests[key].value.spec, e);
      UpdatedOk(n, w, key, LandedUpdate(w.requests[key].value.spec, e).value);
    }
  }

  lemma RemoveKeepsGood(n: Names, w: World, key: Key)
    requires Good(n, w)
    ensures Good(n, w.(requests := w.requests - {key}))
  {
    OneRequestWritten(n, w, w.(requests := w.requests - {key}), key);
  }

  lemma SubmitKeepsGood(n: Names, w: World, key: Key, operation: Operation, e: Edit)
    requires Good(n, w)
    ensures Good(n, AfterSubmit(w, key, operation, e))
  {
    match operation
    case Create =>
      if LandedCreation(e).Some? { CreatorSigns(e); }
      CreateKeepsGood(n, w, key, LandedCreation(e));
    case Update => if key in w.requests { UpdateKeepsGood(n, w, key, e); }
    case Delete => RemoveKeepsGood(n, w, key);
    case Connect =>
  }

  // What the controller read is why its decision is fair.
  lemma NextIsFair(
    n: Names, w: World, w': World, key: Key, s: Stored<Promotion>, reportKey: Key, report: Option<Report>)
    requires RequestOk(n, w, key, s) && Grown(w, w')
    requires report.Some? ==>
               (reportKey, report.value) in w.seen && Found(n, key, s.value.spec, reportKey, report.value)
    requires var next := NextStatus(s.value.status, s.value.spec, report);
             next.phase == Approved ==> (reportKey, s.value.spec.target) in w.promoted
    ensures var next := NextStatus(s.value.status, s.value.spec, report);
            IsTerminal(next.phase) ==> DecidedFairly(n, w', key, s.uid, s.value.spec, next)
  {
    var p := s.value.spec;
    if IsTerminal(NextStatus(s.value.status, p, report).phase) {
      assert EvaluatedOn(n, w', key, s.uid, p, reportKey, report.value, p);
    }
  }

  // A status written over a request nobody has decided on record.
  lemma StatusOk(n: Names, w: World, key: Key, version: nat, reportKey: Key, report: Option<Report>, next: Status)
    requires Good(n, w) && key in w.requests && w.requests[key].version == version
    requires Enabled(n, w, WriteStatus(key, version, reportKey, report))
    requires next == NextStatus(w.requests[key].value.status, w.requests[key].value.spec, report)
    ensures Good(n, PutRequest(w, key, w.requests[key].value.(status := next), w.requests[key].uid))
    ensures w.requests[key].uid !in w.attempts
  {
    var held := w.requests[key];
    var w' := PutRequest(w, key, held.value.(status := next), held.uid);
    assert RequestOk(n, w, key, held);
    NextIsFair(n, w, w', key, held, reportKey, report);
    OneRequestWritten(n, w, w', key);
  }

  // A decision that has landed is owed a record.
  lemma OwedOk(n: Names, w: World, key: Key)
    requires Good(n, w) && key in w.requests && IsTerminal(w.requests[key].value.status.phase)
    requires w.requests[key].uid !in w.attempts
    ensures Good(n, w.(owed := w.owed + {w.requests[key].uid}))
  {
    var w' := w.(owed := w.owed + {w.requests[key].uid});
    assert RequestOk(n, w, key, w.requests[key]);
    forall k | k in w'.requests ensures RequestOk(n, w', k, w'.requests[k]) {
      assert RequestOk(n, w, k, w.requests[k]);
      SameFairness(n, w, w', k, w.requests[k]);
    }
    forall k | k in w'.reports ensures ReportOk(w', k, w'.reports[k]) { ReportStays(w, w', k, w.reports[k]); }
  }

  // What is owed and on record has no bearing on whether a decision was fair.
  lemma SameFairness(n: Names, w: World, w': World, key: Key, s: Stored<Promotion>)
    requires RequestOk(n, w, key, s) && w'.specs == w.specs && w'.seen == w.seen && w'.promoted == w.promoted
    ensures IsTerminal(s.value.status.phase) ==> DecidedFairly(n, w', key, s.uid, s.value.spec, s.value.status)
  {
    if IsTerminal(s.value.status.phase) { FairlyStays(n, w, w', key, s.uid, s.value.spec, s.value.status); }
  }

  lemma StatusKeepsGood(n: Names, w: World, key: Key, version: nat, reportKey: Key, report: Option<Report>)
    requires Good(n, w) && Enabled(n, w, WriteStatus(key, version, reportKey, report))
    ensures Good(n, AfterStatus(w, key, version, report))
  {
    if Current(w.requests, key, version) {
      var held := w.requests[key];
      var next := NextStatus(held.value.status, held.value.spec, report);
      StatusOk(n, w, key, version, reportKey, report, next);
      var w' := PutRequest(w, key, held.value.(status := next), held.uid);
      if IsTerminal(next.phase) { OwedOk(n, w', key); }
    }
  }

  lemma EnvironmentKeepsGood(n: Names, w: World, s: Step)
    requires Good(n, w) && s.AddEnvironment? && Enabled(n, w, s)
    ensures Good(n, AfterEnvironment(w, s.reportKey, s.version, s.spec.target))
  {
    if Current(w.reports, s.reportKey, s.version) {
      assert ReportOk(w, s.reportKey, w.reports[s.reportKey]);
      SortedWithOneMore(w.reports[s.reportKey].value.environments, s.spec.target);
      OneReportWritten(n, w, AfterEnvironment(w, s.reportKey, s.version, s.spec.target), s.reportKey);
    }
  }

  lemma ReportWriteKeepsGood(n: Names, w: World, s: Step)
    requires Good(n, w) && Enabled(n, w, s) && (s.Describe? || s.Conclude? || s.RemoveReport? || s.LeaveReport?)
    ensures Good(n, Effect(w, s))
  {
    if s.reportKey in w.reports { assert ReportOk(w, s.reportKey, w.reports[s.reportKey]); }
    OneReportWritten(n, w, Effect(w, s), s.reportKey);
  }

  lemma StepKeepsGood(n: Names, w: World, s: Step)
    requires Good(n, w)
    ensures Good(n, Apply(n, w, s))
  {
    if Enabled(n, w, s) {
      match s
      case Submit(key, operation, e) => SubmitKeepsGood(n, w, key, operation, e);
      case WriteStatus(key, version, reportKey, report) => StatusKeepsGood(n, w, key, version, reportKey, report);
      case AddEnvironment(_, _, _, _, _) => EnvironmentKeepsGood(n, w, s);
      case RecordDecision(uid) => RecordKeepsGood(n, w, uid);
      case _ => ReportWriteKeepsGood(n, w, s);
    }
  }

  lemma RecordKeepsGood(n: Names, w: World, uid: nat)
    requires Good(n, w) && uid in w.owed
    ensures Good(n, w.(owed := w.owed - {uid}, attempts := w.attempts + [uid]))
  {
    var w' := w.(owed := w.owed - {uid}, attempts := w.attempts + [uid]);
    forall k | k in w'.requests ensures RequestOk(n, w', k, w'.requests[k]) {
      assert RequestOk(n, w, k, w.requests[k]);
      SameFairness(n, w, w', k, w.requests[k]);
    }
    forall k | k in w'.reports ensures ReportOk(w', k, w'.reports[k]) { ReportStays(w, w', k, w.reports[k]); }
  }

  lemma {:induction false} RunsAreGood(n: Names, trace: seq<Step>)
    ensures Good(n, Execute(n, EMPTY, trace))
  {
    if |trace| > 0 {
      var last := |trace| - 1;
      RunsAreGood(n, trace[..last]);
      StepKeepsGood(n, Execute(n, EMPTY, trace[..last]), trace[last]);
    }
  }
}
