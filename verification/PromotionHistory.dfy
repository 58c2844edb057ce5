/**
 What every run of the promotion state machine keeps, and what an admission says about the past:
 somebody signed for this environment while the verdict was Approved.
 */
module PromotionHistory {
  import opened Wrappers
  import opened Text
  import opened Signing
  import opened Gating
  import opened Promotions

  // ---------- what never goes back ----------

  /** A decided request keeps its signature, everyone keeps their requestor, a verdict on it stands. */
  predicate Later(p: Promotion, q: Promotion) {
    && (p.spec.decision != "" ==> SameSignature(p.spec, q.spec))
    && p.spec.requestor == q.spec.requestor
    && (IsTerminal(p.status.phase) ==> q.status == p.status)
  }

  predicate KeepsEnvironments(r: Report, s: Report) {
    forall e :: e in r.environments ==> e in s.environments
  }

  /** A report keeps who it is about, until a scan that writes under its name says who that is. */
  ghost predicate KeepsIdentity(n: Names, key: Key, r: Report, s: Report) {
    (s.model == r.model && s.version == r.version) || WrittenUnder(n, key, s)
  }

  ghost predicate RequestsEvolve(w: World, w': World) {
    forall k :: k in w'.requests ==>
      && (w'.requests[k].version <= w.revision ==> k in w.requests && w'.requests[k] == w.requests[k])
      && (w'.requests[k].uid <= w.revision ==>
          && k in w.requests && w'.requests[k].uid == w.requests[k].uid
          && Later(w.requests[k].value, w'.requests[k].value))
  }

  ghost predicate ReportsEvolve(n: Names, w: World, w': World) {
    forall k :: k in w'.reports ==>
      && (w'.reports[k].version <= w.revision ==> k in w.reports && w'.reports[k] == w.reports[k])
      && (w'.reports[k].uid <= w.revision ==>
          && k in w.reports && w'.reports[k].uid == w.reports[k].uid
          && KeepsEnvironments(w.reports[k].value, w'.reports[k].value)
          && KeepsIdentity(n, k, w.reports[k].value, w'.reports[k].value))
  }

  /** Nothing that was read is overwritten under the same revision, and nothing settled is unsettled. */
  ghost predicate Evolves(n: Names, w: World, w': World) {
    && w.revision <= w'.revision && w.specs <= w'.specs && w.seen <= w'.seen && w.promoted <= w'.promoted
    && w.attempts <= w'.attempts
    && RequestsEvolve(w, w') && ReportsEvolve(n, w, w')
  }

  lemma RequestWritten(n: Names, w: World, key: Key, value: Promotion, uid: nat)
    requires key in w.requests && uid == w.requests[key].uid ==> Later(w.requests[key].value, value)
    requires uid == if key in w.requests then w.requests[key].uid else w.revision + 1
    ensures Evolves(n, w, PutRequest(w, key, value, uid))
  {
  }

  lemma ReportWritten(n: Names, w: World, key: Key, value: Report, uid: nat)
    requires key in w.reports && uid == w.reports[key].uid ==>
               KeepsEnvironments(w.reports[key].value, value) && KeepsIdentity(n, key, w.reports[key].value, value)
    requires uid == if key in w.reports then w.reports[key].uid else w.revision + 1
    ensures Evolves(n, w, PutReport(w, key, value, uid))
  {
  }

  lemma SubmitEvolves(n: Names, w: World, key: Key, operation: Operation, e: Edit)
    ensures Evolves(n, w, AfterSubmit(w, key, operation, e))
  {
    match operation
    case Create =>
      if key !in w.requests && LandedCreation(e).Some? {
        RequestWritten(n, w, key, Promotion(LandedCreation(e).value, NO_STATUS), w.revision + 1);
      }
    case Update =>
      if key in w.requests && LandedUpdate(w.requests[key].value.spec, e).Some? {
        SignatureStands(w.requests[key].value.spec, e);
        RequestWritten(n, w, key, w.requests[key].value.(spec := LandedUpdate(w.requests[key].value.spec, e).value),
          w.requests[key].uid);
      }
    case _ =>
  }

  lemma EnvironmentEvolves(n: Names, w: World, key: Key, version: nat, target: string)
    ensures Evolves(n, w, AfterEnvironment(w, key, version, target))
  {
    if Current(w.reports, key, version) {
      var r := w.reports[key].value;
      forall e | e in r.environments ensures e in Sort(r.environments + [target]) {
        SortMembers(r.environments + [target], e);
      }
      ReportWritten(n, w, key, r.(environments := Sort(r.environments + [target])), w.reports[key].uid);
    }
  }

  lemma StatusEvolves(n: Names, w: World, key: Key, version: nat, report: Option<Report>)
    requires Current(w.requests, key, version) ==> !IsTerminal(w.requests[key].value.status.phase)
    ensures Evolves(n, w, AfterStatus(w, key, version, report))
  {
    if Current(w.requests, key, version) {
      var p := w.requests[key].value;
      RequestWritten(n, w, key, p.(status := NextStatus(p.status, p.spec, report)), w.requests[key].uid);
    }
  }

  lemma StepEvolves(n: Names, w: World, s: Step)
    ensures Evolves(n, w, Apply(n, w, s))
  {
    if Enabled(n, w, s) {
      match s
      case Submit(key, operation, e) => SubmitEvolves(n, w, key, operation, e);
      case WriteStatus(key, version, _, report) => StatusEvolves(n, w, key, version, report);
      case AddEnvironment(key, version, _, _, spec) => EnvironmentEvolves(n, w, key, version, spec.target);
      case Describe(key, model, version, digest) => DescribeEvolves(n, w, s);
      case Conclude(key, version, verdict, at) => ConclusionEvolves(n, w, s);
      case _ =>
    }
  }

  lemma DescribeEvolves(n: Names, w: World, s: Step)
    requires s.Describe? && Enabled(n, w, s)
    ensures Evolves(n, w, Effect(w, s))
  {
    var w' := Effect(w, s);
    ReportWritten(n, w, s.reportKey, w'.reports[s.reportKey].value, w'.reports[s.reportKey].uid);
  }

  lemma ConclusionEvolves(n: Names, w: World, s: Step)
    requires s.Conclude?
    ensures Evolves(n, w, Effect(w, s))
  {
    if Current(w.reports, s.reportKey, s.version) {
      var w' := Effect(w, s);
      ReportWritten(n, w, s.reportKey, w'.reports[s.reportKey].value, w'.reports[s.reportKey].uid);
    }
  }

  lemma RequestsEvolveOn(a: World, b: World, d: World)
    requires RequestsEvolve(a, b) && RequestsEvolve(b, d) && a.revision <= b.revision
    ensures RequestsEvolve(a, d)
  {
  }

  lemma ReportsEvolveOn(n: Names, a: World, b: World, d: World)
    requires ReportsEvolve(n, a, b) && ReportsEvolve(n, b, d) && a.revision <= b.revision
    ensures ReportsEvolve(n, a, d)
  {
  }

  lemma {:induction false} RunsEvolve(n: Names, w: World, trace: seq<Step>)
    ensures Evolves(n, w, Execute(n, w, trace))
  {
    if |trace| > 0 {
      var last := |trace| - 1;
      var m := Execute(n, w, trace[..last]);
      RunsEvolve(n, w, trace[..last]);
      StepEvolves(n, m, trace[last]);
      RequestsEvolveOn(w, m, Execute(n, w, trace));
      ReportsEvolveOn(n, w, m, Execute(n, w, trace));
    }
  }

  lemma {:induction false} ExecuteSplit(n: Names, w: World, a: seq<Step>, b: seq<Step>)
    ensures Execute(n, w, a + b) == Execute(n, Execute(n, w, a), b)
  {
    if |b| == 0 {
      assert a + b == a;
    } else {
      var last := |b| - 1;
      var t := a + b;
      assert t[..|t| - 1] == a + b[..last] && t[|t| - 1] == b[last];
      ExecuteSplit(n, w, a, b[..last]);
    }
  }

  // What one point of a run and a later one have to do with each other.
  lemma Between(n: Names, trace: seq<Step>, i: nat, j: nat)
    requires i <= j <= |trace|
    ensures Good(n, Execute(n, EMPTY, trace[..i]))
    ensures Evolves(n, Execute(n, EMPTY, trace[..i]), Execute(n, EMPTY, trace[..j]))
  {
    RunsAreGood(n, trace[..i]);
    assert trace[..j] == trace[..i] + trace[i..j];
    ExecuteSplit(n, EMPTY, trace[..i], trace[i..j]);
    RunsEvolve(n, Execute(n, EMPTY, trace[..i]), trace[i..j]);
  }

  /**
   Over every run, the life of one request object: a signed decision, who signed it, the moment and
   the target environment never change; the requestor never changes; and an approval or a rejection
   by the controller is final.
   */
  lemma SettledStaysSettled(n: Names, before: seq<Step>, after: seq<Step>, key: Key)
    requires key in Execute(n, EMPTY, before).requests && key in Execute(n, EMPTY, before + after).requests
    requires Execute(n, EMPTY, before).requests[key].uid == Execute(n, EMPTY, before + after).requests[key].uid
    ensures Later(Execute(n, EMPTY, before).requests[key].value, Execute(n, EMPTY, before + after).requests[key].value)
  {
    var w := Execute(n, EMPTY, before);
    RunsAreGood(n, before);
    assert RequestOk(n, w, key, w.requests[key]);
    ExecuteSplit(n, EMPTY, before, after);
    RunsEvolve(n, w, after);
  }

  /** The environments of one report object stay sorted and free of duplicates, and only grow. */
  lemma EnvironmentsOnlyGrow(n: Names, before: seq<Step>, after: seq<Step>, key: Key)
    requires key in Execute(n, EMPTY, before).reports && key in Execute(n, EMPTY, before + after).reports
    requires Execute(n, EMPTY, before).reports[key].uid == Execute(n, EMPTY, before + after).reports[key].uid
    ensures StrictlySorted(Execute(n, EMPTY, before).reports[key].value.environments)
    ensures KeepsEnvironments(Execute(n, EMPTY, before).reports[key].value,
                              Execute(n, EMPTY, before + after).reports[key].value)
  {
    var w := Execute(n, EMPTY, before);
    RunsAreGood(n, before);
    assert ReportOk(w, key, w.reports[key]);
    ExecuteSplit(n, EMPTY, before, after);
    RunsEvolve(n, w, after);
  }

  /** Nobody tries to put the decision on one request on record twice. */
  lemma AtMostOneRecordAttempt(n: Names, trace: seq<Step>)
    ensures Distinct(Execute(n, EMPTY, trace).attempts)
  {
    RunsAreGood(n, trace);
  }

  /**
   What a final phase means. An approved request carries a signed Approve and a rejected one a signed,
   explained Reject; either way a report that was really stored had an Approved verdict, and it was found
   under a name of the very model and version the request named when it was decided and, if it says who
   it is about, is about them; and an approval put the environment on that report.
   */
  lemma FinalPhaseIsAPersonsDecision(n: Names, trace: seq<Step>, key: Key)
    returns (reportKey: Key, report: Report, named: Spec)
    requires key in Execute(n, EMPTY, trace).requests
    requires IsTerminal(Execute(n, EMPTY, trace).requests[key].value.status.phase)
    ensures var w := Execute(n, EMPTY, trace);
            var s := w.requests[key];
            var p, t := s.value.spec, s.value.status;
            && t.verdict == APPROVED && t.reviewedBy == p.decidedBy
            && (key, s.uid, named) in w.specs && SameSignature(named, p)
            && (reportKey, report) in w.seen && report.verdict == APPROVED
            && LooksAt(n, key, named, reportKey)
            && (Identified(report) ==> report.model == named.model && report.version == named.version)
            && (t.phase == Phase.Approved ==> p.decision == APPROVE && (reportKey, p.target) in w.promoted)
            && (t.phase == Phase.Rejected ==> p.decision == REJECT && !Blank(p.reason))
  {
    var w := Execute(n, EMPTY, trace);
    var s := w.requests[key];
    RunsAreGood(n, trace);
    assert RequestOk(n, w, key, s);
    var p, t := s.value.spec, s.value.status;
    reportKey, report, named :|
      EvaluatedOn(n, w, key, s.uid, p, reportKey, report, named)
      && (t.phase == Phase.Approved ==> (reportKey, p.target) in w.promoted);
    var i := SpecIsWellSigned(n, trace, key, s.uid, named);
  }

  // ---------- looking back ----------

  /** What a submission comes to as things stand, if the signer lets it through. */
  function Landing(w: World, s: Step): Option<Spec>
    requires s.Submit?
  {
    match s.operation
    case Create => LandedCreation(s.edit)
    case Update => if s.key in w.requests then LandedUpdate(w.requests[s.key].value.spec, s.edit) else None
    case _ => None
  }

  /** The submission that stored this specification in this object: it was admitted, and it landed. */
  ghost predicate StoredBy(n: Names, trace: seq<Step>, i: nat, key: Key, uid: nat, stored: Spec) {
    && i < |trace| && trace[i].Submit? && trace[i].key == key
    && var w, w' := Execute(n, EMPTY, trace[..i]), Execute(n, EMPTY, trace[..i + 1]);
       && key in w'.requests && w'.requests[key].uid == uid && w'.requests[key].value.spec == stored
       && w'.requests[key].version == w.revision + 1
       && Landing(w, trace[i]) == Some(stored)
  }

  /** The step that created this object, by the user who is its requestor. */
  ghost predicate CreatedAt(n: Names, trace: seq<Step>, i: nat, key: Key, uid: nat, requestor: string) {
    && i < |trace| && trace[i].Submit? && trace[i].operation == Create
    && var w := Execute(n, EMPTY, trace[..i]);
       && Landing(w, trace[i]).Some? && StoredBy(n, trace, i, key, uid, Landing(w, trace[i]).value)
       && key !in w.requests && uid == w.revision + 1
       && trace[i].edit.user.name == requestor == Landing(w, trace[i]).value.requestor
  }

  /** The step that signed: it set this object's decision, which nobody had made, for this target. */
  ghost predicate SignedAt(n: Names, trace: seq<Step>, i: nat, key: Key, uid: nat, spec: Spec) {
    && i < |trace| && trace[i].Submit?
    && var w := Execute(n, EMPTY, trace[..i]);
       && Landing(w, trace[i]).Some? && StoredBy(n, trace, i, key, uid, Landing(w, trace[i]).value)
       && (key in w.requests ==> w.requests[key].value.spec.decision == "")
       && SameSignature(Landing(w, trace[i]).value, spec) && Signs(trace[i].edit, spec)
  }

  lemma Prefix(trace: seq<Step>, n: nat, i: nat)
    requires i < n <= |trace|
    ensures trace[..n][..i] == trace[..i] && trace[..n][..i + 1] == trace[..i + 1] && trace[..n][i] == trace[i]
  {
  }

  // The specification of a stored request is among those ever stored.
  lemma HeldIsKnown(n: Names, w: World, key: Key)
    requires Good(n, w) && key in w.requests
    ensures (key, w.requests[key].uid, w.requests[key].value.spec) in w.specs
  {
    assert RequestOk(n, w, key, w.requests[key]);
  }

  // What the last step stored that had not been stored before, it stored by a submission.
  lemma NewlyStored(n: Names, w: World, s: Step, key: Key, uid: nat, spec: Spec)
    requires Good(n, w) && (key, uid, spec) in Apply(n, w, s).specs && (key, uid, spec) !in w.specs
    ensures s.Submit? && s.key == key && Landing(w, s) == Some(spec)
    ensures var w' := Apply(n, w, s);
            && key in w'.requests && w'.requests[key].uid == uid && w'.requests[key].value.spec == spec
            && w'.requests[key].version == w.revision + 1
    ensures s.operation == Create ==> key !in w.requests && uid == w.revision + 1
    ensures s.operation != Create ==> s.operation == Update && key in w.requests && uid == w.requests[key].uid
  {
    if s.WriteStatus? && s.key in w.requests { HeldIsKnown(n, w, s.key); }
  }

  lemma LastStored(n: Names, trace: seq<Step>, key: Key, uid: nat, spec: Spec)
    requires |trace| > 0 && (key, uid, spec) in Execute(n, EMPTY, trace).specs
    requires (key, uid, spec) !in Execute(n, EMPTY, trace[..|trace| - 1]).specs
    ensures StoredBy(n, trace, |trace| - 1, key, uid, spec)
    ensures var s, w := trace[|trace| - 1], Execute(n, EMPTY, trace[..|trace| - 1]);
            && s.Submit? && Landing(w, s) == Some(spec)
            && (s.operation == Create ==> key !in w.requests && uid == w.revision + 1)
            && (s.operation != Create ==> s.operation == Update && key in w.requests && uid == w.requests[key].uid)
  {
    var last := |trace| - 1;
    RunsAreGood(n, trace[..last]);
    NewlyStored(n, Execute(n, EMPTY, trace[..last]), trace[last], key, uid, spec);
    assert trace[..last + 1] == trace;
    assert Execute(n, EMPTY, trace) == ExecuteLast(n, EMPTY, trace);
  }

  lemma {:induction false} SpecIsWellSigned(n: Names, trace: seq<Step>, key: Key, uid: nat, spec: Spec)
    returns (i: nat)
    requires (key, uid, spec) in Execute(n, EMPTY, trace).specs
    ensures StoredBy(n, trace, i, key, uid, spec) && WellSigned(spec)
  {
    var last := |trace| - 1;
    if (key, uid, spec) in Execute(n, EMPTY, trace[..last]).specs {
      i := SpecIsWellSigned(n, trace[..last], key, uid, spec);
      Prefix(trace, last, i);
    } else {
      i := last;
      LastStored(n, trace, key, uid, spec);
      LandsWellSigned(Execute(n, EMPTY, trace[..last]), trace[last]);
    }
  }

  lemma LandsWellSigned(w: World, s: Step)
    requires s.Submit? && Landing(w, s).Some?
    ensures WellSigned(Landing(w, s).value)
  {
    if s.operation == Update { SignatureStands(w.requests[s.key].value.spec, s.edit); } else { CreatorSigns(s.edit); }
  }

  /**
   The requestor is always the creator: whatever was ever stored in a request object carries the name
   of the authenticated user whose admitted creation made that very object.
   */
  lemma {:induction false} RequestorInTrace(n: Names, trace: seq<Step>, key: Key, uid: nat, spec: Spec)
    returns (i: nat)
    requires (key, uid, spec) in Execute(n, EMPTY, trace).specs
    ensures CreatedAt(n, trace, i, key, uid, spec.requestor)
  {
    var last := |trace| - 1;
    var w := Execute(n, EMPTY, trace[..last]);
    if (key, uid, spec) in w.specs {
      i := RequestorInTrace(n, trace[..last], key, uid, spec);
      Prefix(trace, last, i);
    } else {
      LastStored(n, trace, key, uid, spec);
      if trace[last].operation == Create {
        i := last;
        CreatorSigns(trace[last].edit);
      } else {
        var was := w.requests[key].value.spec;
        RunsAreGood(n, trace[..last]);
        HeldIsKnown(n, w, key);
        SignatureStands(was, trace[last].edit);
        i := RequestorInTrace(n, trace[..last], key, uid, was);
        Prefix(trace, last, i);
      }
    }
  }

  /** One step made an object: no other creation has its uid. */
  lemma CreatedOnce(n: Names, trace: seq<Step>, i: nat, j: nat, key: Key, key': Key, uid: nat, a: string, b: string)
    requires CreatedAt(n, trace, i, key, uid, a) && CreatedAt(n, trace, j, key', uid, b)
    ensures i == j
  {
    if i < j { UidsAscend(n, trace, i, j, key, uid); }
    if j < i { UidsAscend(n, trace, j, i, key', uid); }
  }

  lemma UidsAscend(n: Names, trace: seq<Step>, i: nat, j: nat, key: Key, uid: nat)
    requires i < j <= |trace| && i < |trace|
    requires var w' := Execute(n, EMPTY, trace[..i + 1]); key in w'.requests && w'.requests[key].uid == uid
    ensures Execute(n, EMPTY, trace[..j]).revision >= uid
  {
    var w' := Execute(n, EMPTY, trace[..i + 1]);
    Between(n, trace, i + 1, j);
    assert RequestOk(n, w', key, w'.requests[key]);
  }

  lemma SignedLater(n: Names, trace: seq<Step>, i: nat, key: Key, uid: nat, was: Spec, spec: Spec)
    requires SignedAt(n, trace, i, key, uid, was) && SameSignature(was, spec)
    ensures SignedAt(n, trace, i, key, uid, spec)
  {
  }

  /** A decision was made by an admitted submission that landed in the object that carries it. */
  lemma {:induction false} SignatureInTrace(n: Names, trace: seq<Step>, key: Key, uid: nat, spec: Spec)
    returns (i: nat)
    requires (key, uid, spec) in Execute(n, EMPTY, trace).specs && spec.decision != ""
    ensures SignedAt(n, trace, i, key, uid, spec)
  {
    var last := |trace| - 1;
    var w := Execute(n, EMPTY, trace[..last]);
    if (key, uid, spec) in w.specs {
      i := SignatureInTrace(n, trace[..last], key, uid, spec);
      Prefix(trace, last, i);
    } else {
      LastStored(n, trace, key, uid, spec);
      var e := trace[last].edit;
      if trace[last].operation == Create {
        i := last;
        CreatorSigns(e);
      } else {
        var was := w.requests[key].value.spec;
        SignatureStands(was, e);
        if was.decision == "" {
          i := last;
        } else {
          RunsAreGood(n, trace[..last]);
          HeldIsKnown(n, w, key);
          i := SignatureInTrace(n, trace[..last], key, uid, was);
          Prefix(trace, last, i);
          SignedLater(n, trace, i, key, uid, was, spec);
        }
      }
    }
  }

  /**
   At this point of a run a reconcile gave the object this status: it is what has to be concluded from
   what the request then was and from the report, if any, that was found for it.
   */
  ghost predicate ConcludedAt(n: Names, trace: seq<Step>, i: nat, key: Key, uid: nat, status: Status) {
    && i < |trace| && trace[i].WriteStatus? && trace[i].key == key
    && var w := Execute(n, EMPTY, trace[..i]);
       && Current(w.requests, key, trace[i].version) && w.requests[key].uid == uid
       && var p, report := w.requests[key].value, trace[i].report;
          && Concludes(p.status, p.spec, report, status)
          && (report.Some? ==>
              && (trace[i].reportKey, report.value) in w.seen
              && Found(n, key, p.spec, trace[i].reportKey, report.value))
  }

  /**
   Every phase has its cause: whatever a request says of itself at any point of any run, a reconcile
   concluded from what the request asked for and what its report said at one point of its life. In
   particular nothing is pending, approved or rejected without an Approved verdict, and nothing is
   blocked with one.
   */
  lemma {:induction false} StatusInTrace(n: Names, trace: seq<Step>, key: Key) returns (i: nat)
    requires key in Execute(n, EMPTY, trace).requests
    requires Execute(n, EMPTY, trace).requests[key].value.status.phase != Unset
    ensures var s := Execute(n, EMPTY, trace).requests[key];
            ConcludedAt(n, trace, i, key, s.uid, s.value.status)
  {
    var last := |trace| - 1;
    var w, w' := Execute(n, EMPTY, trace[..last]), Execute(n, EMPTY, trace);
    if key in w.requests && w.requests[key].uid == w'.requests[key].uid
       && w.requests[key].value.status == w'.requests[key].value.status {
      i := StatusInTrace(n, trace[..last], key);
      Prefix(trace, last, i);
    } else {
      i := last;
      NewlyConcluded(n, w, trace[last], key);
    }
  }

  // A status that an object did not have was given to it by a reconcile.
  lemma NewlyConcluded(n: Names, w: World, s: Step, key: Key)
    requires key in Apply(n, w, s).requests && Apply(n, w, s).requests[key].value.status.phase != Unset
    requires !(key in w.requests && w.requests[key].uid == Apply(n, w, s).requests[key].uid
               && w.requests[key].value.status == Apply(n, w, s).requests[key].value.status)
    ensures s.WriteStatus? && s.key == key && Enabled(n, w, s)
    ensures Current(w.requests, key, s.version) && w.requests[key].uid == Apply(n, w, s).requests[key].uid
    ensures var p := w.requests[key].value;
            Concludes(p.status, p.spec, s.report, Apply(n, w, s).requests[key].value.status)
  {
    if s.WriteStatus? && Current(w.requests, key, s.version) {
      var p := w.requests[key].value;
      NextStatusIff(p.status, p.spec, s.report, NextStatus(p.status, p.spec, s.report));
    }
  }

  /**
   At this point of a run a reconcile put the environment on this report object: it looked for the
   report about the model its request then named, under a name of that model and beside the request;
   what it found had an Approved verdict and said nothing else about who it is about; and the request
   carried an Approve.
   */
  ghost predicate PromotedAt(n: Names, trace: seq<Step>, j: nat, key: Key, uid: nat, environment: string) {
    && j < |trace| && trace[j].AddEnvironment?
    && trace[j].reportKey == key && trace[j].spec.target == environment && trace[j].spec.decision == APPROVE
    && var w := Execute(n, EMPTY, trace[..j]);
       && (trace[j].request, trace[j].uid, trace[j].spec) in w.specs
       && Current(w.reports, key, trace[j].version) && w.reports[key].uid == uid
       && w.reports[key].value.verdict == APPROVED
       && Found(n, trace[j].request, trace[j].spec, key, w.reports[key].value)
  }

  lemma {:induction false} PromotionInTrace(n: Names, trace: seq<Step>, key: Key, environment: string)
    returns (j: nat)
    requires key in Execute(n, EMPTY, trace).reports
    requires environment in Execute(n, EMPTY, trace).reports[key].value.environments
    ensures PromotedAt(n, trace, j, key, Execute(n, EMPTY, trace).reports[key].uid, environment)
  {
    var last := |trace| - 1;
    var w, w' := Execute(n, EMPTY, trace[..last]), Execute(n, EMPTY, trace);
    if key in w.reports && w.reports[key].uid == w'.reports[key].uid
       && environment in w.reports[key].value.environments {
      j := PromotionInTrace(n, trace[..last], key, environment);
      Prefix(trace, last, j);
    } else {
      j := last;
      RunsAreGood(n, trace[..last]);
      NewlyPromoted(n, w, trace[last], key, environment);
    }
  }

  // An environment that a report object did not have was put on it by a reconcile.
  lemma NewlyPromoted(n: Names, w: World, s: Step, key: Key, environment: string)
    requires Good(n, w) && key in Apply(n, w, s).reports
    requires environment in Apply(n, w, s).reports[key].value.environments
    requires !(key in w.reports && w.reports[key].uid == Apply(n, w, s).reports[key].uid
               && environment in w.reports[key].value.environments)
    ensures s.AddEnvironment? && s.reportKey == key && s.spec.target == environment && Enabled(n, w, s)
    ensures Current(w.reports, key, s.version) && w.reports[key].uid == Apply(n, w, s).reports[key].uid
  {
    if s.AddEnvironment? && Enabled(n, w, s) && Current(w.reports, key, s.version) {
      SortMembers(w.reports[key].value.environments + [s.spec.target], environment);
    }
  }

  /** The report of one model version now has a name under which that of another was looked for. */
  predicate SharedName(n: Names, p: Spec, r: Report) {
    (p.model != r.model || p.version != r.version)
    && n.current(r.model, r.version) in ReportNames(n, p.model, p.version)
  }

  /** The request and the workload name the same model, and the same version if the workload names one. */
  predicate SameModel(p: Spec, ref: ModelRef) {
    p.model == ref.model && (ref.version != "" ==> p.version == ref.version)
  }

  /**
   Admission implies a past promotion. Over every run of scans, users, reconciles and reports left by
   others: if the gate admits a workload that declares an environment, on a report about its model as it
   now is, then the current verdict is Approved, and earlier in the run a reconcile that saw an Approved
   verdict on that report object promoted it to that environment (up to letter case), for a request that
   then named this very model, unless the report still does not say who it is about or two model versions
   share a report name; and that request's Approve, for that very environment, had been signed by an
   authenticated user whose submission was admitted and landed.
   */
  lemma AdmissionImpliesPromotion(
    n: Names, trace: seq<Step>, g: Gate, key: Key, ref: ModelRef, mode: PromotionMode, now: Instant)
    returns (i: nat, j: nat, environment: string)
    requires key in Execute(n, EMPTY, trace).reports
    requires Describes(Execute(n, EMPTY, trace).reports[key].value, ref)
    requires Admits(g, Execute(n, EMPTY, trace).reports[key].value, ref, mode, now) && ref.environment != ""
    requires mode == Require || Execute(n, EMPTY, trace).reports[key].value.environments != []
    ensures Execute(n, EMPTY, trace).reports[key].value.verdict == APPROVED
    ensures g.same(environment, ref.environment)
    ensures environment in Execute(n, EMPTY, trace).reports[key].value.environments
    ensures PromotedAt(n, trace, j, key, Execute(n, EMPTY, trace).reports[key].uid, environment)
    ensures i < j && SignedAt(n, trace, i, trace[j].request, trace[j].uid, trace[j].spec)
    ensures var r, p := Execute(n, EMPTY, trace).reports[key].value, trace[j].spec;
            SameModel(p, ref) || !Identified(r) || SharedName(n, p, r)
  {
    var w := Execute(n, EMPTY, trace);
    var list := w.reports[key].value.environments;
    assert Member(g.same, list, ref.environment);
    var m :| 0 <= m < |list| && g.same(list[m], ref.environment);
    environment := list[m];
    j := PromotionInTrace(n, trace, key, environment);
    i := SignatureInTrace(n, trace[..j], trace[j].request, trace[j].uid, trace[j].spec);
    Prefix(trace, j, i);
    var b := SpecIsWellSigned(n, trace[..j], trace[j].request, trace[j].uid, trace[j].spec);
    PromotedObject(n, trace, j, key, environment);
  }

  // The report object that was promoted keeps who it is about, or says it under the name it has.
  lemma PromotedObject(n: Names, trace: seq<Step>, j: nat, key: Key, environment: string)
    requires key in Execute(n, EMPTY, trace).reports
    requires PromotedAt(n, trace, j, key, Execute(n, EMPTY, trace).reports[key].uid, environment)
    ensures KeepsIdentity(n, key, Execute(n, EMPTY, trace[..j]).reports[key].value,
                          Execute(n, EMPTY, trace).reports[key].value)
  {
    var w := Execute(n, EMPTY, trace[..j]);
    assert trace[..|trace|] == trace;
    Between(n, trace, j, |trace|);
    assert ReportOk(w, key, w.reports[key]);
  }

  // ---------- which model a signature was used for ----------

  /** An admitted submission landed in this object. */
  ghost predicate LandsIn(n: Names, trace: seq<Step>, m: nat, key: Key, uid: nat) {
    && m < |trace| && trace[m].Submit?
    && var w := Execute(n, EMPTY, trace[..m]);
       Landing(w, trace[m]).Some? && StoredBy(n, trace, m, key, uid, Landing(w, trace[m]).value)
  }

  /** It is the last one that did, before this point. */
  ghost predicate LastLanding(n: Names, trace: seq<Step>, k: nat, r: nat, key: Key, uid: nat) {
    k < r && LandsIn(n, trace, k, key, uid) && forall m :: k < m < r ==> !LandsIn(n, trace, m, key, uid)
  }

  /** At this point of a run the object held this specification, as whoever read it then saw. */
  ghost predicate HeldAt(n: Names, trace: seq<Step>, r: nat, key: Key, uid: nat, spec: Spec) {
    && r <= |trace|
    && var w := Execute(n, EMPTY, trace[..r]);
       key in w.requests && w.requests[key].uid == uid && w.requests[key].value.spec == spec
  }

  // Only an admitted submission that lands changes what an object asks for.
  lemma NothingLanded(n: Names, trace: seq<Step>, m: nat, key: Key, uid: nat, spec: Spec)
    requires HeldAt(n, trace, m + 1, key, uid, spec) && !LandsIn(n, trace, m, key, uid)
    ensures HeldAt(n, trace, m, key, uid, spec)
  {
    var w, w' := Execute(n, EMPTY, trace[..m]), Execute(n, EMPTY, trace[..m + 1]);
    assert trace[..m + 1][..m] == trace[..m];
    assert w' == ExecuteLast(n, EMPTY, trace[..m + 1]);
  }

  lemma {:induction false} HeldSinceLanding(n: Names, trace: seq<Step>, r: nat, key: Key, uid: nat, spec: Spec)
    returns (k: nat)
    requires HeldAt(n, trace, r, key, uid, spec)
    ensures LastLanding(n, trace, k, r, key, uid) && StoredBy(n, trace, k, key, uid, spec)
  {
    if r == 0 {
      assert false;
    } else if LandsIn(n, trace, r - 1, key, uid) {
      k := r - 1;
    } else {
      NothingLanded(n, trace, r - 1, key, uid, spec);
      k := HeldSinceLanding(n, trace, r - 1, key, uid, spec);
    }
  }

  /** Every promotion acts on what its request held at some point before it. */
  lemma ReadBefore(n: Names, trace: seq<Step>, j: nat, key: Key, uid: nat, environment: string) returns (r: nat)
    requires PromotedAt(n, trace, j, key, uid, environment)
    ensures r <= j && HeldAt(n, trace, r, trace[j].request, trace[j].uid, trace[j].spec)
  {
    var i := SpecIsWellSigned(n, trace[..j], trace[j].request, trace[j].uid, trace[j].spec);
    Prefix(trace, j, i);
    r := i + 1;
  }

  // A decision that was held is held in the same object just before any later submission lands in it.
  lemma StillDecided(n: Names, trace: seq<Step>, r: nat, i: nat, key: Key, uid: nat, spec: Spec)
    requires HeldAt(n, trace, r, key, uid, spec) && r <= i && LandsIn(n, trace, i, key, uid) && spec.decision != ""
    ensures var w := Execute(n, EMPTY, trace[..i]);
            key in w.requests && w.requests[key].value.spec.decision == spec.decision
  {
    var w := Execute(n, EMPTY, trace[..r]);
    Between(n, trace, r, i);
    assert RequestOk(n, w, key, w.requests[key]);
    Between(n, trace, i, i + 1);
  }

  // An object was signed before it was seen to be.
  lemma SignedBefore(n: Names, trace: seq<Step>, i: nat, r: nat, key: Key, uid: nat, spec: Spec)
    requires SignedAt(n, trace, i, key, uid, spec) && HeldAt(n, trace, r, key, uid, spec) && spec.decision != ""
    ensures i < r
  {
    assert LandsIn(n, trace, i, key, uid);
    if r <= i { StillDecided(n, trace, r, i, key, uid, spec); }
  }

  /** The model version that a submission names. */
  function NamedIn(s: Step): (string, string)
    requires s.Submit? && s.edit.payload.Decoded?
  {
    (s.edit.payload.spec.model, s.edit.payload.spec.version)
  }

  /**
   Which model a signature is used for. Take any promotion in any run, the step that signed for it, and
   any earlier point at which its request was as the reconcile read it. The promoted model version is the
   one the signer named if and only if it is what was named by the last admitted submission that landed in
   the request before that point, by whoever sent it.
   */
  lemma PromotedForTheSignedModelIff(
    n: Names, trace: seq<Step>, i: nat, r: nat, j: nat, key: Key, uid: nat, environment: string)
    returns (k: nat)
    requires PromotedAt(n, trace, j, key, uid, environment)
    requires SignedAt(n, trace, i, trace[j].request, trace[j].uid, trace[j].spec)
    requires HeldAt(n, trace, r, trace[j].request, trace[j].uid, trace[j].spec)
    ensures i <= k && LastLanding(n, trace, k, r, trace[j].request, trace[j].uid)
    ensures trace[i].edit.payload.Decoded? && trace[k].edit.payload.Decoded?
    ensures (trace[j].spec.model, trace[j].spec.version) == NamedIn(trace[i]) <==>
            NamedIn(trace[k]) == NamedIn(trace[i])
    ensures var report := Execute(n, EMPTY, trace[..j]).reports[key].value;
            Identified(report) ==>
              ((report.model, report.version) == NamedIn(trace[i]) <==> NamedIn(trace[k]) == NamedIn(trace[i]))
  {
    var p := trace[j].spec;
    SignedBefore(n, trace, i, r, trace[j].request, trace[j].uid, p);
    k := HeldSinceLanding(n, trace, r, trace[j].request, trace[j].uid, p);
    assert LandsIn(n, trace, i, trace[j].request, trace[j].uid);
    var b := SpecIsWellSigned(n, trace[..j], trace[j].request, trace[j].uid, p);
    LandsAsSent(Execute(n, EMPTY, trace[..i]), trace[i]);
    LandsAsSent(Execute(n, EMPTY, trace[..k]), trace[k]);
  }

  // What lands names the model version that was sent.
  lemma LandsAsSent(w: World, s: Step)
    requires s.Submit? && Landing(w, s).Some?
    ensures s.edit.payload.Decoded?
    ensures NamedIn(s) == (Landing(w, s).value.model, Landing(w, s).value.version)
  {
  }
}
