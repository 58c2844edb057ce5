/**
 The admission gate's decision (internal/webhook/gate.go): given the report about a model and what a
 workload declares, whether the workload may run.
 */
module Gating {
  import opened Wrappers
  import opened Signing

  const APPROVED: string := "Approved"
  const QUARANTINED: string := "Quarantined"
  const REVIEW_REQUIRED: string := "ReviewRequired"

  /** What the gate and the promotion controller read of a model security report. */
  datatype Report = Report(
    model: string, version: string, digest: string,
    verdict: string, lastScan: Option<Instant>, environments: seq<string>)

  datatype ModelRef = ModelRef(model: string, version: string, digest: string, environment: string)

  datatype PromotionMode = Require | Ignore

  datatype Refused =
    | IsQuarantined
    | NeedsReview
    | NoVerdict
    | NoScanTime
    | Stale(age: int)
    | OtherBytes(pinned: string, scanned: string)
    | PromotedNowhere(environment: string)
    | NotPromotedHere(environment: string, approved: seq<string>)

  /** `maxReportAge` zero or less means an approval never expires. `same` is `strings.EqualFold`. */
  datatype Gate = Gate(maxReportAge: int, same: (string, string) -> bool)

  method Contains(same: (string, string) -> bool, list: seq<string>, value: string) returns (found: bool)
    ensures found <==> Member(same, list, value)
  {
    var i := 0;
    while i < |list|
      invariant 0 <= i <= |list| && forall j :: 0 <= j < i ==> !same(list[j], value)
    {
      if same(list[i], value) { return true; }
      i := i + 1;
    }
    return false;
  }

  predicate Member(same: (string, string) -> bool, list: seq<string>, value: string) {
    exists i :: 0 <= i < |list| && same(list[i], value)
  }

  function TooOld(g: Gate, r: Report, now: Instant): Option<Refused> {
    if g.maxReportAge <= 0 then None
    else if r.lastScan.None? then Some(NoScanTime)
    else if now - r.lastScan.value > g.maxReportAge then Some(Stale(now - r.lastScan.value))
    else None
  }

  function NotHere(g: Gate, r: Report, environment: string, mode: PromotionMode): Option<Refused> {
    if environment == "" then None
    else if |r.environments| == 0 then (if mode != Ignore then Some(PromotedNowhere(environment)) else None)
    else if !Member(g.same, r.environments, environment) then Some(NotPromotedHere(environment, r.environments))
    else None
  }

  function OtherArtifact(r: Report, ref: ModelRef): Option<Refused> {
    if ref.digest != "" && r.digest != "" && ref.digest != r.digest then Some(OtherBytes(ref.digest, r.digest))
    else None
  }

  function Verdict(r: Report): Option<Refused> {
    if r.verdict == APPROVED then None
    else if r.verdict == QUARANTINED then Some(IsQuarantined)
    else if r.verdict == REVIEW_REQUIRED then Some(NeedsReview)
    else Some(NoVerdict)
  }

  /** The first reason to refuse, or none. */
  function Decision(g: Gate, r: Report, ref: ModelRef, mode: PromotionMode, now: Instant): Option<Refused> {
    if Verdict(r).Some? then Verdict(r)
    else if TooOld(g, r, now).Some? then TooOld(g, r, now)
    else if OtherArtifact(r, ref).Some? then OtherArtifact(r, ref)
    else NotHere(g, r, ref.environment, mode)
  }

  /** `evaluate`. */
  method Evaluate(g: Gate, r: Report, ref: ModelRef, mode: PromotionMode, now: Instant)
    returns (refused: Option<Refused>)
    ensures refused == Decision(g, r, ref, mode, now)
    ensures refused.None? <==>
            && r.verdict == APPROVED
            && (g.maxReportAge > 0 ==> r.lastScan.Some? && now - r.lastScan.value <= g.maxReportAge)
            && (ref.digest == "" || r.digest == "" || ref.digest == r.digest)
            && (ref.environment == "" || Member(g.same, r.environments, ref.environment)
                || (r.environments == [] && mode == Ignore))
    ensures refused == Some(IsQuarantined) <==> r.verdict == QUARANTINED
    ensures refused == Some(NeedsReview) <==> r.verdict == REVIEW_REQUIRED
    ensures refused == Some(NoVerdict) <==> r.verdict !in {APPROVED, QUARANTINED, REVIEW_REQUIRED}
    ensures refused == Some(NoScanTime) <==> r.verdict == APPROVED && g.maxReportAge > 0 && r.lastScan.None?
    ensures forall age :: refused == Some(Stale(age)) <==>
              && r.verdict == APPROVED && g.maxReportAge > 0 && r.lastScan.Some?
              && age == now - r.lastScan.value && age > g.maxReportAge
    ensures var recent := g.maxReportAge > 0 ==> r.lastScan.Some? && now - r.lastScan.value <= g.maxReportAge;
            var other := ref.digest != "" && r.digest != "" && ref.digest != r.digest;
            && (refused == Some(OtherBytes(ref.digest, r.digest)) <==> r.verdict == APPROVED && recent && other)
            && (refused == Some(PromotedNowhere(ref.environment)) <==>
                && r.verdict == APPROVED && recent && !other
                && ref.environment != "" && r.environments == [] && mode == Require)
            && (refused == Some(NotPromotedHere(ref.environment, r.environments)) <==>
                && r.verdict == APPROVED && recent && !other && ref.environment != "" && r.environments != []
                && forall i :: 0 <= i < |r.environments| ==> !g.same(r.environments[i], ref.environment))
    ensures refused.Some? ==>
              match refused.value
              case OtherBytes(pinned, scanned) => pinned == ref.digest && scanned == r.digest
              case PromotedNowhere(environment) => environment == ref.environment
              case NotPromotedHere(environment, approved) =>
                environment == ref.environment && approved == r.environments
              case _ => true
  {
    if r.verdict == QUARANTINED { return Some(IsQuarantined); }
    if r.verdict == REVIEW_REQUIRED { return Some(NeedsReview); }
    if r.verdict != APPROVED { return Some(NoVerdict); }
    if g.maxReportAge > 0 {
      if r.lastScan.None? { return Some(NoScanTime); }
      var age := now - r.lastScan.value;
      if age > g.maxReportAge { return Some(Stale(age)); }
    }
    if ref.digest != "" && r.digest != "" && ref.digest != r.digest {
      return Some(OtherBytes(ref.digest, r.digest));
    }
    if ref.environment != "" {
      if |r.environments| == 0 {
        if mode != Ignore { return Some(PromotedNowhere(ref.environment)); }
      } else {
        var promoted := Contains(g.same, r.environments, ref.environment);
        if !promoted { return Some(NotPromotedHere(ref.environment, r.environments)); }
      }
    }
    return None;
  }

  predicate Admits(g: Gate, r: Report, ref: ModelRef, mode: PromotionMode, now: Instant) {
    Decision(g, r, ref, mode, now).None?
  }

  /** Time only ever takes an approval away, and a negative verdict is never rescued by it. */
  lemma AgeNeverRescues(g: Gate, r: Report, ref: ModelRef, mode: PromotionMode, now: Instant, later: Instant)
    requires now <= later && Admits(g, r, ref, mode, later)
    ensures Admits(g, r, ref, mode, now) && r.verdict == APPROVED
  {
  }

  /**
   Promoting a version to one more environment keeps every admission it had, with one exception: a
   cluster that ignores promotions admits a version promoted nowhere into any environment, and the
   first promotion ends that for every other environment.
   */
  lemma PromotionKeepsAdmissionsIff(
    g: Gate, r: Report, ref: ModelRef, mode: PromotionMode, now: Instant, added: string, environments: seq<string>)
    requires Admits(g, r, ref, mode, now)
    requires forall e :: e in environments <==> e in r.environments || e == added
    ensures Admits(g, r.(environments := environments), ref, mode, now) <==>
            !(mode == Ignore && |r.environments| == 0 && ref.environment != "" && !g.same(added, ref.environment))
  {
    var r' := r.(environments := environments);
    assert added in environments;
    if ref.environment != "" {
      if |r.environments| > 0 {
        var i :| 0 <= i < |r.environments| && g.same(r.environments[i], ref.environment);
        assert r.environments[i] in environments;
        var j :| 0 <= j < |environments| && environments[j] == r.environments[i];
        assert Member(g.same, environments, ref.environment);
      } else {
        OnlyTheAdded(g.same, environments, added, ref.environment);
      }
    }
  }

  lemma OnlyTheAdded(same: (string, string) -> bool, environments: seq<string>, added: string, value: string)
    requires added in environments && forall e :: e in environments ==> e == added
    ensures Member(same, environments, value) <==> same(added, value)
  {
    var k :| 0 <= k < |environments| && environments[k] == added;
    forall i | 0 <= i < |environments| ensures environments[i] == added { assert environments[i] in environments; }
  }

  // ---------- finding the report ----------

  datatype Key = Key(namespace: string, name: string)

  /** `reportDescribes`. */
  predicate Describes(r: Report, ref: ModelRef) {
    r.model == ""
    || (r.model == ref.model && (r.version != "" && ref.version != "" ==> r.version == ref.version))
  }

  /** `lookupNamespaces`: alongside the workload, and then where the scans write, if that is elsewhere. */
  function LookupNamespaces(workload: string, reports: string): seq<string> {
    if reports == "" || reports == workload then [workload] else [workload, reports]
  }

  /** What the API says about one place: no report, a report, or an error that is not about absence. */
  datatype Answer = Missing | Present(report: Report) | Unreadable

  type Answers = Key -> Answer

  /** The search ends here: with an error, or with a report about this model. */
  predicate Decisive(answers: Answers, ref: ModelRef, k: Key) {
    answers(k).Unreadable? || (answers(k).Present? && Describes(answers(k).report, ref))
  }

  function Says(answers: Answers, k: Key): Result<Option<Report>, Key> {
    if answers(k).Present? then Ok(Some(answers(k).report)) else Err(k)
  }

  /** What the first decisive one of some places says. */
  function FirstFound(answers: Answers, ref: ModelRef, places: seq<Key>): Result<Option<Report>, Key> {
    if |places| == 0 then Ok(None)
    else if Decisive(answers, ref, places[0]) then Says(answers, places[0])
    else FirstFound(answers, ref, places[1..])
  }

  predicate IsFirst(answers: Answers, ref: ModelRef, places: seq<Key>, i: nat)
    requires i < |places|
  {
    Decisive(answers, ref, places[i]) && forall j :: 0 <= j < i ==> !Decisive(answers, ref, places[j])
  }

  /**
   What is found is a report about this model, or the error met before any was seen, whatever other
   reports have names that derive alike; and nothing is found only if every place was read and none
   has a report about it.
   */
  lemma {:induction false} FirstFoundIff(
    answers: Answers, ref: ModelRef, places: seq<Key>, r: Result<Option<Report>, Key>)
    ensures r != Ok(None) ==>
              (FirstFound(answers, ref, places) == r <==>
               exists i :: 0 <= i < |places| && IsFirst(answers, ref, places, i) && Says(answers, places[i]) == r)
    ensures FirstFound(answers, ref, places) == Ok(None) <==>
            forall i :: 0 <= i < |places| ==> !Decisive(answers, ref, places[i])
  {
    if |places| > 0 {
      var rest := places[1..];
      FirstFoundIff(answers, ref, rest, r);
      if Decisive(answers, ref, places[0]) {
        assert IsFirst(answers, ref, places, 0);
      } else {
        forall i | 0 <= i < |rest| ensures IsFirst(answers, ref, rest, i) <==> IsFirst(answers, ref, places, i + 1) {
          IsFirstAfter(answers, ref, places, i);
        }
        assert forall i :: 1 <= i < |places| ==> places[i] == rest[i - 1];
        assert !IsFirst(answers, ref, places, 0);
      }
    }
  }

  lemma IsFirstAfter(answers: Answers, ref: ModelRef, places: seq<Key>, i: nat)
    requires i + 1 < |places| && !Decisive(answers, ref, places[0])
    ensures IsFirst(answers, ref, places[1..], i) <==> IsFirst(answers, ref, places, i + 1)
  {
    assert forall j :: 0 <= j < |places| - 1 ==> places[1..][j] == places[j + 1];
    if IsFirst(answers, ref, places[1..], i) {
      forall j | 0 <= j < i + 1 ensures !Decisive(answers, ref, places[j]) {
        if j > 0 { assert !Decisive(answers, ref, places[1..][j - 1]); }
      }
    }
    if IsFirst(answers, ref, places, i + 1) {
      forall j | 0 <= j < i ensures !Decisive(answers, ref, places[1..][j]) {
        assert !Decisive(answers, ref, places[j + 1]);
      }
    }
  }

  // Looking in one list of places and then, if nothing was there, in another.
  lemma {:induction false} FoundInEither(answers: Answers, ref: ModelRef, a: seq<Key>, b: seq<Key>)
    ensures FirstFound(answers, ref, a + b) ==
            if FirstFound(answers, ref, a) != Ok(None) then FirstFound(answers, ref, a) else FirstFound(answers, ref, b)
  {
    if |a| == 0 {
      assert a + b == b;
    } else {
      assert (a + b)[1..] == a[1..] + b;
      FoundInEither(answers, ref, a[1..], b);
    }
  }

  /** Where a report may be, in the order the gate looks: every name in one namespace, then the next. */
  function Places(namespaces: seq<string>, names: seq<string>): seq<Key> {
    if |namespaces| == 0 then [] else PlacesIn(namespaces[0], names) + Places(namespaces[1..], names)
  }

  function PlacesIn(namespace: string, names: seq<string>): (places: seq<Key>)
    ensures |places| == |names| && forall i :: 0 <= i < |places| ==> places[i] == Key(namespace, names[i])
  {
    if |names| == 0 then [] else [Key(namespace, names[0])] + PlacesIn(namespace, names[1..])
  }

  /** Nothing is there, or a report that says it is about another model or version. */
  predicate PassedOver(a: Answer, ref: ModelRef) {
    match a
    case Missing => true
    case Unreadable => false
    case Present(r) =>
      && r.model != ""
      && (r.model != ref.model || (r.version != "" && ref.version != "" && r.version != ref.version))
  }

  // The search goes on past exactly the places that are passed over, and to every one of them.
  lemma SearchedEverywhere(
    answers: Answers, workload: string, reports: string, names: seq<string>, ref: ModelRef)
    ensures FirstFound(answers, ref, Places(LookupNamespaces(workload, reports), names)) == Ok(None) <==>
            && AllPassed(answers, ref, workload, names)
            && (reports != "" ==> AllPassed(answers, ref, reports, names))
  {
    WorkloadNamespaceFirst(answers, ref, workload, reports, names);
    FirstFoundIff(answers, ref, PlacesIn(workload, names), Ok(None));
    FirstFoundIff(answers, ref, PlacesIn(reports, names), Ok(None));
    AllPassedOver(answers, ref, workload, names);
    AllPassedOver(answers, ref, reports, names);
  }

  ghost predicate NoneDecisive(answers: Answers, ref: ModelRef, places: seq<Key>) {
    forall i :: 0 <= i < |places| ==> !Decisive(answers, ref, places[i])
  }

  ghost predicate AllPassed(answers: Answers, ref: ModelRef, namespace: string, names: seq<string>) {
    forall name :: name in names ==> PassedOver(answers(Key(namespace, name)), ref)
  }

  lemma AllPassedOver(answers: Answers, ref: ModelRef, namespace: string, names: seq<string>)
    ensures NoneDecisive(answers, ref, PlacesIn(namespace, names)) <==> AllPassed(answers, ref, namespace, names)
  {
    var places := PlacesIn(namespace, names);
    if NoneDecisive(answers, ref, places) {
      forall name | name in names ensures PassedOver(answers(Key(namespace, name)), ref) {
        var i :| 0 <= i < |names| && names[i] == name;
        assert !Decisive(answers, ref, places[i]);
      }
    }
    if AllPassed(answers, ref, namespace, names) {
      forall i | 0 <= i < |places| ensures !Decisive(answers, ref, places[i]) {
        assert names[i] in names && places[i] == Key(namespace, names[i]);
      }
    }
  }

  /** `findReport`, from the workload's namespace and the gate's own. */
  method FindReport(answers: Answers, workload: string, reports: string, names: seq<string>, ref: ModelRef)
    returns (r: Result<Option<Report>, Key>)
    ensures r == FirstFound(answers, ref, Places(LookupNamespaces(workload, reports), names))
    ensures r == Ok(None) <==>
            && (forall name :: name in names ==> PassedOver(answers(Key(workload, name)), ref))
            && (reports != "" ==> forall name :: name in names ==> PassedOver(answers(Key(reports, name)), ref))
    ensures r.Ok? && r.value.Some? ==> !PassedOver(Present(r.value.value), ref)
    ensures r.Err? ==> answers(r.error).Unreadable?
  {
    SearchedEverywhere(answers, workload, reports, names, ref);
    FirstIsDecisive(answers, ref, Places(LookupNamespaces(workload, reports), names));
    var namespaces := LookupNamespaces(workload, reports);
    var i := 0;
    assert namespaces[0..] == namespaces;
    while i < |namespaces|
      invariant 0 <= i <= |namespaces|
      invariant FirstFound(answers, ref, Places(namespaces, names)) ==
                FirstFound(answers, ref, Places(namespaces[i..], names))
    {
      FoundInEither(answers, ref, PlacesIn(namespaces[i], names), Places(namespaces[i + 1..], names));
      assert namespaces[i..][1..] == namespaces[i + 1..];
      r := SearchNamespace(answers, namespaces[i], names, ref);
      if r != Ok(None) { return r; }
      i := i + 1;
    }
    return Ok(None);
  }

  lemma {:induction false} FirstIsDecisive(answers: Answers, ref: ModelRef, places: seq<Key>)
    ensures match FirstFound(answers, ref, places)
            case Ok(None) => true
            case Ok(Some(report)) => !PassedOver(Present(report), ref)
            case Err(k) => answers(k).Unreadable?
  {
    if |places| > 0 && !Decisive(answers, ref, places[0]) { FirstIsDecisive(answers, ref, places[1..]); }
  }

  // The inner loop: one namespace, every name.
  method SearchNamespace(answers: Answers, namespace: string, names: seq<string>, ref: ModelRef)
    returns (r: Result<Option<Report>, Key>)
    ensures r == FirstFound(answers, ref, PlacesIn(namespace, names))
  {
    var j := 0;
    assert names[0..] == names;
    while j < |names|
      invariant 0 <= j <= |names|
      invariant FirstFound(answers, ref, PlacesIn(namespace, names)) ==
                FirstFound(answers, ref, PlacesIn(namespace, names[j..]))
    {
      var k := Key(namespace, names[j]);
      assert names[j..][1..] == names[j + 1..];
      assert PlacesIn(namespace, names[j..])[1..] == PlacesIn(namespace, names[j + 1..]);
      var got := answers(k);
      if got.Present? {
        if Describes(got.report, ref) { return Ok(Some(got.report)); }
      } else if got.Unreadable? {
        return Err(k);
      }
      j := j + 1;
    }
    return Ok(None);
  }

  lemma OnePlace(namespace: string, names: seq<string>)
    ensures Places([namespace], names) == PlacesIn(namespace, names)
  {
    assert [namespace][1..] == [];
    assert PlacesIn(namespace, names) + [] == PlacesIn(namespace, names);
  }

  /**
   A report kept next to the workload wins over one the scans wrote; their namespace is looked in only
   when the workload's was read without finding any.
   */
  lemma WorkloadNamespaceFirst(answers: Answers, ref: ModelRef, workload: string, reports: string, names: seq<string>)
    ensures var found := FirstFound(answers, ref, Places(LookupNamespaces(workload, reports), names));
            var beside := FirstFound(answers, ref, PlacesIn(workload, names));
            found == if beside != Ok(None) || reports == "" || reports == workload then beside
                     else FirstFound(answers, ref, PlacesIn(reports, names))
  {
    OnePlace(workload, names);
    OnePlace(reports, names);
    assert [workload, reports][1..] == [reports];
    FoundInEither(answers, ref, PlacesIn(workload, names), PlacesIn(reports, names));
  }
}
