/**
 The promotion signer (internal/webhook/promotion.go): the admission webhook that stamps a promotion
 request with the authenticated identities of whoever made it and whoever decided it.
 */
module Signing {
  import opened Wrappers

  /** A moment, in nanoseconds. */
  type Instant = int

  const APPROVE: string := "Approve"
  const REJECT: string := "Reject"

  datatype Spec = Spec(
    model: string, version: string, target: string, requestor: string, justification: string,
    decision: string, reason: string,
    decidedBy: string, decidedByGroups: seq<string>, decidedAt: Option<Instant>)

  datatype User = User(name: string, groups: seq<string>)

  datatype Operation = Create | Update | Delete | Connect

  /**
   What arrives in place of an object: nothing, a specification, or bytes that do not decode, with what
   the decoder had filled in of an empty specification when it failed.
   */
  datatype Raw = Absent | Garbled(left: Spec) | Decoded(spec: Spec)

  datatype Submission = Submission(operation: Operation, sent: Raw, before: Raw, user: User, now: Instant)

  datatype Denial =
    | ModelRequired
    | EnvironmentRequired
    | ReasonRequired
    | DecisionSigned(decider: string)
    | TargetSigned

  datatype Response = Allowed | Patched(spec: Spec) | Denied(why: Denial) | Errored

  // `unicode.IsSpace`.
  predicate IsSpace(c: char) {
    c in "\t\n\r \U{0B}\U{0C}\U{85}\U{A0}\U{1680}\U{2028}\U{2029}\U{202F}\U{205F}\U{3000}"
    || '\U{2000}' <= c <= '\U{200A}'
  }

  /** `strings.TrimSpace` leaves nothing. */
  predicate Blank(s: string) {
    forall i :: 0 <= i < |s| ==> IsSpace(s[i])
  }

  const NOTHING: Spec := Spec("", "", "", "", "", "", "", "", [], None)

  /** What is known of the specification before an update: all of it, part of it, or nothing. */
  function Before(s: Submission): Spec {
    if s.operation != Update || s.before.Absent? then NOTHING
    else if s.before.Decoded? then s.before.spec
    else s.before.left
  }

  /** The specification before the change, when there is one and somebody has decided it. */
  function Decided(s: Submission): Option<Spec> {
    if s.operation == Update && s.before.Decoded? && s.before.spec.decision != "" then Some(s.before.spec) else None
  }

  function Refusal(s: Submission, p: Spec): Option<Denial> {
    if p.model == "" || p.version == "" then Some(ModelRequired)
    else if p.target == "" then Some(EnvironmentRequired)
    else if p.decision == REJECT && Blank(p.reason) then Some(ReasonRequired)
    else if Decided(s).Some? && p.decision != Decided(s).value.decision then
      Some(DecisionSigned(Decided(s).value.decidedBy))
    else if Decided(s).Some? && p.target != Decided(s).value.target then Some(TargetSigned)
    else None
  }

  function Signed(s: Submission, p: Spec): Spec {
    var q := p.(requestor := if s.operation == Create then s.user.name else Before(s).requestor);
    if q.decision == "" then q.(decidedBy := "", decidedByGroups := [], decidedAt := None)
    else if Decided(s).Some? then
      var d := Decided(s).value;
      q.(decidedBy := d.decidedBy, decidedByGroups := d.decidedByGroups, decidedAt := d.decidedAt)
    else q.(decidedBy := s.user.name, decidedByGroups := s.user.groups, decidedAt := Some(s.now))
  }

  function Sign(s: Submission): Response {
    if s.operation == Delete then Allowed
    else if !s.sent.Decoded? then Errored
    else if Refusal(s, s.sent.spec).Some? then Denied(Refusal(s, s.sent.spec).value)
    else Patched(Signed(s, s.sent.spec))
  }

  /** Somebody has decided the request that this is an update of. */
  predicate AlreadyDecided(s: Submission) {
    s.operation == Update && s.before.Decoded? && s.before.spec.decision != ""
  }

  /** What there is to say against a submission that decodes, and is not a deletion. */
  predicate Objection(s: Submission, why: Denial) {
    s.sent.Decoded? &&
    var p := s.sent.spec;
    match why
    case ModelRequired => p.model == "" || p.version == ""
    case EnvironmentRequired => p.target == ""
    case ReasonRequired => p.decision == REJECT && forall i :: 0 <= i < |p.reason| ==> IsSpace(p.reason[i])
    case DecisionSigned(decider) =>
      AlreadyDecided(s) && p.decision != s.before.spec.decision && decider == s.before.spec.decidedBy
    case TargetSigned => AlreadyDecided(s) && p.target != s.before.spec.target
  }

  /** The order in which the objections are made. */
  function Rank(why: Denial): nat {
    match why
    case ModelRequired => 0
    case EnvironmentRequired => 1
    case ReasonRequired => 2
    case DecisionSigned(_) => 3
    case TargetSigned => 4
  }

  /** The objection holds, and none that comes before it does. */
  ghost predicate FirstObjection(s: Submission, why: Denial) {
    Objection(s, why) && forall other :: Objection(s, other) ==> Rank(why) <= Rank(other)
  }

  /** `Handle`. */
  method Handle(s: Submission) returns (r: Response)
    ensures r == Sign(s)
    ensures r.Allowed? <==> s.operation == Delete
    ensures r.Errored? <==> s.operation != Delete && !s.sent.Decoded?
    ensures r.Denied? || r.Patched? <==> s.operation != Delete && s.sent.Decoded?
    ensures r.Denied? ==> FirstObjection(s, r.why)
    ensures r.Patched? ==> forall why :: !Objection(s, why)
    ensures r.Patched? ==>
              && WellSigned(r.spec)
              && r.spec == s.sent.spec.(requestor := r.spec.requestor, decidedBy := r.spec.decidedBy,
                 decidedByGroups := r.spec.decidedByGroups, decidedAt := r.spec.decidedAt)
              && (s.operation == Create ==> r.spec.requestor == s.user.name)
              && (s.operation == Update && s.before.Decoded? ==> r.spec.requestor == s.before.spec.requestor)
              && (s.operation == Update && s.before.Garbled? ==> r.spec.requestor == s.before.left.requestor)
              && (s.operation == Connect || (s.operation == Update && s.before.Absent?) ==> r.spec.requestor == "")
              && (r.spec.decision != "" && !AlreadyDecided(s) ==> Signs(Edit(s.sent, s.user, s.now), r.spec))
              && (AlreadyDecided(s) ==> SameSignature(s.before.spec, r.spec))
  {
    if s.operation == Delete { return Allowed; }
    if !s.sent.Decoded? { return Errored; }
    var p := s.sent.spec;
    if p.model == "" || p.version == "" { return Denied(ModelRequired); }
    if p.target == "" { return Denied(EnvironmentRequired); }
    var hasOld := s.operation == Update && !s.before.Absent?;
    var prior := if !hasOld then NOTHING else if s.before.Decoded? then s.before.spec else s.before.left;
    if s.before.Garbled? { hasOld := false; }
    if p.decision == REJECT && Blank(p.reason) { return Denied(ReasonRequired); }
    if hasOld && prior.decision != "" && p.decision != prior.decision {
      return Denied(DecisionSigned(prior.decidedBy));
    }
    if hasOld && prior.decision != "" && p.target != prior.target {
      return Denied(TargetSigned);
    }
    var signed := p;
    if s.operation == Create {
      signed := signed.(requestor := s.user.name);
    } else {
      signed := signed.(requestor := prior.requestor);
    }
    if signed.decision == "" {
      signed := signed.(decidedBy := "", decidedByGroups := [], decidedAt := None);
    } else if hasOld && prior.decision != "" {
      signed := signed.(decidedBy := prior.decidedBy, decidedByGroups := prior.decidedByGroups,
        decidedAt := prior.decidedAt);
    } else {
      signed := signed.(decidedBy := s.user.name, decidedByGroups := s.user.groups, decidedAt := Some(s.now));
    }
    return Patched(signed);
  }

  // ---------- the life of one request ----------

  /** Somebody sends a new version of a stored request; what they send is theirs to choose. */
  datatype Edit = Edit(payload: Raw, user: User, now: Instant)

  function Submitted(stored: Spec, e: Edit): Submission {
    Submission(Update, e.payload, Decoded(stored), e.user, e.now)
  }

  /** What the API server stores of a creation or an update: what was sent, patched, if it is let through. */
  function Lands(sent: Raw, r: Response): Option<Spec> {
    match r
    case Patched(spec) => Some(spec)
    case Allowed => if sent.Decoded? then Some(sent.spec) else None
    case _ => None
  }

  function AfterEdit(stored: Spec, e: Edit): Spec {
    var landed := Lands(e.payload, Sign(Submitted(stored, e)));
    if landed.Some? then landed.value else stored
  }

  function AfterEdits(stored: Spec, edits: seq<Edit>): Spec {
    if |edits| == 0 then stored else AfterEdit(AfterEdits(stored, edits[..|edits| - 1]), edits[|edits| - 1])
  }

  /** The five fields a signature is made of. */
  predicate SameSignature(a: Spec, b: Spec) {
    && a.decision == b.decision && a.decidedBy == b.decidedBy && a.decidedByGroups == b.decidedByGroups
    && a.decidedAt == b.decidedAt && a.target == b.target
  }

  /** An undecided request names nobody as its decider, and a rejection says why. */
  predicate WellSigned(s: Spec) {
    && s.model != "" && s.version != "" && s.target != ""
    && (s.decision == "" ==> s.decidedBy == "" && s.decidedByGroups == [] && s.decidedAt == None)
    && (s.decision == REJECT ==> !Blank(s.reason))
  }

  lemma SigningSignsWell(s: Submission)
    requires Sign(s).Patched?
    ensures WellSigned(Sign(s).spec)
  {
  }

  /**
   Signed decisions are frozen. Once a stored request carries a decision, no sequence of updates, by
   anybody and with any payload, changes the decision, who made it, their groups, when, or the
   environment it was for; and the requestor never changes at all.
   */
  lemma {:induction false} DecisionIsFrozen(stored: Spec, edits: seq<Edit>)
    ensures stored.decision != "" ==> SameSignature(stored, AfterEdits(stored, edits))
    ensures AfterEdits(stored, edits).requestor == stored.requestor
    ensures WellSigned(stored) ==> WellSigned(AfterEdits(stored, edits))
  {
    if |edits| > 0 {
      var n := |edits| - 1;
      DecisionIsFrozen(stored, edits[..n]);
      var before := AfterEdits(stored, edits[..n]);
      if Sign(Submitted(before, edits[n])).Patched? { SigningSignsWell(Submitted(before, edits[n])); }
    }
  }

  /** The last specification that was sent and admitted, or the stored one if none was. */
  function LastAdmitted(stored: Spec, edits: seq<Edit>): Spec {
    if |edits| == 0 then stored
    else
      var n := |edits| - 1;
      if Lands(edits[n].payload, Sign(Submitted(AfterEdits(stored, edits[..n]), edits[n]))).Some?
      then edits[n].payload.spec
      else LastAdmitted(stored, edits[..n])
  }

  /**
   The model a request names is not part of the signature: it is whatever the last admitted edit names,
   decided or not. So a decision is still about the model it was signed for if and only if that edit
   names it.
   */
  lemma {:induction false} ModelIsWhateverWasLastSent(stored: Spec, edits: seq<Edit>)
    ensures AfterEdits(stored, edits).model == LastAdmitted(stored, edits).model
    ensures AfterEdits(stored, edits).version == LastAdmitted(stored, edits).version
  {
    if |edits| > 0 { ModelIsWhateverWasLastSent(stored, edits[..|edits| - 1]); }
  }

  /** The edit that signed: its sender is the decider, and they asked for this decision and target. */
  predicate Signs(e: Edit, s: Spec) {
    && e.payload.Decoded? && e.payload.spec.decision == s.decision && e.payload.spec.target == s.target
    && s.decidedBy == e.user.name && s.decidedByGroups == e.user.groups && s.decidedAt == Some(e.now)
  }

  /**
   A signature is the authenticated user's. If a request that was undecided ends up decided, one of
   the edits set the decision, and the decider recorded is whoever sent that edit, at that moment.
   */
  lemma {:induction false} DeciderIsTheSender(stored: Spec, edits: seq<Edit>) returns (k: nat)
    requires stored.decision == "" && AfterEdits(stored, edits).decision != ""
    ensures k < |edits| && Signs(edits[k], AfterEdits(stored, edits))
    ensures AfterEdits(stored, edits[..k]).decision == ""
  {
    var n := |edits| - 1;
    var before := AfterEdits(stored, edits[..n]);
    if before.decision == "" {
      k := n;
    } else {
      k := DeciderIsTheSender(stored, edits[..n]);
      assert edits[..n][..k] == edits[..k];
    }
  }

  /** A decision sent with the creation is signed by the creator, who is also the requestor. */
  lemma CreationSigns(s: Submission)
    requires s.operation == Create && Sign(s).Patched?
    ensures Sign(s).spec.requestor == s.user.name
    ensures Sign(s).spec.decision != "" ==> Signs(Edit(s.sent, s.user, s.now), Sign(s).spec)
  {
  }
}
