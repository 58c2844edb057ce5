/**
 Two concrete runs that end in an admission nobody signed for. In one a signature is used for a model its
 signer never named (internal/webhook/promotion.go freezes the decision and the target, and not the
 model). In the other a report that does not say who it is about is promoted for one model and serves
 another (internal/webhook/gate.go, reportDescribes).
 */
module PromotionLimits {
  import opened Wrappers
  import opened Text
  import opened Signing
  import opened Gating
  import opened Promotions
  import opened PromotionHistory

  lemma Advance(n: Names, trace: seq<Step>, w: World, s: Step, w': World)
    requires Execute(n, EMPTY, trace) == w && Apply(n, w, s) == w'
    ensures Execute(n, EMPTY, trace + [s]) == w'
  {
    var t := trace + [s];
    assert t[..|t| - 1] == trace && t[|t| - 1] == s;
    assert Execute(n, EMPTY, t) == ExecuteLast(n, EMPTY, t);
  }

  const REQUEST: Key := Key("team", "promote")
  const SIGNER: User := User("alice", [])
  const EDITOR: User := User("bob", [])

  /** An Approve of one model version for prod, as its signer sends it and as it is stored. */
  const SENT: Spec := Spec("a", "1", "prod", "", "", APPROVE, "", "", [], None)
  const SIGNED: Spec := SENT.(requestor := "alice", decidedBy := "alice", decidedAt := Some(1))
  const FOR_ANOTHER: Spec := SIGNED.(model := "b")

  function ReportOfB(n: Names): Key {
    Key("team", n.current("b", "1"))
  }

  /** The steps: sign for one model, scan another, rename the request, reconcile. */
  function MovingSteps(n: Names): seq<Step> {
    [Submit(REQUEST, Create, Edit(Decoded(SENT), SIGNER, 1)),
     Describe(ReportOfB(n), "b", "1", ""),
     Conclude(ReportOfB(n), 2, APPROVED, 5),
     Submit(REQUEST, Update, Edit(Decoded(FOR_ANOTHER), EDITOR, 9)),
     AddEnvironment(ReportOfB(n), 3, REQUEST, 1, FOR_ANOTHER)]
  }

  function SignedWorld(): World {
    World(map[REQUEST := Stored(Promotion(SIGNED, NO_STATUS), 1, 1)], map[], 1, {(REQUEST, 1, SIGNED)}, {}, {}, {}, [])
  }

  function DescribedWorld(n: Names): World {
    var r := Report("b", "1", "", "", None, []);
    SignedWorld().(reports := map[ReportOfB(n) := Stored(r, 2, 2)], revision := 2, seen := {(ReportOfB(n), r)})
  }

  function ScannedWorld(n: Names): World {
    var r := Report("b", "1", "", APPROVED, Some(5), []);
    DescribedWorld(n).(reports := map[ReportOfB(n) := Stored(r, 3, 2)], revision := 3,
    seen := DescribedWorld(n).seen + {(ReportOfB(n), r)})
  }

  function RenamedWorld(n: Names): World {
    ScannedWorld(n).(requests := map[REQUEST := Stored(Promotion(FOR_ANOTHER, NO_STATUS), 4, 1)], revision := 4,
    specs := {(REQUEST, 1, SIGNED), (REQUEST, 1, FOR_ANOTHER)})
  }

  lemma SignStep(n: Names)
    ensures Apply(n, EMPTY, MovingSteps(n)[0]) == SignedWorld()
  {
    assert {} + {(REQUEST, 1, SIGNED)} == {(REQUEST, 1, SIGNED)};
  }

  lemma DescribeStep(n: Names)
    ensures Apply(n, SignedWorld(), MovingSteps(n)[1]) == DescribedWorld(n)
  {
  }

  lemma ScanStep(n: Names)
    ensures Apply(n, DescribedWorld(n), MovingSteps(n)[2]) == ScannedWorld(n)
  {
  }

  lemma RenameStep(n: Names)
    ensures Apply(n, ScannedWorld(n), MovingSteps(n)[3]) == RenamedWorld(n)
  {
    assert Sign(Submitted(SIGNED, Edit(Decoded(FOR_ANOTHER), EDITOR, 9))) == Patched(FOR_ANOTHER);
  }

  lemma MovingRun(n: Names)
    ensures var trace := MovingSteps(n);
            && Execute(n, EMPTY, trace[..0]) == EMPTY
            && Execute(n, EMPTY, trace[..1]) == SignedWorld()
            && Execute(n, EMPTY, trace[..4]) == RenamedWorld(n)
            && Execute(n, EMPTY, trace) == Apply(n, RenamedWorld(n), trace[4])
  {
    var trace := MovingSteps(n);
    SignStep(n);
    Advance(n, [], EMPTY, trace[0], SignedWorld());
    assert trace[..1] == [] + [trace[0]] && trace[..0] == [];
    DescribeStep(n);
    Advance(n, trace[..1], SignedWorld(), trace[1], DescribedWorld(n));
    assert trace[..2] == trace[..1] + [trace[1]];
    ScanStep(n);
    Advance(n, trace[..2], DescribedWorld(n), trace[2], ScannedWorld(n));
    assert trace[..3] == trace[..2] + [trace[2]];
    RenameStep(n);
    Advance(n, trace[..3], ScannedWorld(n), trace[3], RenamedWorld(n));
    assert trace[..4] == trace[..3] + [trace[3]];
    Advance(n, trace[..4], RenamedWorld(n), trace[4], Apply(n, RenamedWorld(n), trace[4]));
    assert trace == trace[..4] + [trace[4]];
  }

  lemma SignsFirst(n: Names)
    ensures SignedAt(n, MovingSteps(n), 0, REQUEST, 1, FOR_ANOTHER)
  {
    MovingRun(n);
    assert Landing(EMPTY, MovingSteps(n)[0]) == Some(SIGNED);
  }

  lemma PromotesLast(n: Names)
    ensures PromotedAt(n, MovingSteps(n), 4, ReportOfB(n), 2, "prod")
  {
    MovingRun(n);
  }

  lemma PromoteStep(n: Names, g: Gate)
    requires g.maxReportAge <= 0 && g.same("prod", "prod")
    ensures var w := Apply(n, RenamedWorld(n), MovingSteps(n)[4]);
            && ReportOfB(n) in w.reports
            && Admits(g, w.reports[ReportOfB(n)].value, ModelRef("b", "1", "", "prod"), Require, 9)
  {
    SortMembers([] + ["prod"], "prod");
    assert Sort([] + ["prod"])[0] == "prod";
  }

  /**
   Model and version are not part of a signature, and this matters: a user signs an Approve of one
   model, somebody else renames the request, and a reconcile promotes the other model on that signature.
   The gate then admits the other model.
   */
  lemma SignatureMovesToAnotherModel(n: Names, g: Gate) returns (trace: seq<Step>)
    requires g.maxReportAge <= 0 && g.same("prod", "prod")
    ensures trace == MovingSteps(n) && trace[0].edit.payload.spec.model == "a"
    ensures PromotedAt(n, trace, 4, ReportOfB(n), 2, "prod") && trace[4].spec.model == "b"
    ensures SignedAt(n, trace, 0, REQUEST, 1, trace[4].spec) && trace[4].spec.decidedBy == SIGNER.name
    ensures var w := Execute(n, EMPTY, trace);
            && ReportOfB(n) in w.reports
            && Admits(g, w.reports[ReportOfB(n)].value, ModelRef("b", "1", "", "prod"), Require, 9)
  {
    trace := MovingSteps(n);
    MovingRun(n);
    SignsFirst(n);
    PromotesLast(n);
    PromoteStep(n, g);
  }

  // ---------- a report about nobody in particular ----------

  const UNNAMED: Report := Report("", "", "", APPROVED, Some(5), [])
  const SIGNED_LATER: Spec := SIGNED.(decidedAt := Some(6))

  function OldReport(n: Names): Key {
    Key("team", n.legacy("a", "1"))
  }

  /** The steps: a report left under an old name, an Approve for one of the models it may be about, a reconcile. */
  function UnnamedSteps(n: Names): seq<Step> {
    [LeaveReport(OldReport(n), UNNAMED),
     Submit(REQUEST, Create, Edit(Decoded(SENT), SIGNER, 6)),
     AddEnvironment(OldReport(n), 1, REQUEST, 2, SIGNED_LATER)]
  }

  function LeftWorld(n: Names): World {
    World(map[], map[OldReport(n) := Stored(UNNAMED, 1, 1)], 1, {}, {(OldReport(n), UNNAMED)}, {}, {}, [])
  }

  function AskedWorld(n: Names): World {
    LeftWorld(n).(requests := map[REQUEST := Stored(Promotion(SIGNED_LATER, NO_STATUS), 2, 2)], revision := 2,
    specs := {(REQUEST, 2, SIGNED_LATER)})
  }

  lemma UnnamedRun(n: Names)
    ensures var trace := UnnamedSteps(n);
            && Execute(n, EMPTY, trace[..2]) == AskedWorld(n)
            && Execute(n, EMPTY, trace) == Apply(n, AskedWorld(n), trace[2])
  {
    var trace := UnnamedSteps(n);
    assert {} + {(OldReport(n), UNNAMED)} == {(OldReport(n), UNNAMED)};
    Advance(n, [], EMPTY, trace[0], LeftWorld(n));
    assert trace[..1] == [] + [trace[0]];
    assert {} + {(REQUEST, 2, SIGNED_LATER)} == {(REQUEST, 2, SIGNED_LATER)};
    Advance(n, trace[..1], LeftWorld(n), trace[1], AskedWorld(n));
    assert trace[..2] == trace[..1] + [trace[1]];
    Advance(n, trace[..2], AskedWorld(n), trace[2], Apply(n, AskedWorld(n), trace[2]));
    assert trace == trace[..2] + [trace[2]];
  }

  lemma UnnamedPromoted(n: Names, g: Gate)
    requires g.maxReportAge <= 0 && g.same("prod", "prod")
    ensures var w := Apply(n, AskedWorld(n), UnnamedSteps(n)[2]);
            && OldReport(n) in w.reports && !Identified(w.reports[OldReport(n)].value)
            && forall m, v :: Admits(g, w.reports[OldReport(n)].value, ModelRef(m, v, "", "prod"), Require, 9)
                              && Describes(w.reports[OldReport(n)].value, ModelRef(m, v, "", "prod"))
  {
    assert LooksAt(n, REQUEST, SIGNED_LATER, OldReport(n));
    SortMembers([] + ["prod"], "prod");
    assert Sort([] + ["prod"])[0] == "prod";
  }

  /**
   A report without an identity serves every model whose names lead to it. Promoted on an Approve of one
   model, it makes the gate admit any other model into that environment: nothing in the report tells them
   apart. So `AdmissionImpliesPromotion` cannot do without its exception for such reports.
   */
  lemma UnnamedReportServesEveryModel(n: Names, g: Gate) returns (trace: seq<Step>)
    requires g.maxReportAge <= 0 && g.same("prod", "prod")
    ensures trace == UnnamedSteps(n) && PromotedAt(n, trace, 2, OldReport(n), 1, "prod")
    ensures trace[2].spec.model == "a" && trace[2].spec.version == "1"
    ensures var w := Execute(n, EMPTY, trace);
            && OldReport(n) in w.reports && !Identified(w.reports[OldReport(n)].value)
            && forall m, v :: Admits(g, w.reports[OldReport(n)].value, ModelRef(m, v, "", "prod"), Require, 9)
                              && Describes(w.reports[OldReport(n)].value, ModelRef(m, v, "", "prod"))
  {
    trace := UnnamedSteps(n);
    UnnamedRun(n);
    UnnamedPromoted(n, g);
  }
}
