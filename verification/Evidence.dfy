/**
 Evidence bundles (internal/evidence/bundle.go): one subject's excerpt of the audit chain, the
 producer's finding about the whole chain, and a digest over everything; and what a reader who
 has only the bundle can re-establish from it.
 */
module Evidence {
  import opened Wrappers
  import opened Text
  import opened Records
  import opened Preimages
  import opened HashChain = Chain
  import opened Protocol
  import opened ProtocolSafety
  import opened Guarantees

  const BUNDLE_VERSION: string := "cupel-evidence/v1"
  // The zero instant, which a caller leaves in place to mean "now".
  const ZERO_TIME: Time := Time(1, 1, 1, 0, 0, 0, 0)

  datatype Subject = Subject(model: string, version: string, uri: string, digest: string, namespace: string)

  datatype Scanner = Scanner(name: string, completed: bool, findings: nat)

  datatype Coverage = Coverage(requested: nat, completed: nat, incomplete: seq<string>, gaps: seq<string>)

  /** One row of the ATLAS table: a technique, and the scanners that speak to it. */
  datatype Technique = Technique(id: string, outOfScope: bool, evidence: seq<string>)

  datatype AuditSection = AuditSection(
    records: seq<Record>, recordsIntact: bool,
    checkpoint: Option<Checkpoint>, anchor: Option<Anchor>,
    chainValid: bool, chainLength: nat, present: bool, chainProblems: seq<Problem>)

  /** `P` is what a bundle carries without looking at it: verdict, findings, acceptances, frameworks. */
  datatype Bundle<P> = Bundle(
    schema: string, generatedAt: Time, producer: string, subject: Subject, payload: P,
    scanners: seq<Scanner>, coverage: Coverage, techniques: seq<string>,
    audit: AuditSection, digest: string)

  datatype Input<P> = Input(
    now: Time, producer: string, subject: Subject, payload: P,
    scanners: seq<Scanner>, gaps: seq<string>,
    chain: seq<Record>, checkpoint: Option<Checkpoint>, anchor: Option<Anchor>)

  datatype Doubt =
    | EditedSinceProduced(computed: string, carried: string)
    | EditedRecord(sequence: nat, found: string, claimed: string)
    | ChainDidNotVerify(length: nat, problems: seq<Problem>)
    | NoTrail
    | ScannersIncomplete(missing: int, requested: nat, incomplete: seq<string>)

  datatype Finding = Finding(
    valid: bool, digestMatches: bool, recordsIntact: bool, chainValid: bool, doubts: seq<Doubt>)

  // ---------- the excerpt ----------

  function SubjectKey(model: string, version: string): string {
    if version == "" then model else model + "/" + version
  }

  function Excerpt(chain: seq<Record>, subject: string): seq<Record> {
    if |chain| == 0 then []
    else Excerpt(chain[..|chain| - 1], subject)
         + if chain[|chain| - 1].subject == subject then [chain[|chain| - 1]] else []
  }

  /** These are the records of a chain about a subject: all of them, nothing else, in chain order. */
  ghost predicate TakenFrom(taken: seq<Record>, chain: seq<Record>, subject: string) {
    exists at :: PositionsOf(chain, subject, at) && |at| == |taken|
      && forall i :: 0 <= i < |at| ==> taken[i] == chain[at[i]]
  }

  method ExcerptFor(chain: seq<Record>, subject: string) returns (out: seq<Record>)
    ensures out == Excerpt(chain, subject)
    ensures TakenFrom(out, chain, subject)
  {
    ghost var at := ExcerptIsTheSubsequence(chain, subject);
    out := [];
    var i := 0;
    while i < |chain|
      invariant 0 <= i <= |chain|
      invariant out == Excerpt(chain[..i], subject)
    {
      assert chain[..i + 1][..i] == chain[..i];
      if chain[i].subject == subject { out := out + [chain[i]]; }
      i := i + 1;
    }
    assert chain[..i] == chain;
  }

  /** The positions in a chain that concern a subject, in order: what an excerpt is taken from. */
  ghost predicate PositionsOf(chain: seq<Record>, subject: string, at: seq<nat>) {
    && (forall i, j :: 0 <= i < j < |at| ==> at[i] < at[j])
    && (forall i :: 0 <= i < |at| ==> at[i] < |chain|)
    && (forall k :: 0 <= k < |chain| ==> (k in at <==> chain[k].subject == subject))
  }

  /**
   The excerpt is exactly the subject's records in chain order: an order-preserving subsequence that
   leaves none of them out and takes nothing else in.
   */
  lemma {:induction false} ExcerptIsTheSubsequence(chain: seq<Record>, subject: string) returns (at: seq<nat>)
    ensures PositionsOf(chain, subject, at)
    ensures |at| == |Excerpt(chain, subject)|
    ensures forall i :: 0 <= i < |at| ==> Excerpt(chain, subject)[i] == chain[at[i]]
  {
    at := [];
    if |chain| > 0 {
      var n := |chain| - 1;
      var front := ExcerptIsTheSubsequence(chain[..n], subject);
      at := if chain[n].subject == subject then front + [n] else front;
      PositionsGrow(chain, subject, front, at);
      TakenGrows(chain, subject, Excerpt(chain[..n], subject), front, at);
    }
  }

  lemma TakenGrows(chain: seq<Record>, subject: string, taken: seq<Record>, front: seq<nat>, at: seq<nat>)
    requires |chain| > 0 && |taken| == |front|
    requires forall i :: 0 <= i < |front| ==> front[i] < |chain| - 1 && taken[i] == chain[..|chain| - 1][front[i]]
    requires at == if chain[|chain| - 1].subject == subject then front + [|chain| - 1] else front
    ensures var all := taken + if chain[|chain| - 1].subject == subject then [chain[|chain| - 1]] else [];
            |at| == |all| && forall i :: 0 <= i < |at| ==> at[i] < |chain| && all[i] == chain[at[i]]
  {
  }

  lemma PositionsGrow(chain: seq<Record>, subject: string, front: seq<nat>, at: seq<nat>)
    requires |chain| > 0 && PositionsOf(chain[..|chain| - 1], subject, front)
    requires at == if chain[|chain| - 1].subject == subject then front + [|chain| - 1] else front
    ensures PositionsOf(chain, subject, at)
  {
    var n := |chain| - 1;
    forall k | 0 <= k < |chain| ensures k in at <==> chain[k].subject == subject {
      if k < n { assert k in front <==> chain[..n][k].subject == subject; }
    }
  }

  predicate AllIntact(h: Hash, records: seq<Record>) {
    forall i :: 0 <= i < |records| ==> records[i].hash == h(records[i])
  }

  method RecordsIntact(digest: Digest, ghost h: Hash, records: seq<Record>) returns (intact: bool)
    requires Implements(h, digest)
    ensures intact <==> AllIntact(h, records)
  {
    var i := 0;
    while i < |records|
      invariant 0 <= i <= |records|
      invariant forall j :: 0 <= j < i ==> records[j].hash == h(records[j])
    {
      var got := ComputeHash(digest, h, records[i]);
      if got != records[i].hash { return false; }
      i := i + 1;
    }
    return true;
  }

  /** A chain that verifies as a whole forces every excerpt of it to be intact. */
  lemma ValidChainHasIntactExcerpts(
    h: Hash, chain: seq<Record>, anchor: Option<Anchor>, cp: Option<Checkpoint>, subject: string)
    requires Verified(h, chain, anchor, cp).valid
    ensures AllIntact(h, Excerpt(chain, subject))
  {
    ValidIffLinked(h, chain, anchor, cp);
    var at := ExcerptIsTheSubsequence(chain, subject);
    forall i | 0 <= i < |at| ensures chain[at[i]].hash == h(chain[at[i]]) {
      assert LinkAt(h, chain, at[i], Offset(anchor), Start(anchor));
    }
  }

  // ---------- coverage and controls ----------

  function NamesWhere(scanners: seq<Scanner>, completed: bool): seq<string> {
    if |scanners| == 0 then []
    else NamesWhere(scanners[..|scanners| - 1], completed)
         + if scanners[|scanners| - 1].completed == completed then [scanners[|scanners| - 1].name] else []
  }

  function CoverageOf(scanners: seq<Scanner>, gaps: seq<string>): Coverage {
    Coverage(|scanners|, |NamesWhere(scanners, true)|, Sort(NamesWhere(scanners, false)), gaps)
  }

  /**
   The coverage counts the scanners that were asked for and those that completed, and names the others,
   each as often as it was asked for, in byte order.
   */
  ghost predicate Covers(c: Coverage, scanners: seq<Scanner>, gaps: seq<string>) {
    && c.requested == |scanners| && c.gaps == gaps
    && c.completed == |set i | 0 <= i < |scanners| && scanners[i].completed|
    && InOrder(c.incomplete)
    && forall name :: multiset(c.incomplete)[name] ==
         |set i | 0 <= i < |scanners| && !scanners[i].completed && scanners[i].name == name|
  }

  lemma CoverageCovers(scanners: seq<Scanner>, gaps: seq<string>)
    ensures Covers(CoverageOf(scanners, gaps), scanners, gaps)
  {
    var incomplete := NamesWhere(scanners, false);
    SortIsSorting(incomplete);
    SortMembers(incomplete, "");
    CountCompleted(scanners);
    forall name
      ensures multiset(Sort(incomplete))[name] ==
              |set i | 0 <= i < |scanners| && !scanners[i].completed && scanners[i].name == name|
    {
      CountIncomplete(scanners, name);
      assert IncompleteAs(scanners, name) ==
             set i | 0 <= i < |scanners| && !scanners[i].completed && scanners[i].name == name;
    }
  }

  lemma {:induction false} CountCompleted(scanners: seq<Scanner>)
    ensures |NamesWhere(scanners, true)| == |set i | 0 <= i < |scanners| && scanners[i].completed|
  {
    if |scanners| > 0 {
      var n := |scanners| - 1;
      CountCompleted(scanners[..n]);
      var before := set i | 0 <= i < n && scanners[..n][i].completed;
      var all := set i | 0 <= i < |scanners| && scanners[i].completed;
      assert all == before + if scanners[n].completed then {n} else {};
    }
  }

  lemma OneMoreName(names: seq<string>, s: Scanner, name: string)
    ensures multiset(names + if s.completed == false then [s.name] else [])[name] ==
            multiset(names)[name] + if !s.completed && s.name == name then 1 else 0
  {
    var more := if s.completed == false then [s.name] else [];
    assert multiset(names + more) == multiset(names) + multiset(more);
  }

  function IncompleteAs(scanners: seq<Scanner>, name: string): set<int> {
    set i | 0 <= i < |scanners| && !scanners[i].completed && scanners[i].name == name
  }

  lemma OneMoreIncomplete(scanners: seq<Scanner>, name: string)
    requires |scanners| > 0
    ensures var n := |scanners| - 1;
            |IncompleteAs(scanners, name)| ==
            |IncompleteAs(scanners[..n], name)| + if !scanners[n].completed && scanners[n].name == name then 1 else 0
  {
    var n := |scanners| - 1;
    assert IncompleteAs(scanners, name) ==
           IncompleteAs(scanners[..n], name) + if !scanners[n].completed && scanners[n].name == name then {n} else {};
  }

  lemma {:induction false} CountIncomplete(scanners: seq<Scanner>, name: string)
    ensures multiset(NamesWhere(scanners, false))[name] == |IncompleteAs(scanners, name)|
  {
    if |scanners| > 0 {
      var n := |scanners| - 1;
      CountIncomplete(scanners[..n], name);
      OneMoreIncomplete(scanners, name);
      OneMoreName(NamesWhere(scanners[..n], false), scanners[n], name);
    }
  }

  method BuildCoverage(scanners: seq<Scanner>, gaps: seq<string>) returns (c: Coverage)
    ensures c == CoverageOf(scanners, gaps)
    ensures Covers(c, scanners, gaps)
  {
    CoverageCovers(scanners, gaps);
    var completed, incomplete := 0, [];
    var i := 0;
    while i < |scanners|
      invariant 0 <= i <= |scanners|
      invariant completed == |NamesWhere(scanners[..i], true)|
      invariant incomplete == NamesWhere(scanners[..i], false)
    {
      assert scanners[..i + 1][..i] == scanners[..i];
      if scanners[i].completed {
        completed := completed + 1;
      } else {
        incomplete := incomplete + [scanners[i].name];
      }
      i := i + 1;
    }
    assert scanners[..i] == scanners;
    return Coverage(|scanners|, completed, Sort(incomplete), gaps);
  }

  /** Every scanner requested is counted as completed or named as incomplete, in byte order. */
  lemma CoverageAccountsForEveryScanner(scanners: seq<Scanner>, gaps: seq<string>)
    ensures var c := CoverageOf(scanners, gaps);
            && c.completed + |c.incomplete| == c.requested
            && InOrder(c.incomplete)
            && multiset(c.incomplete) == multiset(NamesWhere(scanners, false))
  {
    NamesAddUp(scanners);
    SortIsSorting(NamesWhere(scanners, false));
    SortMembers(NamesWhere(scanners, false), "");
  }

  lemma {:induction false} NamesAddUp(scanners: seq<Scanner>)
    ensures |NamesWhere(scanners, true)| + |NamesWhere(scanners, false)| == |scanners|
  {
    if |scanners| > 0 { NamesAddUp(scanners[..|scanners| - 1]); }
  }

  /** Some scanner that completed is named as evidence for an in-scope technique. */
  predicate SpokenTo(t: Technique, ran: set<string>) {
    !t.outOfScope && exists e :: e in t.evidence && e in ran
  }

  function Ran(scanners: seq<Scanner>): set<string> {
    set s | s in scanners && s.completed :: s.name
  }

  function EvidencedIds(table: seq<Technique>, ran: set<string>): set<string> {
    set t | t in table && SpokenTo(t, ran) :: t.id
  }

  /** A scanner that was asked for and completed is named as evidence for an in-scope technique with this id. */
  ghost predicate Evidenced(table: seq<Technique>, scanners: seq<Scanner>, id: string) {
    exists t, s :: t in table && s in scanners && t.id == id && !t.outOfScope && s.completed && s.name in t.evidence
  }

  lemma ClaimsWhatRan(table: seq<Technique>, scanners: seq<Scanner>)
    ensures var ids := SortedKeys(EvidencedIds(table, Ran(scanners)));
            StrictlySorted(ids) && forall id :: id in ids <==> Evidenced(table, scanners, id)
  {
    var claimed := EvidencedIds(table, Ran(scanners));
    SortedKeysEnumerates(claimed);
    forall id ensures id in claimed <==> Evidenced(table, scanners, id) {
      if id in claimed {
        var t :| t in table && SpokenTo(t, Ran(scanners)) && t.id == id;
        var e :| e in t.evidence && e in Ran(scanners);
        var s :| s in scanners && s.completed && s.name == e;
      }
      if Evidenced(table, scanners, id) {
        var t, s :| t in table && s in scanners && t.id == id && !t.outOfScope && s.completed && s.name in t.evidence;
        assert s.name in Ran(scanners);
        assert SpokenTo(t, Ran(scanners));
      }
    }
  }

  method CollectRan(scanners: seq<Scanner>) returns (ran: set<string>)
    ensures ran == Ran(scanners)
  {
    ran := {};
    var i := 0;
    while i < |scanners|
      invariant 0 <= i <= |scanners|
      invariant ran == Ran(scanners[..i])
    {
      assert scanners[..i + 1] == scanners[..i] + [scanners[i]];
      if scanners[i].completed { ran := ran + {scanners[i].name}; }
      i := i + 1;
    }
    assert scanners[..i] == scanners;
  }

  /** `buildControls`: claim a technique exactly when a scanner that really ran speaks to it. */
  method BuildControls(table: seq<Technique>, scanners: seq<Scanner>) returns (ids: seq<string>)
    ensures ids == SortedKeys(EvidencedIds(table, Ran(scanners)))
    ensures StrictlySorted(ids) && forall id :: id in ids <==> Evidenced(table, scanners, id)
  {
    ClaimsWhatRan(table, scanners);
    var ran := CollectRan(scanners);
    ids := [];
    var i := 0;
    while i < |table|
      invariant 0 <= i <= |table| && Distinct(ids)
      invariant forall id :: id in ids <==> id in EvidencedIds(table[..i], ran)
    {
      var before := ids;
      var t := table[i];
      assert table[..i + 1] == table[..i] + [t];
      if !t.outOfScope {
        var j := 0;
        while j < |t.evidence|
          invariant 0 <= j <= |t.evidence| && Distinct(ids)
          invariant forall id :: id in ids <==>
                      id in before || (id == t.id && exists e :: e in t.evidence[..j] && e in ran)
        {
          assert t.evidence[..j + 1] == t.evidence[..j] + [t.evidence[j]];
          if t.evidence[j] in ran && t.id !in ids { ids := ids + [t.id]; }
          j := j + 1;
        }
        assert t.evidence[..j] == t.evidence;
      }
      i := i + 1;
    }
    assert table[..i] == table;
    SortOfEnumeration(ids, EvidencedIds(table, ran));
    ids := Sort(ids);
  }

  /**
   What a reader gets from checking hashes without links. Take a valid chain whose event types are of
   one line: a record that is intact and carries the hash of one of the chain's is that record, to the
   second and whatever link it shows, unless the hash collides between the two.
   */
  lemma IntactRecordsAreTheChains(
    h: Hash, digest: Digest, chain: seq<Record>, anchor: Option<Anchor>, cp: Option<Checkpoint>,
    shown: seq<Record>, i: nat, k: nat)
    requires Implements(h, digest) && Clean(h) && '\n' !in Start(anchor) && Verified(h, chain, anchor, cp).valid
    requires AllIntact(h, shown) && i < |shown| && k < |chain| && shown[i].hash == chain[k].hash
    requires '\n' !in chain[k].kind
    ensures ToTheSecond(shown[i]) == ToTheSecond(chain[k]) || Collision(h, [shown[i]], [chain[k]])
  {
    ValidIffLinked(h, chain, anchor, cp);
    LinkIsClean(h, chain, Offset(anchor), Start(anchor), k);
    assert LinkAt(h, chain, k, Offset(anchor), Start(anchor));
    OneLineTypeAndLinkSuffice(chain[k], shown[i]);
    if Canonical(shown[i]) == Canonical(chain[k]) {
      assert ToTheSecond(shown[i]) == Content(shown[i]).(hash := shown[i].hash);
      assert ToTheSecond(chain[k]) == Content(chain[k]).(hash := chain[k].hash);
    } else {
      assert CollisionAt(h, [shown[i]], [chain[k]], 0);
    }
  }

  // ---------- building and verifying ----------

  /** The digest of a bundle with its digest field cleared. `render` is its JSON encoding. */
  function DigestOf<P>(digest: Digest, render: Bundle<P> -> string, b: Bundle<P>): string {
    "sha256:" + digest(render(b.(digest := "")))
  }

  function SectionOf<P>(h: Hash, input: Input<P>): AuditSection {
    var whole := Verified(h, input.chain, input.anchor, input.checkpoint);
    var excerpt := Excerpt(input.chain, SubjectKey(input.subject.model, input.subject.version));
    AuditSection(excerpt, AllIntact(h, excerpt), input.checkpoint, input.anchor,
      whole.valid, whole.length, |excerpt| > 0, whole.problems)
  }

  /** A bundle is what was produced from an input, at a moment read off the clock if none was given. */
  ghost predicate Produced<P>(
    digest: Digest, h: Hash, render: Bundle<P> -> string, table: seq<Technique>, input: Input<P>, clock: Time,
    b: Bundle<P>)
  {
    && b.schema == BUNDLE_VERSION && b.producer == input.producer
    && b.generatedAt == (if Truncate(input.now) == ZERO_TIME then Truncate(clock) else Truncate(input.now))
    && b.subject == input.subject && b.payload == input.payload && b.scanners == input.scanners
    && b.coverage == CoverageOf(input.scanners, input.gaps)
    && b.techniques == SortedKeys(EvidencedIds(table, Ran(input.scanners)))
    && b.audit == SectionOf(h, input)
    && b.digest == DigestOf(digest, render, b)
  }

  /** The section shows the subject's records and says whether each of them is what it should be. */
  ghost predicate ShowsExcerpt<P>(h: Hash, input: Input<P>, a: AuditSection) {
    && TakenFrom(a.records, input.chain,
                 if input.subject.version == "" then input.subject.model
                 else input.subject.model + "/" + input.subject.version)
    && (a.present <==> a.records != [])
    && (a.recordsIntact <==> forall i :: 0 <= i < |a.records| ==> a.records[i].hash == h(a.records[i]))
  }

  /** And it says whether the chain as a whole is, and if not what is wrong with it. */
  ghost predicate ReportsChain(
    h: Hash, chain: seq<Record>, offset: nat, start: string, cp: Option<Checkpoint>, a: AuditSection)
  {
    var head := HeadAfter(chain, start);
    && a.chainLength == offset + |chain|
    && (a.chainValid <==> Linked(h, chain, offset, start) && Satisfies(a.chainLength, head, cp))
    && forall p :: p in a.chainProblems <==>
         SomewhereWrong(h, chain, offset, start, p) || (cp.Some? && MissedBy(a.chainLength, head, cp.value, p))
  }

  lemma SectionReports(
    h: Hash, chain: seq<Record>, anchor: Option<Anchor>, cp: Option<Checkpoint>, v: Verification, a: AuditSection)
    requires v == Verified(h, chain, anchor, cp)
    requires a.chainValid == v.valid && a.chainLength == v.length && a.chainProblems == v.problems
    ensures ReportsChain(h, chain, Offset(anchor), Start(anchor), cp, a)
  {
    ValidIffLinked(h, chain, anchor, cp);
    ProblemsAre(h, chain, Offset(anchor), Start(anchor), Offset(anchor) + |chain|, HeadAfter(chain, Start(anchor)), cp);
  }

  method BuildAudit<P>(digest: Digest, ghost h: Hash, input: Input<P>) returns (section: AuditSection)
    requires Implements(h, digest)
    ensures section == SectionOf(h, input) && ShowsExcerpt(h, input, section)
  {
    var whole := VerifyFrom(digest, h, input.chain, input.anchor, input.checkpoint);
    var excerpt := ExcerptFor(input.chain, SubjectKey(input.subject.model, input.subject.version));
    var intact := RecordsIntact(digest, h, excerpt);
    section := AuditSection(excerpt, intact, input.checkpoint, input.anchor,
      whole.valid, whole.length, |excerpt| > 0, whole.problems);
  }

  method Build<P>(
    digest: Digest, ghost h: Hash, render: Bundle<P> -> string, table: seq<Technique>, input: Input<P>, clock: Time)
    returns (b: Bundle<P>)
    requires Implements(h, digest)
    ensures Produced(digest, h, render, table, input, clock, b)
    ensures b.schema == "cupel-evidence/v1" && b.producer == input.producer
    ensures b.subject == input.subject && b.payload == input.payload && b.scanners == input.scanners
    ensures b.generatedAt == if input.now.(nanos := 0) == ZERO_TIME then clock.(nanos := 0) else input.now.(nanos := 0)
    ensures Covers(b.coverage, input.scanners, input.gaps)
    ensures StrictlySorted(b.techniques) && forall id :: id in b.techniques <==> Evidenced(table, input.scanners, id)
    ensures ShowsExcerpt(h, input, b.audit)
    ensures ReportsChain(h, input.chain, Offset(input.anchor), Start(input.anchor), input.checkpoint, b.audit)
    ensures b.audit.checkpoint == input.checkpoint && b.audit.anchor == input.anchor
    ensures b.digest == "sha256:" + digest(render(b.(digest := "")))
  {
    var generatedAt := Truncate(input.now);
    if generatedAt == ZERO_TIME { generatedAt := Truncate(clock); }
    var coverage := BuildCoverage(input.scanners, input.gaps);
    var techniques := BuildControls(table, input.scanners);
    var section := BuildAudit(digest, h, input);
    SectionReports(h, input.chain, input.anchor, input.checkpoint,
      Verified(h, input.chain, input.anchor, input.checkpoint), section);
    b := Bundle(BUNDLE_VERSION, generatedAt, input.producer, input.subject, input.payload,
      input.scanners, coverage, techniques, section, "");
    b := b.(digest := DigestOf(digest, render, b));
  }

  function RecordDoubts(h: Hash, records: seq<Record>): seq<Doubt> {
    if |records| == 0 then []
    else
      var r := records[|records| - 1];
      RecordDoubts(h, records[..|records| - 1])
      + if h(r) != r.hash then [EditedDoubt(h, r)] else []
  }

  /** One doubt for each record that does not hash to what it carries, in the order they are shown. */
  ghost predicate EditedIn(h: Hash, records: seq<Record>, doubts: seq<Doubt>) {
    exists at :: EditedAt(h, records, doubts, at)
  }

  ghost predicate EditedAt(h: Hash, records: seq<Record>, doubts: seq<Doubt>, at: seq<nat>) {
    && |at| == |doubts|
    && (forall i, j :: 0 <= i < j < |at| ==> at[i] < at[j])
    && (forall i :: 0 <= i < |at| ==> at[i] < |records| && doubts[i] == EditedDoubt(h, records[at[i]]))
    && (forall k :: 0 <= k < |records| ==> (k in at <==> records[k].hash != h(records[k])))
  }

  function EditedDoubt(h: Hash, r: Record): Doubt {
    EditedRecord(r.sequence, h(r), r.hash)
  }

  lemma {:induction false} EditedInOrder(h: Hash, records: seq<Record>) returns (at: seq<nat>)
    ensures EditedAt(h, records, RecordDoubts(h, records), at)
  {
    at := [];
    if |records| > 0 {
      var n := |records| - 1;
      var front := EditedInOrder(h, records[..n]);
      at := if h(records[n]) != records[n].hash then front + [n] else front;
      EditedGrows(h, records[..n], records, RecordDoubts(h, records[..n]), front, at);
    }
  }

  lemma EditedGrows(
    h: Hash, prior: seq<Record>, records: seq<Record>, before: seq<Doubt>, front: seq<nat>, at: seq<nat>)
    requires |records| > 0 && prior == records[..|records| - 1] && EditedAt(h, prior, before, front)
    requires var r := records[|records| - 1]; at == if h(r) != r.hash then front + [|records| - 1] else front
    ensures var r := records[|records| - 1];
            EditedAt(h, records, before + if h(r) != r.hash then [EditedDoubt(h, r)] else [], at)
  {
    var r := records[|records| - 1];
    if h(r) != r.hash {
      OneMoreEdited(h, prior, r, before, front);
      assert records == prior + [r];
    } else {
      NoneMoreEdited(h, prior, r, before, front);
      assert records == prior + [r] && before + [] == before;
    }
  }

  lemma OneMoreEdited(h: Hash, prior: seq<Record>, r: Record, before: seq<Doubt>, front: seq<nat>)
    requires EditedAt(h, prior, before, front) && h(r) != r.hash
    ensures EditedAt(h, prior + [r], before + [EditedDoubt(h, r)], front + [|prior|])
  {
    var records, at := prior + [r], front + [|prior|];
    forall k | 0 <= k < |records| ensures k in at <==> records[k].hash != h(records[k]) {
      if k < |prior| { assert k in front <==> prior[k].hash != h(prior[k]); }
    }
  }

  lemma NoneMoreEdited(h: Hash, prior: seq<Record>, r: Record, before: seq<Doubt>, front: seq<nat>)
    requires EditedAt(h, prior, before, front) && h(r) == r.hash
    ensures EditedAt(h, prior + [r], before, front)
  {
    var records := prior + [r];
    forall k | 0 <= k < |records| ensures k in front <==> records[k].hash != h(records[k]) {
      if k < |prior| { assert k in front <==> prior[k].hash != h(prior[k]); }
    }
  }

  /** What `Verify` reports of a bundle. */
  function Checked<P>(digest: Digest, h: Hash, render: Bundle<P> -> string, b: Bundle<P>): Finding {
    var want := DigestOf(digest, render, b);
    var a, c := b.audit, b.coverage;
    Finding(
      want == b.digest && AllIntact(h, a.records) && a.chainValid,
      want == b.digest, AllIntact(h, a.records), a.chainValid,
      [] + (if want != b.digest then [EditedSinceProduced(want, b.digest)] else [])
      + RecordDoubts(h, a.records)
      + (if !a.chainValid then [ChainDidNotVerify(a.chainLength, a.chainProblems)] else [])
      + (if |a.records| == 0 then [NoTrail] else [])
      + (if c.completed < c.requested
         then [ScannersIncomplete(c.requested - c.completed, c.requested, c.incomplete)] else []))
  }

  method CheckRecords(digest: Digest, ghost h: Hash, records: seq<Record>) returns (intact: bool, doubts: seq<Doubt>)
    requires Implements(h, digest)
    ensures intact <==> AllIntact(h, records)
    ensures doubts == RecordDoubts(h, records)
  {
    intact, doubts := true, [];
    var i := 0;
    while i < |records|
      invariant 0 <= i <= |records|
      invariant intact <==> forall j :: 0 <= j < i ==> records[j].hash == h(records[j])
      invariant doubts == RecordDoubts(h, records[..i])
    {
      assert records[..i + 1][..i] == records[..i];
      var got := ComputeHash(digest, h, records[i]);
      if got != records[i].hash {
        intact := false;
        doubts := doubts + [EditedRecord(records[i].sequence, got, records[i].hash)];
      }
      i := i + 1;
    }
    assert records[..i] == records;
  }

  // What it says of the three tests, and what there is to weigh, in order.
  lemma CheckedMeans<P>(digest: Digest, h: Hash, render: Bundle<P> -> string, b: Bundle<P>)
    ensures var v, want := Checked(digest, h, render, b), "sha256:" + digest(render(b.(digest := "")));
            && (v.digestMatches <==> b.digest == want)
            && v.chainValid == b.audit.chainValid
            && (v.recordsIntact <==>
                forall i :: 0 <= i < |b.audit.records| ==> b.audit.records[i].hash == h(b.audit.records[i]))
            && (v.valid <==> v.digestMatches && v.recordsIntact && v.chainValid)
            && v.doubts ==
               (if b.digest != want then [EditedSinceProduced(want, b.digest)] else [])
               + RecordDoubts(h, b.audit.records)
               + (if !b.audit.chainValid
                  then [ChainDidNotVerify(b.audit.chainLength, b.audit.chainProblems)] else [])
               + (if b.audit.records == [] then [NoTrail] else [])
               + (if b.coverage.completed < b.coverage.requested
                  then [ScannersIncomplete(b.coverage.requested - b.coverage.completed, b.coverage.requested,
                                           b.coverage.incomplete)]
                  else [])
  {
  }

  /** `Verify`. */
  method Verify<P>(digest: Digest, ghost h: Hash, render: Bundle<P> -> string, b: Bundle<P>)
    returns (v: Finding, ghost edited: seq<Doubt>)
    requires Implements(h, digest)
    ensures v == Checked(digest, h, render, b)
    ensures v.digestMatches <==> b.digest == "sha256:" + digest(render(b.(digest := "")))
    ensures v.recordsIntact <==>
            forall i :: 0 <= i < |b.audit.records| ==> b.audit.records[i].hash == h(b.audit.records[i])
    ensures v.chainValid == b.audit.chainValid
    ensures v.valid <==> v.digestMatches && v.recordsIntact && v.chainValid
    ensures EditedIn(h, b.audit.records, edited)
    ensures v.doubts ==
            (if b.digest != "sha256:" + digest(render(b.(digest := "")))
             then [EditedSinceProduced("sha256:" + digest(render(b.(digest := ""))), b.digest)] else [])
            + edited
            + (if !b.audit.chainValid then [ChainDidNotVerify(b.audit.chainLength, b.audit.chainProblems)] else [])
            + (if b.audit.records == [] then [NoTrail] else [])
            + (if b.coverage.completed < b.coverage.requested
               then [ScannersIncomplete(b.coverage.requested - b.coverage.completed, b.coverage.requested,
                                        b.coverage.incomplete)]
               else [])
  {
    v, edited := Check(digest, h, render, b);
    CheckedMeans(digest, h, render, b);
    ghost var at := EditedInOrder(h, b.audit.records);
  }

  method Check<P>(digest: Digest, ghost h: Hash, render: Bundle<P> -> string, b: Bundle<P>)
    returns (v: Finding, ghost edited: seq<Doubt>)
    requires Implements(h, digest)
    ensures v == Checked(digest, h, render, b)
    ensures edited == RecordDoubts(h, b.audit.records)
  {
    var want := DigestOf(digest, render, b);
    var intact, found := CheckRecords(digest, h, b.audit.records);
    edited := found;
    var doubts := Note([], want != b.digest, EditedSinceProduced(want, b.digest));
    doubts := doubts + found;
    doubts := Note(doubts, !b.audit.chainValid, ChainDidNotVerify(b.audit.chainLength, b.audit.chainProblems));
    doubts := Note(doubts, |b.audit.records| == 0, NoTrail);
    doubts := Note(doubts, b.coverage.completed < b.coverage.requested,
      ScannersIncomplete(b.coverage.requested - b.coverage.completed, b.coverage.requested, b.coverage.incomplete));
    v := Finding(want == b.digest && intact && b.audit.chainValid,
      want == b.digest, intact, b.audit.chainValid, doubts);
  }

  // One thing a reader should weigh, if it holds.
  method Note(doubts: seq<Doubt>, holds: bool, d: Doubt) returns (r: seq<Doubt>)
    ensures r == doubts + if holds then [d] else []
  {
    r := doubts;
    if holds { r := r + [d]; }
  }

  /**
   The round trip: for every input, the bundle built from it verifies if and only if the whole
   chain did; so a bundle that does not verify was either edited or honest about its chain.
   */
  lemma EvidenceRoundTrip<P>(
    digest: Digest, h: Hash, render: Bundle<P> -> string, table: seq<Technique>, input: Input<P>, clock: Time,
    b: Bundle<P>)
    requires Produced(digest, h, render, table, input, clock, b)
    ensures Checked(digest, h, render, b).valid <==> Verified(h, input.chain, input.anchor, input.checkpoint).valid
  {
    if Verified(h, input.chain, input.anchor, input.checkpoint).valid {
      ValidChainHasIntactExcerpts(h, input.chain, input.anchor, input.checkpoint,
        SubjectKey(input.subject.model, input.subject.version));
    }
  }

  lemma {:induction false} IntactMeansNoDoubts(h: Hash, records: seq<Record>)
    ensures RecordDoubts(h, records) == [] <==> AllIntact(h, records)
  {
    if |records| > 0 {
      var n := |records| - 1;
      IntactMeansNoDoubts(h, records[..n]);
      assert records == records[..n] + [records[n]];
    }
  }

  /**
   A valid bundle still warns in two cases, and only in those: nothing was recorded about the subject,
   or a scanner did not complete.
   */
  lemma ValidBundleWarnsExactly<P>(
    digest: Digest, h: Hash, render: Bundle<P> -> string, table: seq<Technique>, input: Input<P>, clock: Time,
    b: Bundle<P>)
    requires Produced(digest, h, render, table, input, clock, b) && Checked(digest, h, render, b).valid
    ensures Checked(digest, h, render, b).doubts == [] <==>
            (exists r :: r in input.chain && r.subject == SubjectKey(input.subject.model, input.subject.version))
            && forall s :: s in input.scanners ==> s.completed
  {
    var subject := SubjectKey(input.subject.model, input.subject.version);
    IntactMeansNoDoubts(h, b.audit.records);
    CoverageAccountsForEveryScanner(input.scanners, input.gaps);
    NoneIncomplete(input.scanners);
    NamesAddUp(input.scanners);
    ExcerptEmptyIff(input.chain, subject);
  }

  lemma {:induction false} NoneIncomplete(scanners: seq<Scanner>)
    ensures NamesWhere(scanners, false) == [] <==> forall s :: s in scanners ==> s.completed
  {
    if |scanners| > 0 {
      var n := |scanners| - 1;
      NoneIncomplete(scanners[..n]);
      assert scanners == scanners[..n] + [scanners[n]];
    }
  }

  lemma ExcerptEmptyIff(chain: seq<Record>, subject: string)
    ensures |Excerpt(chain, subject)| > 0 <==> exists r :: r in chain && r.subject == subject
  {
    var at := ExcerptIsTheSubsequence(chain, subject);
    if |at| > 0 { assert at[0] in at && chain[at[0]] in chain; }
    if r :| r in chain && r.subject == subject {
      var k :| 0 <= k < |chain| && chain[k] == r;
      assert k in at;
    }
  }

  /** A bundle whose encoding differs from a produced one's, carried under the same digest. */
  ghost predicate DigestCollision<P>(digest: Digest, render: Bundle<P> -> string, a: Bundle<P>, b: Bundle<P>) {
    && render(a.(digest := "")) != render(b.(digest := ""))
    && digest(render(a.(digest := ""))) == digest(render(b.(digest := "")))
  }

  /**
   An edited bundle is rejected: one that carries a produced bundle's digest verifies only if its
   contents encode the same, unless the digest collides between the two.
   */
  lemma EditedBundleIsRejected<P>(
    digest: Digest, h: Hash, render: Bundle<P> -> string, table: seq<Technique>, input: Input<P>, clock: Time,
    b: Bundle<P>, edited: Bundle<P>)
    requires Produced(digest, h, render, table, input, clock, b) && edited.digest == b.digest
    requires render(edited.(digest := "")) != render(b.(digest := ""))
    ensures Checked(digest, h, render, edited).valid ==> DigestCollision(digest, render, edited, b)
  {
    var d, e := digest(render(b.(digest := ""))), digest(render(edited.(digest := "")));
    if Checked(digest, h, render, edited).valid {
      assert d == ("sha256:" + d)[7..] && e == ("sha256:" + e)[7..];
    }
  }

  /** A bundle built from a snapshot of the live log, in any reachable state, verifies. */
  lemma LiveLogMakesValidEvidence<P>(
    c: Config, w: World, rs: seq<Record>, digest: Digest, render: Bundle<P> -> string, table: seq<Technique>,
    input: Input<P>, clock: Time, b: Bundle<P>)
    requires Sound(c) && Reachable(c, w) && !w.overrun && IsListing(rs, w.records)
    requires input.chain == Above(rs, Boundary(w))
    requires input.checkpoint == Published(w) && input.anchor == AnchorOf(Published(w))
    requires Produced(digest, c.hash, render, table, input, clock, b)
    ensures Checked(digest, c.hash, render, b).valid && b.audit.chainLength == |w.history|
  {
    SnapshotVerifies(c, w, rs);
    EvidenceRoundTrip(digest, c.hash, render, table, input, clock, b);
  }
}
