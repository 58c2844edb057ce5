/**
 The hash chain (internal/audit/chain.go): sealing a record onto its predecessor, walking a
 chain from an anchor, and comparing it with a checkpoint.

 The hash is a parameter. Nothing is assumed of it except, where a lemma says so, that its
 output holds no newline, as hexadecimal never does. Where the argument rests on collision
 resistance the conclusion is "the same records, or here is a collision between them".
 */
module Chain {
  import opened Wrappers
  import opened Text
  import opened Records
  import opened Preimages

  /** `ComputeHash`, as the chain uses it: the hash a record should carry. */
  type Hash = Record -> string

  /** SHA-256 and its hexadecimal rendering, on the bytes of a preimage. */
  type Digest = string -> string

  const GENESIS_HASH: string := Zeros(64)

  /** `ComputeHash` is the digest of the canonical form. */
  ghost predicate Implements(hash: Hash, digest: Digest) {
    forall r {:trigger Canonical(r)} :: hash(r) == digest(Canonical(r))
  }

  ghost predicate Clean(hash: Hash) {
    forall r: Record :: '\n' !in hash(r)
  }

  /** The hash does not depend on the field it is stored in. */
  ghost predicate IgnoresHashField(hash: Hash) {
    forall r: Record, x: string :: hash(r.(hash := x)) == hash(r)
  }

  // Both follow from hashing the canonical form with a digest that prints no newline.
  lemma DigestGivesHash(hash: Hash, digest: Digest)
    requires Implements(hash, digest)
    ensures IgnoresHashField(hash)
    ensures (forall s :: '\n' !in digest(s)) ==> Clean(hash)
  {
    forall r: Record, x: string ensures hash(r.(hash := x)) == hash(r) {
      assert Fields(r.(hash := x)) == Fields(r);
      assert Canonical(r.(hash := x)) == Canonical(r);
    }
    forall r ensures hash(r) == digest(Canonical(r)) { assert Canonical(r) == Canonical(r); }
  }

  datatype Anchor = Anchor(length: nat, head: string, location: string)

  datatype Checkpoint = Checkpoint(length: nat, head: string, time: Time, archived: Option<Anchor>)

  /** `Seal`: the sequence number, the link, the truncated time and the hash. */
  function Seal(h: Hash, event: Record, prev: Option<Record>): Record {
    var linked := event.(
                  sequence := if prev.None? then 1 else prev.value.sequence + 1,
                  prevHash := if prev.None? then GENESIS_HASH else prev.value.hash,
                  time := Truncate(event.time));
    linked.(hash := h(linked))
  }

  /** What a record says of its event: everything, with the time to the second. */
  predicate Carries(r: Record, event: Record) {
    && r.kind == event.kind && r.subject == event.subject && r.actor == event.actor && r.detail == event.detail
    && r.time == event.time.(nanos := 0)
  }

  // ---------- verification ----------

  datatype Problem =
    | WrongSequence(want: nat, claimed: nat)
    | BrokenLink(sequence: nat, expected: string, found: string)
    | Modified(sequence: nat, computed: string, carried: string)
    | ShorterThanCheckpoint(length: nat, published: nat)
    | RewrittenHead(head: string, publishedHead: string)

  datatype Verification = Verification(
    valid: bool, length: nat, anchored: nat, head: string, problems: seq<Problem>)

  function RecordProblems(h: Hash, r: Record, want: nat, prevHash: string): seq<Problem> {
    (if r.sequence != want then [WrongSequence(want, r.sequence)] else [])
    + (if r.prevHash != prevHash then [BrokenLink(r.sequence, prevHash, r.prevHash)] else [])
    + (if h(r) != r.hash then [Modified(r.sequence, h(r), r.hash)] else [])
  }

  function ChainProblems(h: Hash, records: seq<Record>, offset: nat, prevHash: string): seq<Problem> {
    if |records| == 0 then []
    else RecordProblems(h, records[0], offset + 1, prevHash)
         + ChainProblems(h, records[1..], offset + 1, records[0].hash)
  }

  function HeadAfter(records: seq<Record>, prevHash: string): string {
    if |records| == 0 then prevHash else records[|records| - 1].hash
  }

  function CheckpointProblems(length: nat, head: string, checkpoint: Option<Checkpoint>): seq<Problem> {
    match checkpoint
    case None => []
    case Some(cp) =>
      if length < cp.length then [ShorterThanCheckpoint(length, cp.length)]
      else if length == cp.length && head != cp.head then [RewrittenHead(head, cp.head)]
      else []
  }

  function Offset(anchor: Option<Anchor>): nat {
    if anchor.None? then 0 else anchor.value.length
  }

  function Start(anchor: Option<Anchor>): string {
    if anchor.None? then GENESIS_HASH else anchor.value.head
  }

  /** What `VerifyFrom` reports. */
  function Verified(h: Hash, records: seq<Record>, anchor: Option<Anchor>, checkpoint: Option<Checkpoint>)
    : Verification
  {
    var length := Offset(anchor) + |records|;
    var head := HeadAfter(records, Start(anchor));
    var problems := ChainProblems(h, records, Offset(anchor), Start(anchor))
                    + CheckpointProblems(length, head, checkpoint);
    Verification(problems == [], length, Offset(anchor), head, problems)
  }

  // Verification of a concatenation is verification of the parts, the second from where the
  // first ended.
  lemma {:induction false} ProblemsSplit(h: Hash, a: seq<Record>, b: seq<Record>, offset: nat, prevHash: string)
    ensures ChainProblems(h, a + b, offset, prevHash) ==
            ChainProblems(h, a, offset, prevHash)
            + ChainProblems(h, b, offset + |a|, HeadAfter(a, prevHash))
  {
    if |a| == 0 {
      assert a + b == b;
    } else {
      assert (a + b)[1..] == a[1..] + b && (a + b)[0] == a[0];
      assert HeadAfter(a, prevHash) == HeadAfter(a[1..], a[0].hash);
      ProblemsSplit(h, a[1..], b, offset + 1, a[0].hash);
      Assoc(RecordProblems(h, a[0], offset + 1, prevHash), ChainProblems(h, a[1..], offset + 1, a[0].hash),
        ChainProblems(h, b, offset + |a|, HeadAfter(a, prevHash)));
    }
  }

  method ComputeHash(digest: Digest, ghost h: Hash, r: Record) returns (got: string)
    requires Implements(h, digest)
    ensures got == h(r)
  {
    var canonical := RenderCanonical(r);
    got := digest(canonical);
  }

  /** `Seal`, computing the hash it stores. */
  method SealOnto(digest: Digest, ghost h: Hash, event: Record, prev: Option<Record>) returns (sealed: Record)
    requires Implements(h, digest)
    ensures sealed == Seal(h, event, prev)
    ensures Carries(sealed, event)
    ensures sealed.sequence == (if prev.None? then 1 else prev.value.sequence + 1)
    ensures sealed.prevHash == (if prev.None? then GENESIS_HASH else prev.value.hash)
    ensures sealed.hash == h(sealed)
  {
    DigestGivesHash(h, digest);
    sealed := event;
    if prev.None? {
      sealed := sealed.(sequence := 1, prevHash := GENESIS_HASH);
    } else {
      sealed := sealed.(sequence := prev.value.sequence + 1, prevHash := prev.value.hash);
    }
    sealed := sealed.(time := Truncate(event.time));
    var hash := ComputeHash(digest, h, sealed);
    sealed := sealed.(hash := hash);
  }

  // The three tests of one record, in the order the walk makes them.
  method CheckRecord(digest: Digest, ghost h: Hash, r: Record, want: nat, prevHash: string)
    returns (problems: seq<Problem>)
    requires Implements(h, digest)
    ensures problems == RecordProblems(h, r, want, prevHash)
  {
    problems := [];
    if r.sequence != want {
      problems := problems + [WrongSequence(want, r.sequence)];
    }
    if r.prevHash != prevHash {
      problems := problems + [BrokenLink(r.sequence, prevHash, r.prevHash)];
    }
    var got := ComputeHash(digest, h, r);
    if got != r.hash {
      problems := problems + [Modified(r.sequence, got, r.hash)];
    }
  }

  // The walk itself: what is wrong with the records, and the hash they end on.
  method WalkChain(digest: Digest, ghost h: Hash, records: seq<Record>, offset: nat, start: string)
    returns (valid: bool, problems: seq<Problem>, prevHash: string)
    requires Implements(h, digest)
    ensures problems == ChainProblems(h, records, offset, start)
    ensures prevHash == HeadAfter(records, start)
    ensures valid <==> problems == []
  {
    valid, problems, prevHash := true, [], start;
    var i := 0;
    while i < |records|
      invariant 0 <= i <= |records|
      invariant prevHash == HeadAfter(records[..i], start)
      invariant problems == ChainProblems(h, records[..i], offset, start)
      invariant valid <==> problems == []
    {
      var found := CheckRecord(digest, h, records[i], offset + i + 1, prevHash);
      problems := problems + found;
      valid := valid && found == [];
      prevHash := records[i].hash;
      OneMore(h, records, i, offset, start);
      i := i + 1;
    }
    assert records[..i] == records;
  }

  /** `VerifyFrom` computes `Verified`. */
  method VerifyFrom(
    digest: Digest, ghost h: Hash, records: seq<Record>, anchor: Option<Anchor>, checkpoint: Option<Checkpoint>)
    returns (v: Verification)
    requires Implements(h, digest)
    ensures v == Verified(h, records, anchor, checkpoint)
    ensures v.valid <==> v.problems == []
    ensures v.anchored == (if anchor.Some? then anchor.value.length else 0)
    ensures v.length == v.anchored + |records|
    ensures v.head == if |records| > 0 then records[|records| - 1].hash
                      else if anchor.Some? then anchor.value.head else GENESIS_HASH
    ensures forall p :: p in v.problems <==>
              || SomewhereWrong(h, records, v.anchored, if anchor.Some? then anchor.value.head else GENESIS_HASH, p)
              || (checkpoint.Some? && MissedBy(v.length, v.head, checkpoint.value, p))
  {
    ProblemsAre(h, records, Offset(anchor), Start(anchor), Offset(anchor) + |records|,
      HeadAfter(records, Start(anchor)), checkpoint);
    var offset, start, anchored := 0, GENESIS_HASH, 0;
    if anchor.Some? {
      offset, start, anchored := anchor.value.length, anchor.value.head, anchor.value.length;
    }
    var valid, problems, head := WalkChain(digest, h, records, offset, start);
    var length := offset + |records|;
    var missed := CheckCheckpoint(length, head, checkpoint);
    v := Verification(valid && missed == [], length, anchored, head, problems + missed);
  }

  // The comparison with a checkpoint that ends the walk.
  method CheckCheckpoint(length: nat, head: string, checkpoint: Option<Checkpoint>)
    returns (problems: seq<Problem>)
    ensures problems == CheckpointProblems(length, head, checkpoint)
  {
    problems := [];
    if checkpoint.Some? {
      if length < checkpoint.value.length {
        problems := [ShorterThanCheckpoint(length, checkpoint.value.length)];
      } else if length == checkpoint.value.length && head != checkpoint.value.head {
        problems := [RewrittenHead(head, checkpoint.value.head)];
      }
    }
  }

  lemma OneMore(h: Hash, records: seq<Record>, i: nat, offset: nat, start: string)
    requires i < |records|
    ensures ChainProblems(h, records[..i + 1], offset, start) ==
            ChainProblems(h, records[..i], offset, start)
            + RecordProblems(h, records[i], offset + i + 1, HeadAfter(records[..i], start))
    ensures HeadAfter(records[..i + 1], start) == records[i].hash
  {
    assert records[..i + 1] == records[..i] + [records[i]];
    ProblemsSplit(h, records[..i], [records[i]], offset, start);
    assert [records[i]][1..] == [];
  }

  /** This is wrong with the record at position `i` of a chain that starts after `offset`. */
  predicate WrongWith(h: Hash, records: seq<Record>, offset: nat, start: string, i: int, p: Problem) {
    0 <= i < |records| &&
    var r, link := records[i], if i == 0 then start else records[i - 1].hash;
    match p
    case WrongSequence(want, claimed) => want == offset + i + 1 && claimed == r.sequence && claimed != want
    case BrokenLink(sequence, expected, found) =>
      sequence == r.sequence && expected == link && found == r.prevHash && found != expected
    case Modified(sequence, computed, carried) =>
      sequence == r.sequence && computed == h(r) && carried == r.hash && carried != computed
    case _ => false
  }

  ghost predicate SomewhereWrong(h: Hash, records: seq<Record>, offset: nat, start: string, p: Problem) {
    exists i :: WrongWith(h, records, offset, start, i, p)
  }

  /** This is how a chain of this length and head misses the checkpoint. */
  predicate MissedBy(length: nat, head: string, cp: Checkpoint, p: Problem) {
    match p
    case ShorterThanCheckpoint(held, published) => held == length && published == cp.length && length < cp.length
    case RewrittenHead(found, published) =>
      found == head && published == cp.head && length == cp.length && head != cp.head
    case _ => false
  }

  /** The order of the tests that are made of one record. */
  function Test(p: Problem): nat {
    match p
    case WrongSequence(_, _) => 0
    case BrokenLink(_, _, _) => 1
    case Modified(_, _, _) => 2
    case _ => 3
  }

  ghost predicate InTestOrder(problems: seq<Problem>, at: seq<nat>) {
    && |at| == |problems|
    && forall j, k :: 0 <= j < k < |at| ==>
         at[j] < at[k] || (at[j] == at[k] && Test(problems[j]) < Test(problems[k]))
  }

  /**
   The problems of the records are exactly what is wrong with them, each once: record by record in chain
   order, and for one record in the order of its tests. `at` says which record each is about.
   */
  lemma {:induction false} ProblemsInOrder(h: Hash, records: seq<Record>, offset: nat, start: string)
    returns (at: seq<nat>)
    ensures var problems := ChainProblems(h, records, offset, start);
            && InTestOrder(problems, at)
            && (forall k :: 0 <= k < |at| ==> WrongWith(h, records, offset, start, at[k], problems[k]))
            && (forall i, p :: WrongWith(h, records, offset, start, i, p) ==> p in problems)
  {
    at := [];
    if |records| > 0 {
      var n := |records| - 1;
      var front := ProblemsInOrder(h, records[..n], offset, start);
      OneMore(h, records, n, offset, start);
      assert records[..n + 1] == records;
      var before := ChainProblems(h, records[..n], offset, start);
      var more := RecordProblems(h, records[n], offset + n + 1, HeadAfter(records[..n], start));
      at := front + seq(|more|, _ => n);
      OrderGrows(h, records[..n], records, offset, start, before, front, more, at);
    }
  }

  lemma OrderGrows(
    h: Hash, prior: seq<Record>, records: seq<Record>, offset: nat, start: string,
    before: seq<Problem>, front: seq<nat>, more: seq<Problem>, at: seq<nat>)
    requires |records| > 0 && prior == records[..|records| - 1] && InTestOrder(before, front)
    requires at == front + seq(|more|, _ => |records| - 1)
    requires forall k :: 0 <= k < |front| ==> WrongWith(h, prior, offset, start, front[k], before[k])
    requires forall i, p :: WrongWith(h, prior, offset, start, i, p) ==> p in before
    requires more == RecordProblems(h, records[|records| - 1], offset + |records|, HeadAfter(prior, start))
    ensures InTestOrder(before + more, at)
    ensures forall k :: 0 <= k < |at| ==> WrongWith(h, records, offset, start, at[k], (before + more)[k])
    ensures forall i, p :: WrongWith(h, records, offset, start, i, p) ==> p in before + more
  {
    var n := |records| - 1;
    LastWrong(h, records, offset, start, more);
    OrderExtends(before, front, more, at, n);
    forall k | 0 <= k < |at| ensures WrongWith(h, records, offset, start, at[k], (before + more)[k]) {
      if k < |front| {
        WrongInFront(h, prior, records, offset, start, front[k], before[k]);
      } else {
        assert (before + more)[k] == more[k - |front|];
      }
    }
    forall i, p | WrongWith(h, records, offset, start, i, p) ensures p in before + more {
      if i < n { WrongInFront(h, prior, records, offset, start, i, p); }
    }
  }

  lemma OrderExtends(before: seq<Problem>, front: seq<nat>, more: seq<Problem>, at: seq<nat>, n: nat)
    requires InTestOrder(before, front) && at == front + seq(|more|, _ => n)
    requires forall k :: 0 <= k < |front| ==> front[k] < n
    requires forall j, k :: 0 <= j < k < |more| ==> Test(more[j]) < Test(more[k])
    ensures InTestOrder(before + more, at)
  {
    var all := before + more;
    forall j, k | 0 <= j < k < |at|
      ensures at[j] < at[k] || (at[j] == at[k] && Test(all[j]) < Test(all[k]))
    {
      if j >= |front| { assert all[j] == more[j - |front|] && all[k] == more[k - |front|]; }
    }
  }

  // What the tests of the last record report is what is wrong with it, in the order they are made.
  lemma LastWrong(h: Hash, records: seq<Record>, offset: nat, start: string, more: seq<Problem>)
    requires |records| > 0
    requires more == RecordProblems(h, records[|records| - 1], offset + |records|,
                                    HeadAfter(records[..|records| - 1], start))
    ensures forall j, k :: 0 <= j < k < |more| ==> Test(more[j]) < Test(more[k])
    ensures forall k :: 0 <= k < |more| ==> WrongWith(h, records, offset, start, |records| - 1, more[k])
    ensures forall p :: WrongWith(h, records, offset, start, |records| - 1, p) ==> p in more
  {
  }

  // What is wrong with a record does not depend on those after it.
  lemma WrongInFront(
    h: Hash, prior: seq<Record>, records: seq<Record>, offset: nat, start: string, i: int, p: Problem)
    requires prior <= records && i < |prior|
    ensures WrongWith(h, prior, offset, start, i, p) <==> WrongWith(h, records, offset, start, i, p)
  {
  }

  lemma ProblemsAre(
    h: Hash, records: seq<Record>, offset: nat, start: string, length: nat, head: string, cp: Option<Checkpoint>)
    ensures forall p :: p in ChainProblems(h, records, offset, start) + CheckpointProblems(length, head, cp) <==>
              SomewhereWrong(h, records, offset, start, p) || (cp.Some? && MissedBy(length, head, cp.value, p))
  {
    forall p ensures p in ChainProblems(h, records, offset, start) + CheckpointProblems(length, head, cp) <==>
        SomewhereWrong(h, records, offset, start, p) || (cp.Some? && MissedBy(length, head, cp.value, p))
    {
      ProblemIs(h, records, offset, start, length, head, cp, p);
    }
  }

  lemma ProblemIs(
    h: Hash, records: seq<Record>, offset: nat, start: string, length: nat, head: string, cp: Option<Checkpoint>,
    p: Problem)
    ensures p in ChainProblems(h, records, offset, start) + CheckpointProblems(length, head, cp) <==>
            SomewhereWrong(h, records, offset, start, p) || (cp.Some? && MissedBy(length, head, cp.value, p))
  {
    ChainProblemIff(h, records, offset, start, p);
    CheckpointProblemIff(length, head, cp, p);
    InEither(ChainProblems(h, records, offset, start), CheckpointProblems(length, head, cp), p);
  }

  lemma InEither<T>(a: seq<T>, b: seq<T>, x: T)
    ensures x in a + b <==> x in a || x in b
  {
  }

  lemma ChainProblemIff(h: Hash, records: seq<Record>, offset: nat, start: string, p: Problem)
    ensures p in ChainProblems(h, records, offset, start) <==> SomewhereWrong(h, records, offset, start, p)
  {
    var at := ProblemsInOrder(h, records, offset, start);
    var problems := ChainProblems(h, records, offset, start);
    if p in problems {
      var k :| 0 <= k < |problems| && problems[k] == p;
      assert WrongWith(h, records, offset, start, at[k], p);
    }
  }

  lemma CheckpointProblemIff(length: nat, head: string, checkpoint: Option<Checkpoint>, p: Problem)
    ensures p in CheckpointProblems(length, head, checkpoint) <==>
            checkpoint.Some? && MissedBy(length, head, checkpoint.value, p)
  {
  }

  /** `Verify`: the records are the whole chain. */
  method Verify(digest: Digest, ghost h: Hash, records: seq<Record>, checkpoint: Option<Checkpoint>)
    returns (v: Verification)
    requires Implements(h, digest)
    ensures v == Verified(h, records, None, checkpoint)
  {
    v := VerifyFrom(digest, h, records, None, checkpoint);
  }

  // ---------- what validity means ----------

  /** The record follows a predecessor at `offset` with hash `prevHash`, and is unmodified. */
  predicate Follows(h: Hash, r: Record, offset: nat, prevHash: string) {
    r.sequence == offset + 1 && r.prevHash == prevHash && r.hash == h(r)
  }

  predicate LinkAt(h: Hash, records: seq<Record>, i: nat, offset: nat, prevHash: string)
    requires i < |records|
  {
    Follows(h, records[i], offset + i, if i == 0 then prevHash else records[i - 1].hash)
  }

  /** The reference definition of an intact chain: numbered, linked and unmodified throughout. */
  predicate Linked(h: Hash, records: seq<Record>, offset: nat, prevHash: string) {
    forall i: nat :: i < |records| ==> LinkAt(h, records, i, offset, prevHash)
  }

  lemma LinkedSplit(h: Hash, a: seq<Record>, b: seq<Record>, offset: nat, prevHash: string)
    ensures Linked(h, a + b, offset, prevHash) <==>
            Linked(h, a, offset, prevHash) && Linked(h, b, offset + |a|, HeadAfter(a, prevHash))
  {
    var c, at, from := a + b, offset + |a|, HeadAfter(a, prevHash);
    forall i: nat | i < |a| ensures LinkAt(h, c, i, offset, prevHash) <==> LinkAt(h, a, i, offset, prevHash) {
    }
    if Linked(h, c, offset, prevHash) {
      forall i: nat | i < |b| ensures LinkAt(h, b, i, at, from) {
        assert LinkAt(h, c, |a| + i, offset, prevHash);
      }
    }
    if Linked(h, a, offset, prevHash) && Linked(h, b, offset + |a|, HeadAfter(a, prevHash)) {
      forall i: nat | i < |c| ensures LinkAt(h, c, i, offset, prevHash) {
        if i >= |a| {
          var k := i - |a|;
          assert LinkAt(h, b, k, at, from);
          assert LinkAt(h, c, |a| + k, offset, prevHash);
        }
      }
    }
  }

  // The walk reports nothing exactly when the chain is intact.
  lemma {:induction false} NoProblemsIffLinked(h: Hash, records: seq<Record>, offset: nat, prevHash: string)
    ensures ChainProblems(h, records, offset, prevHash) == [] <==> Linked(h, records, offset, prevHash)
  {
    if |records| > 0 {
      NoProblemsIffLinked(h, records[1..], offset + 1, records[0].hash);
      assert records == [records[0]] + records[1..];
      LinkedSplit(h, [records[0]], records[1..], offset, prevHash);
      LinkedOne(h, records[0], offset, prevHash);
      assert RecordProblems(h, records[0], offset + 1, prevHash) == [] <==>
             Follows(h, records[0], offset, prevHash);
    }
  }

  lemma LinkedOne(h: Hash, r: Record, offset: nat, prevHash: string)
    ensures Linked(h, [r], offset, prevHash) <==> Follows(h, r, offset, prevHash)
  {
    assert LinkAt(h, [r], 0, offset, prevHash) <==> Follows(h, r, offset, prevHash);
  }

  predicate Satisfies(length: nat, head: string, checkpoint: Option<Checkpoint>) {
    checkpoint.Some? ==>
      && checkpoint.value.length <= length
      && (checkpoint.value.length == length ==> checkpoint.value.head == head)
  }

  /** `VerifyFrom` accepts exactly the intact chains that reach the checkpoint. */
  lemma ValidIffLinked(h: Hash, records: seq<Record>, anchor: Option<Anchor>, checkpoint: Option<Checkpoint>)
    ensures Verified(h, records, anchor, checkpoint).valid <==>
            && Linked(h, records, Offset(anchor), Start(anchor))
            && Satisfies(Offset(anchor) + |records|, HeadAfter(records, Start(anchor)), checkpoint)
  {
    NoProblemsIffLinked(h, records, Offset(anchor), Start(anchor));
  }

  /**
   Split and join: verifying a concatenation reports the problems of the first part and then
   those of the second, read from the anchor the first part ends on.
   */
  lemma VerifySplitJoin(h: Hash, a: seq<Record>, b: seq<Record>, anchor: Option<Anchor>, location: string)
    ensures var whole := Verified(h, a + b, anchor, None);
            var first := Verified(h, a, anchor, None);
            var second := Verified(h, b, Some(Anchor(first.length, first.head, location)), None);
            && whole.problems == first.problems + second.problems
            && (whole.valid <==> first.valid && second.valid)
            && whole.length == second.length
            && whole.head == second.head
  {
    var offset, start := Offset(anchor), Start(anchor);
    var pa := ChainProblems(h, a, offset, start);
    var pb := ChainProblems(h, b, offset + |a|, HeadAfter(a, start));
    ProblemsSplit(h, a, b, offset, start);
    ChecksNothingElse(pa, pb);
    HeadAfterBoth(a, b, start);
  }

  // Without a checkpoint the walk's problems are all there are.
  lemma ChecksNothingElse(a: seq<Problem>, b: seq<Problem>)
    ensures a + b + [] == (a + []) + (b + [])
    ensures a + b + [] == [] <==> a + [] == [] && b + [] == []
  {
    if a == [] { assert a + b == b; }
  }

  lemma HeadAfterBoth(a: seq<Record>, b: seq<Record>, start: string)
    ensures HeadAfter(a + b, start) == HeadAfter(b, HeadAfter(a, start))
  {
    if |b| == 0 { assert a + b == a; }
  }

  // ---------- tamper evidence ----------

  /** Two different preimages, both present in the records compared, with one hash. */
  ghost predicate CollisionAt(h: Hash, a: seq<Record>, b: seq<Record>, i: int) {
    0 <= i < |a| && i < |b| && Canonical(a[i]) != Canonical(b[i]) && h(a[i]) == h(b[i])
  }

  ghost predicate Collision(h: Hash, a: seq<Record>, b: seq<Record>) {
    exists i :: CollisionAt(h, a, b, i)
  }

  function ToTheSecond(r: Record): Record {
    r.(time := Truncate(r.time))
  }

  ghost predicate SameToTheSecond(a: seq<Record>, b: seq<Record>) {
    |a| == |b| && forall i :: 0 <= i < |a| ==> ToTheSecond(a[i]) == ToTheSecond(b[i])
  }

  predicate WholeSeconds(a: seq<Record>) {
    forall i :: 0 <= i < |a| ==> a[i].time == Truncate(a[i].time)
  }

  lemma WholeSecondsAreEqual(a: seq<Record>, b: seq<Record>)
    requires SameToTheSecond(a, b) && WholeSeconds(a) && WholeSeconds(b)
    ensures a == b
  {
    forall i | 0 <= i < |a| ensures a[i] == b[i] {
      assert ToTheSecond(a[i]) == a[i] && ToTheSecond(b[i]) == b[i];
    }
  }

  lemma LinkIsClean(h: Hash, records: seq<Record>, offset: nat, prevHash: string, i: nat)
    requires Clean(h) && '\n' !in prevHash && Linked(h, records, offset, prevHash) && i < |records|
    ensures '\n' !in records[i].prevHash
  {
    assert LinkAt(h, records, i, offset, prevHash);
    assert i > 0 ==> LinkAt(h, records, i - 1, offset, prevHash);
  }

  lemma SameHashSameContent(h: Hash, digest: Digest, a: seq<Record>, b: seq<Record>, i: nat)
    requires Implements(h, digest) && i < |a| && i < |b| && h(a[i]) == h(b[i])
    requires '\n' !in a[i].prevHash && '\n' !in b[i].prevHash && !CollisionAt(h, a, b, i)
    ensures Content(a[i]) == Content(b[i]) && a[i].prevHash == b[i].prevHash
  {
    CanonicalInjective(a[i], b[i]);
    assert a[i].prevHash == Content(a[i]).prevHash && b[i].prevHash == Content(b[i]).prevHash;
  }

  /**
   Uniqueness of history: two intact chains from one anchor that reach the same length and the
   same head are the same records, times to the second, unless the hash collides between them.
   */
  lemma {:induction false} UniqueHistory(
    h: Hash, digest: Digest, a: seq<Record>, b: seq<Record>, offset: nat, prevHash: string)
    requires Implements(h, digest) && Clean(h) && '\n' !in prevHash
    requires Linked(h, a, offset, prevHash) && Linked(h, b, offset, prevHash)
    requires |a| == |b| && HeadAfter(a, prevHash) == HeadAfter(b, prevHash)
    ensures SameToTheSecond(a, b) || Collision(h, a, b)
  {
    if |a| > 0 {
      var n := |a| - 1;
      LastFollows(h, a, offset, prevHash);
      LastFollows(h, b, offset, prevHash);
      LinkIsClean(h, a, offset, prevHash, n);
      LinkIsClean(h, b, offset, prevHash, n);
      if !CollisionAt(h, a, b, n) {
        SameHashSameContent(h, digest, a, b, n);
        UniqueHistory(h, digest, a[..n], b[..n], offset, prevHash);
        Extend(h, a, b);
      }
    }
  }

  // Agreement, or a collision, of all but the last records carries over to the whole.
  lemma Extend(h: Hash, a: seq<Record>, b: seq<Record>)
    requires |a| == |b| > 0 && Content(a[|a| - 1]) == Content(b[|a| - 1]) && a[|a| - 1].hash == b[|a| - 1].hash
    requires SameToTheSecond(a[..|a| - 1], b[..|a| - 1]) || Collision(h, a[..|a| - 1], b[..|a| - 1])
    ensures SameToTheSecond(a, b) || Collision(h, a, b)
  {
    var n := |a| - 1;
    if Collision(h, a[..n], b[..n]) {
      var i :| CollisionAt(h, a[..n], b[..n], i);
      assert CollisionAt(h, a, b, i);
    } else {
      assert a == a[..n] + [a[n]] && b == b[..n] + [b[n]];
      SameSnoc(a[..n], a[n], b[..n], b[n]);
    }
  }

  lemma LastFollows(h: Hash, a: seq<Record>, offset: nat, prevHash: string)
    requires |a| > 0 && Linked(h, a, offset, prevHash)
    ensures var n := |a| - 1;
            && Linked(h, a[..n], offset, prevHash)
            && h(a[n]) == a[n].hash == HeadAfter(a, prevHash)
            && a[n].prevHash == HeadAfter(a[..n], prevHash)
  {
    var n := |a| - 1;
    assert a == a[..n] + [a[n]];
    LinkedSplit(h, a[..n], [a[n]], offset, prevHash);
    assert LinkAt(h, a, n, offset, prevHash);
  }

  lemma SameSnoc(a: seq<Record>, r: Record, b: seq<Record>, s: Record)
    requires SameToTheSecond(a, b) && Content(r) == Content(s) && r.hash == s.hash
    ensures SameToTheSecond(a + [r], b + [s])
  {
    assert ToTheSecond(r) == Content(r).(hash := r.hash);
    assert ToTheSecond(s) == Content(s).(hash := s.hash);
  }

  /**
   The hashes alone fix a chain: an intact chain carrying the same hash strings as another, from
   the same anchor, is that chain, unless the hash collides. This is what makes reading a segment
   back and verifying it enough.
   */
  lemma SameHashesSameRecords(
    h: Hash, digest: Digest, a: seq<Record>, b: seq<Record>, offset: nat, prevHash: string)
    requires Implements(h, digest) && Clean(h) && '\n' !in prevHash
    requires Linked(h, a, offset, prevHash) && Linked(h, b, offset, prevHash)
    requires |a| == |b| && forall i :: 0 <= i < |a| ==> a[i].hash == b[i].hash
    ensures SameToTheSecond(a, b) || Collision(h, a, b)
  {
    UniqueHistory(h, digest, a, b, offset, prevHash);
  }

  /** `Head`: the checkpoint of a chain, at a given moment. */
  function HeadOf(records: seq<Record>, now: Time): Checkpoint {
    Checkpoint(|records|, HeadAfter(records, GENESIS_HASH), Truncate(now), None)
  }

  /** A checkpoint rejects every proper prefix of the chain it was taken over. */
  lemma CheckpointCatchesTruncation(h: Hash, records: seq<Record>, n: nat, now: Time)
    requires n < |records|
    ensures !Verified(h, records[..n], None, Some(HeadOf(records, now))).valid
  {
    ValidIffLinked(h, records[..n], None, Some(HeadOf(records, now)));
  }

  /**
   A chain of the checkpointed length is accepted if and only if it is the checkpointed chain,
   unless the hash collides between the two.
   */
  lemma CheckpointCatchesRewriting(
    h: Hash, digest: Digest, records: seq<Record>, other: seq<Record>, now: Time)
    requires Implements(h, digest) && Clean(h) && Verified(h, records, None, None).valid && |other| == |records|
    requires WholeSeconds(records) && WholeSeconds(other) && !Collision(h, records, other)
    ensures Verified(h, other, None, Some(HeadOf(records, now))).valid <==> other == records
  {
    var cp := Some(HeadOf(records, now));
    ValidIffLinked(h, records, None, None);
    ValidIffLinked(h, other, None, cp);
    if Verified(h, other, None, cp).valid {
      UniqueHistory(h, digest, records, other, 0, GENESIS_HASH);
      WholeSecondsAreEqual(records, other);
    }
  }

  function LastOf(records: seq<Record>): Option<Record> {
    if |records| == 0 then None else Some(records[|records| - 1])
  }

  /** Sealing events one after another onto a chain. */
  function SealAll(h: Hash, records: seq<Record>, events: seq<Record>): seq<Record>
    decreases |events|
  {
    if |events| == 0 then records
    else SealAll(h, records + [Seal(h, events[0], LastOf(records))], events[1..])
  }

  // A record sealed onto the end of an intact chain extends it.
  lemma SealExtends(h: Hash, records: seq<Record>, event: Record)
    requires IgnoresHashField(h) && Linked(h, records, 0, GENESIS_HASH)
    ensures Linked(h, records + [Seal(h, event, LastOf(records))], 0, GENESIS_HASH)
  {
    var prev := LastOf(records);
    var sealed := Seal(h, event, prev);
    if |records| > 0 {
      var n := |records| - 1;
      assert LinkAt(h, records, n, 0, GENESIS_HASH);
    }
    LinkedOne(h, sealed, |records|, HeadAfter(records, GENESIS_HASH));
    LinkedSplit(h, records, [sealed], 0, GENESIS_HASH);
  }

  /** Every extension of a chain, by any number of events, still satisfies its checkpoint. */
  lemma {:induction false} CheckpointAllowsGrowth(
    h: Hash, taken: seq<Record>, records: seq<Record>, events: seq<Record>, now: Time)
    requires IgnoresHashField(h) && Linked(h, records, 0, GENESIS_HASH) && taken <= records
    ensures Verified(h, SealAll(h, records, events), None, Some(HeadOf(taken, now))).valid
    decreases |events|
  {
    if |events| == 0 {
      ValidIffLinked(h, records, None, Some(HeadOf(taken, now)));
    } else {
      SealExtends(h, records, events[0]);
      CheckpointAllowsGrowth(h, taken, records + [Seal(h, events[0], LastOf(records))], events[1..], now);
    }
  }
}
