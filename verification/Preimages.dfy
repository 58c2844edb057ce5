/**
 Which records share a preimage (`Canonical` in internal/audit/chain.go). The subject, the actor and
 the detail are escaped; the event type and the link are not, so whether a record can be told from
 every other by its canonical form depends on what those two hold, and on nothing else.
 */
module Preimages {
  import opened Text
  import opened Records

  // A last line without a newline in it can be taken off in one way.
  lemma LastLineParses(x: string, f: string, y: string, g: string)
    requires '\n' !in f && '\n' !in g
    requires (x + ['\n']) + (f + ['\n']) == (y + ['\n']) + (g + ['\n'])
    ensures x == y && f == g
  {
    Assoc(x + ['\n'], f, ['\n']);
    Assoc(y + ['\n'], g, ['\n']);
    var p, q := x + ['\n'] + f, y + ['\n'] + g;
    assert p == (p + ['\n'])[..|p|] && q == (q + ['\n'])[..|q|];
    SplitAtLast(x, f, y, g, '\n');
  }

  // Lists of lines that agree in their text agree in a last line free of newlines.
  lemma LinesDropLast(xs: seq<string>, f: string, ys: seq<string>, g: string)
    requires |xs| > 0 && |ys| > 0 && '\n' !in f && '\n' !in g
    requires Lines(xs + [f]) == Lines(ys + [g])
    ensures Lines(xs) == Lines(ys) && f == g
  {
    LinesSnoc(xs, f);
    LinesSnoc(ys, g);
    JoinedLines(xs);
    JoinedLines(ys);
    LastLineParses(Joined(xs), f, Joined(ys), g);
  }

  lemma PrefixNoNewline(p: string, a: string)
    requires '\n' !in p && '\n' !in a
    ensures '\n' !in p + a
  {
  }

  // The sequence number and the time, read from the front.
  lemma TwoLinesParse(f: seq<string>, g: seq<string>)
    requires |f| > 2 && |g| > 2 && Lines(f) == Lines(g)
    requires '\n' !in f[0] && '\n' !in f[1] && '\n' !in g[0] && '\n' !in g[1]
    ensures f[0] == g[0] && f[1] == g[1] && Lines(f[2..]) == Lines(g[2..])
  {
    assert f[1..][1..] == f[2..] && g[1..][1..] == g[2..];
    SplitAtFirst(f[0], Lines(f[1..]), g[0], Lines(g[1..]), '\n');
    SplitAtFirst(f[1], Lines(f[2..]), g[1], Lines(g[2..]), '\n');
  }

  lemma CleanFront(r: Record)
    ensures '\n' !in "seq=" + Decimal(r.sequence)
    ensures '\n' !in "time=" + Rfc3339(r.time)
  {
    Rfc3339Injective(r.time, r.time);
    DigitsAvoid(Decimal(r.sequence), '\n');
    PrefixNoNewline("seq=", Decimal(r.sequence));
    PrefixNoNewline("time=", Rfc3339(r.time));
  }

  lemma FrontParses(a: Record, b: Record)
    requires Canonical(a) == Canonical(b)
    ensures a.sequence == b.sequence && Truncate(a.time) == Truncate(b.time)
    ensures Lines(Fields(a)[2..]) == Lines(Fields(b)[2..])
  {
    CleanFront(a);
    CleanFront(b);
    TwoLinesParse(Fields(a), Fields(b));
    Rfc3339Injective(a.time, b.time);
    DropPrefix("seq=", Decimal(a.sequence), Decimal(b.sequence));
    DropPrefix("time=", Rfc3339(a.time), Rfc3339(b.time));
    ValueOfDecimal(a.sequence);
    ValueOfDecimal(b.sequence);
  }

  lemma {:induction false} LinesConcat(a: seq<string>, b: seq<string>)
    ensures Lines(a + b) == Lines(a) + Lines(b)
  {
    if |a| == 0 {
      assert a + b == b;
    } else {
      assert (a + b)[1..] == a[1..] + b;
      LinesConcat(a[1..], b);
      Assoc(a[0] + ['\n'], Lines(a[1..]), Lines(b));
    }
  }

  lemma LinesCons(f: string, rest: seq<string>)
    ensures Lines([f] + rest) == f + ['\n'] + Lines(rest)
  {
    assert ([f] + rest)[1..] == rest;
  }

  // A line with a newline in it reads as the two lines it spells.
  lemma OneAsTwo(a: string, b: string, back: seq<string>)
    ensures Lines([a + ['\n'] + b] + back) == Lines([a] + ([b] + back))
  {
    LinesCons(a + ['\n'] + b, back);
    LinesCons(b, back);
    LinesCons(a, [b] + back);
    Assoc(a + ['\n'], b, ['\n']);
    Assoc(a + ['\n'], b + ['\n'], Lines(back));
  }

  // ---------- the part that is not escaped ----------

  /** What the canonical form puts between a type and a link. */
  function Bridge(subject: string, actor: string): string {
    "\nsubject=" + (Escape(subject) + ("\nactor=" + (Escape(actor) + "\nprev=")))
  }

  /** A type, a subject, an actor and a link as the canonical form writes them. */
  function Spelling(kind: string, subject: string, actor: string, link: string): string {
    kind + (Bridge(subject, actor) + link)
  }

  function Middle(r: Record): string {
    Spelling(r.kind, r.subject, r.actor, r.prevHash)
  }

  /** The text spells out, lines and all, a type, a subject, an actor and a link. */
  ghost predicate Spells(x: string) {
    exists kind, subject, actor, link :: x == Spelling(kind, subject, actor, link)
  }

  lemma FourAsOne(t: string, s: string, a: string, p: string, d: string)
    ensures Lines([t, s, a, p, d]) == Lines([t + ['\n'] + s + ['\n'] + a + ['\n'] + p] + [d])
  {
    OneAsTwo(t, s, [a, p, d]);
    OneAsTwo(t + ['\n'] + s, a, [p, d]);
    OneAsTwo(t + ['\n'] + s + ['\n'] + a, p, [d]);
    assert [t] + ([s] + [a, p, d]) == [t, s, a, p, d] && [a] + [p, d] == [a, p, d] && [p] + [d] == [p, d];
  }

  lemma MiddleText(t: string, s: string, a: string, p: string)
    ensures "type=" + t + ['\n'] + ("subject=" + s) + ['\n'] + ("actor=" + a) + ['\n'] + ("prev=" + p) ==
            "type=" + (t + (("\nsubject=" + (s + ("\nactor=" + (a + "\nprev=")))) + p))
  {
    var x := "type=" + t;
    SubjectLabel(s);
    ActorLabel(a);
    PrevLabel(p);
    Regroup(x, "\nsubject=" + s, "\nactor=" + a, "\nprev=", p);
    Assoc(x, ['\n'], "subject=" + s);
    Assoc(x + "\nsubject=" + s, ['\n'], "actor=" + a);
    Assoc(x, "\nsubject=", s);
    Assoc(x + ("\nsubject=" + s), ['\n'], "actor=" + a);
    Assoc(x + ("\nsubject=" + s) + ("\nactor=" + a), ['\n'], "prev=" + p);
    Assoc("\nsubject=", s, "\nactor=" + (a + "\nprev="));
    Assoc("\nactor=", a, "\nprev=");
    Assoc("type=", t, ("\nsubject=" + (s + ("\nactor=" + (a + "\nprev=")))) + p);
  }

  lemma Regroup(x: string, s: string, a: string, l: string, p: string)
    ensures x + s + a + (l + p) == x + ((s + (a + l)) + p)
  {
  }

  // The lines from the type to the link are one text, and the detail comes after it.
  lemma TailText(r: Record)
    ensures Lines(Fields(r)[2..]) == Lines(["type=" + Middle(r)] + ["detail=" + SortedDetail(r.detail)])
  {
    var f := Fields(r);
    assert f[2..] == [f[2], f[3], f[4], f[5], f[6]];
    FourAsOne(f[2], f[3], f[4], f[5], f[6]);
    MiddleText(r.kind, Escape(r.subject), Escape(r.actor), r.prevHash);
  }

  lemma TailIff(a: Record, b: Record)
    ensures Lines(Fields(a)[2..]) == Lines(Fields(b)[2..]) <==> Middle(a) == Middle(b) && a.detail == b.detail
  {
    var x, y := "type=" + Middle(a), "type=" + Middle(b);
    var d, e := "detail=" + SortedDetail(a.detail), "detail=" + SortedDetail(b.detail);
    TailText(a);
    TailText(b);
    SortedDetailInjective(a.detail, b.detail);
    SortedDetailInjective(b.detail, b.detail);
    if Lines([x] + [d]) == Lines([y] + [e]) {
      PrefixNoNewline("detail=", SortedDetail(a.detail));
      PrefixNoNewline("detail=", SortedDetail(b.detail));
      LinesDropLast([x], d, [y], e);
      JoinedLines([x]);
      JoinedLines([y]);
      assert x == (x + ['\n'])[..|x|] && y == (y + ['\n'])[..|y|];
      DropPrefix("type=", Middle(a), Middle(b));
      DropPrefix("detail=", SortedDetail(a.detail), SortedDetail(b.detail));
    }
  }

  /** Two records share a preimage exactly when these four things agree. */
  lemma SamePreimageIff(a: Record, b: Record)
    ensures Canonical(a) == Canonical(b) <==>
            && a.sequence == b.sequence && Truncate(a.time) == Truncate(b.time)
            && Middle(a) == Middle(b) && a.detail == b.detail
  {
    TailIff(a, b);
    if Canonical(a) == Canonical(b) { FrontParses(a, b); }
    if a.sequence == b.sequence && Truncate(a.time) == Truncate(b.time)
       && Lines(Fields(a)[2..]) == Lines(Fields(b)[2..]) {
      Rfc3339Injective(a.time, b.time);
      SameFrontSameLines(Fields(a), Fields(b));
    }
  }

  lemma SameFrontSameLines(f: seq<string>, g: seq<string>)
    requires |f| > 2 && |g| > 2 && f[0] == g[0] && f[1] == g[1] && Lines(f[2..]) == Lines(g[2..])
    ensures Lines(f) == Lines(g)
  {
    assert f[1..][1..] == f[2..] && g[1..][1..] == g[2..];
  }

  // ---------- reading the middle ----------

  // After its first character, no line of a bridge starts the way a subject line does.
  lemma BridgeLines(subject: string, actor: string, i: nat)
    requires 0 < i < |Bridge(subject, actor)| && Bridge(subject, actor)[i] == '\n'
    ensures i + 1 < |Bridge(subject, actor)| && Bridge(subject, actor)[i + 1] != 's'
  {
    EscapedHasNoDelimiter(subject);
    EscapedHasNoDelimiter(actor);
    ThreeLines(Escape(subject), Escape(actor), i);
  }

  lemma ThreeLines(s: string, a: string, i: nat)
    requires '\n' !in s && '\n' !in a
    requires var b := "\nsubject=" + (s + ("\nactor=" + (a + "\nprev="))); 0 < i < |b| && b[i] == '\n'
    ensures var b := "\nsubject=" + (s + ("\nactor=" + (a + "\nprev="))); i + 1 < |b| && b[i + 1] != 's'
  {
    var b := "\nsubject=" + (s + ("\nactor=" + (a + "\nprev=")));
    var m, n := 9 + |s|, 16 + |s| + |a|;
    assert forall k :: 9 <= k < m ==> b[k] == s[k - 9] && s[k - 9] in s;
    assert forall k :: m <= k < m + 7 ==> b[k] == "\nactor="[k - m];
    assert forall k :: m + 7 <= k < n ==> b[k] == a[k - m - 7] && a[k - m - 7] in a;
    assert forall k :: n <= k < |b| ==> b[k] == "\nprev="[k - n];
    assert i == m || i == n;
  }

  // A text that goes on into a bridge after another bridge has begun contains the whole of that one.
  lemma ReachesPast(x: string, s: string, a: string, p: string, s': string, a': string, p': string)
    requires |x| > 0 && x + (Bridge(s, a) + p) == Bridge(s', a') + p'
    ensures |x| >= |Bridge(s', a')|
  {
    var t, b := x + (Bridge(s, a) + p), Bridge(s', a');
    assert t[|x|] == Bridge(s, a)[0] == '\n' && t[|x| + 1] == Bridge(s, a)[1] == 's';
    if |x| < |b| {
      assert b[|x|] == t[|x|];
      BridgeLines(s', a', |x|);
    }
  }

  lemma Overlap(x: string, y: string, b: string, p: string)
    requires x + y == b + p && |x| >= |b|
    ensures x == b + x[|b|..] && p == x[|b|..] + y
  {
    assert b == (b + p)[..|b|] == (x + y)[..|b|] == x[..|b|];
    assert p == (b + p)[|b|..] == (x + y)[|b|..] == x[|b|..] + y;
  }

  // If the types differ, the longer one spells out the other record's lines, and that one's link the rest.
  lemma LongerTypeSpells(a: Record, b: Record)
    requires Middle(a) == Middle(b) && |a.kind| > |b.kind|
    ensures Spells(a.kind) && Spells(b.prevHash)
  {
    var n := |b.kind|;
    var x, rest := a.kind[n..], Bridge(a.subject, a.actor) + a.prevHash;
    assert a.kind + rest == b.kind + (Bridge(b.subject, b.actor) + b.prevHash);
    Overlap(a.kind, rest, b.kind, Bridge(b.subject, b.actor) + b.prevHash);
    ReachesPast(x, a.subject, a.actor, a.prevHash, b.subject, b.actor, b.prevHash);
    Overlap(x, rest, Bridge(b.subject, b.actor), b.prevHash);
    var y := x[|Bridge(b.subject, b.actor)|..];
    assert a.kind == Spelling(b.kind, b.subject, b.actor, y);
    assert b.prevHash == Spelling(y, a.subject, a.actor, a.prevHash);
  }

  lemma SameTypeParses(a: Record, b: Record)
    requires Middle(a) == Middle(b) && |a.kind| == |b.kind|
    ensures a.kind == b.kind && a.subject == b.subject && a.actor == b.actor && a.prevHash == b.prevHash
  {
    Overlap(a.kind, Bridge(a.subject, a.actor) + a.prevHash, b.kind, Bridge(b.subject, b.actor) + b.prevHash);
    assert a.kind[|b.kind|..] == "";
    BridgeParses(Escape(a.subject), Escape(a.actor), a.prevHash, Escape(b.subject), Escape(b.actor), b.prevHash, a, b);
    EscapeInjective(a.subject, b.subject);
    EscapeInjective(a.actor, b.actor);
  }

  lemma BridgeParses(s: string, c: string, p: string, s': string, c': string, p': string, a: Record, b: Record)
    requires s == Escape(a.subject) && c == Escape(a.actor) && s' == Escape(b.subject) && c' == Escape(b.actor)
    requires Bridge(a.subject, a.actor) + p == Bridge(b.subject, b.actor) + p'
    ensures s == s' && c == c' && p == p'
  {
    EscapedHasNoDelimiter(a.subject);
    EscapedHasNoDelimiter(a.actor);
    EscapedHasNoDelimiter(b.subject);
    EscapedHasNoDelimiter(b.actor);
    LinesOfBridge(s, c, p);
    LinesOfBridge(s', c', p');
    DropPrefix("\nsubject=", s + ['\n'] + ("actor=" + (c + ['\n'] + ("prev=" + p))),
      s' + ['\n'] + ("actor=" + (c' + ['\n'] + ("prev=" + p'))));
    SplitAtFirst(s, "actor=" + (c + ['\n'] + ("prev=" + p)), s', "actor=" + (c' + ['\n'] + ("prev=" + p')), '\n');
    DropPrefix("actor=", c + ['\n'] + ("prev=" + p), c' + ['\n'] + ("prev=" + p'));
    SplitAtFirst(c, "prev=" + p, c', "prev=" + p', '\n');
    DropPrefix("prev=", p, p');
  }

  lemma LinesOfBridge(s: string, c: string, p: string)
    ensures "\nsubject=" + (s + ("\nactor=" + (c + "\nprev="))) + p ==
            "\nsubject=" + (s + ['\n'] + ("actor=" + (c + ['\n'] + ("prev=" + p))))
  {
    PrevLabel(p);
    Assoc(c, ['\n'], "prev=" + p);
    Assoc(c, "\nprev=", p);
    ActorLabel(c + ("\nprev=" + p));
    Assoc(s, ['\n'], "actor=" + (c + ("\nprev=" + p)));
    Assoc("\nactor=", c + "\nprev=", p);
    Assoc(s, "\nactor=" + (c + "\nprev="), p);
    Assoc("\nsubject=", s + ("\nactor=" + (c + "\nprev=")), p);
  }

  // ---------- which records are ambiguous ----------

  /**
   Two different records share a preimage only if the type of one and the link of the other both spell
   out the lines between a type and a link.
   */
  lemma ClashSpells(a: Record, b: Record)
    requires Canonical(a) == Canonical(b) && Content(a) != Content(b)
    ensures (Spells(a.kind) && Spells(b.prevHash)) || (Spells(b.kind) && Spells(a.prevHash))
  {
    SamePreimageIff(a, b);
    if |a.kind| == |b.kind| {
      SameTypeParses(a, b);
    } else if |a.kind| > |b.kind| {
      LongerTypeSpells(a, b);
    } else {
      LongerTypeSpells(b, a);
    }
  }

  /** A record whose type spells those lines, and the record they and its link make. */
  lemma TwinOfType(r: Record, t: string, s: string, a: string, p: string) returns (twin: Record)
    requires r.kind == Spelling(t, s, a, p)
    ensures twin == r.(kind := t, subject := s, actor := a, prevHash := Spelling(p, r.subject, r.actor, r.prevHash))
    ensures Canonical(twin) == Canonical(r) && Content(twin) != Content(r)
  {
    twin := r.(kind := t, subject := s, actor := a, prevHash := Spelling(p, r.subject, r.actor, r.prevHash));
    SameSpelling(t, s, a, p, r.subject, r.actor, r.prevHash);
    SamePreimageIff(twin, r);
    assert |twin.kind| < |r.kind|;
    assert Content(twin).kind == twin.kind && Content(r).kind == r.kind;
  }

  /** A record whose link spells them, and the record they and its type make. */
  lemma TwinOfLink(r: Record, t: string, s: string, a: string, p: string) returns (twin: Record)
    requires r.prevHash == Spelling(t, s, a, p)
    ensures twin == r.(kind := Spelling(r.kind, r.subject, r.actor, t), subject := s, actor := a, prevHash := p)
    ensures Canonical(twin) == Canonical(r) && Content(twin) != Content(r)
  {
    twin := r.(kind := Spelling(r.kind, r.subject, r.actor, t), subject := s, actor := a, prevHash := p);
    SameSpelling(r.kind, r.subject, r.actor, t, s, a, p);
    SamePreimageIff(twin, r);
    assert |twin.kind| > |r.kind|;
    assert Content(twin).kind == twin.kind && Content(r).kind == r.kind;
  }

  lemma SameSpelling(t: string, s: string, a: string, p: string, s': string, a': string, p': string)
    ensures Spelling(Spelling(t, s, a, p), s', a', p') == Spelling(t, s, a, Spelling(p, s', a', p'))
  {
    Assoc(t, Bridge(s, a) + p, Bridge(s', a') + p');
    Assoc(Bridge(s, a), p, Bridge(s', a') + p');
  }

  /**
   Exactly which records are ambiguous: another record shares the preimage if and only if the type or
   the link spells out a type, a subject, an actor and a link.
   */
  lemma AmbiguousIff(r: Record)
    ensures (exists b :: Canonical(b) == Canonical(r) && Content(b) != Content(r)) <==>
            Spells(r.kind) || Spells(r.prevHash)
  {
    if b :| Canonical(b) == Canonical(r) && Content(b) != Content(r) { ClashSpells(b, r); }
    if t, s, a, p :| r.kind == Spelling(t, s, a, p) {
      var twin := TwinOfType(r, t, s, a, p);
    }
    if t, s, a, p :| r.prevHash == Spelling(t, s, a, p) {
      var twin := TwinOfLink(r, t, s, a, p);
    }
  }

  lemma SpellingHasLines(t: string, s: string, a: string, p: string)
    ensures '\n' in Spelling(t, s, a, p)
  {
    assert Spelling(t, s, a, p)[|t|] == Bridge(s, a)[0] == '\n';
  }

  lemma OneLineSpellsNothing(x: string)
    requires '\n' !in x
    ensures !Spells(x)
  {
    forall t, s, a, p ensures x != Spelling(t, s, a, p) { SpellingHasLines(t, s, a, p); }
  }

  /**
   A record with an event type and a link of one line cannot be forged: whatever the types and links
   of other records, one with its preimage is that record.
   */
  lemma OneLineTypeAndLinkSuffice(honest: Record, other: Record)
    requires '\n' !in honest.kind && '\n' !in honest.prevHash
    ensures Canonical(honest) == Canonical(other) <==> Content(honest) == Content(other)
  {
    OneLineSpellsNothing(honest.kind);
    OneLineSpellsNothing(honest.prevHash);
    if Content(honest) == Content(other) { SameContentSamePreimage(honest, other); }
    if Canonical(honest) == Canonical(other) && Content(honest) != Content(other) { ClashSpells(honest, other); }
  }

  lemma SameContentSamePreimage(a: Record, b: Record)
    requires Content(a) == Content(b)
    ensures Canonical(a) == Canonical(b)
  {
    SamePreimageIff(a, b);
    assert Content(a).kind == a.kind && Content(b).kind == b.kind;
  }

  /**
   The canonical form is injective on records whose predecessor hash holds no newline: equal
   preimages mean the same sequence number, instant, type, subject, actor, detail and link. The
   event type is not escaped, and does not have to be.
   */
  lemma CanonicalInjective(a: Record, b: Record)
    requires '\n' !in a.prevHash && '\n' !in b.prevHash
    ensures Canonical(a) == Canonical(b) <==> Content(a) == Content(b)
  {
    OneLineSpellsNothing(a.prevHash);
    OneLineSpellsNothing(b.prevHash);
    if Content(a) == Content(b) { SameContentSamePreimage(a, b); }
    if Canonical(a) == Canonical(b) && Content(a) != Content(b) { ClashSpells(a, b); }
  }

  const MOMENT: Time := Time(2024, 1, 1, 0, 0, 0, 0)

  /** A record whose event type spells out the lines after it, down to a link. */
  const SPELLS_IN_TYPE: Record := Record(1, MOMENT, Spelling("t", "s", "a", "p"), "S", "A", map[], "P", "")

  /** A record whose link spells out the lines that are left. */
  const SPELLS_IN_LINK: Record := Record(1, MOMENT, "t", "s", "a", map[], Spelling("p", "S", "A", "P"), "")

  /** One such pair: the first has an ordinary link, and the second an ordinary type. */
  lemma AmbiguousWithoutCleanLink()
    ensures Canonical(SPELLS_IN_TYPE) == Canonical(SPELLS_IN_LINK)
    ensures Content(SPELLS_IN_TYPE) != Content(SPELLS_IN_LINK)
    ensures '\n' !in SPELLS_IN_TYPE.prevHash && '\n' in SPELLS_IN_LINK.prevHash
  {
    var twin := TwinOfType(SPELLS_IN_TYPE, "t", "s", "a", "p");
    SpellingHasLines("p", "S", "A", "P");
  }
}
