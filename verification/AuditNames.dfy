/**
 Object and file names derived from sequence numbers (internal/audit/recorder.go,
 internal/audit/archive.go): a name says which record or segment it is, and below 10^12 sorting
 the file names sorts the chain.
 */
module AuditNames {
  import opened Text

  const WIDTH: nat := 12

  function RecordName(sequence: nat): string {
    "audit-" + Pad(sequence, WIDTH)
  }

  function SegmentName(first: nat, last: nat): string {
    "audit-" + (Pad(first, WIDTH) + (['-'] + (Pad(last, WIDTH) + ".jsonl")))
  }

  /** `recordName` gives every record its own name, whatever the sequence numbers. */
  lemma RecordNameInjective(a: nat, b: nat)
    ensures RecordName(a) == RecordName(b) <==> a == b
  {
    if RecordName(a) == RecordName(b) {
      DropPrefix("audit-", Pad(a, WIDTH), Pad(b, WIDTH));
      PadInjective(a, b, WIDTH);
    }
  }

  lemma StripEnd(a: string, b: string, s: string)
    requires a + s == b + s
    ensures a == b
  {
    assert |a + s| == |b + s|;
    assert a == (a + s)[..|a|] && b == (b + s)[..|b|];
  }

  // Two padded numbers with a dash between them and a suffix after them.
  lemma PairParses(f: nat, l: nat, g: nat, m: nat, suffix: string)
    requires Pad(f, WIDTH) + (['-'] + (Pad(l, WIDTH) + suffix)) == Pad(g, WIDTH) + (['-'] + (Pad(m, WIDTH) + suffix))
    ensures f == g && l == m
  {
    var p, q := Pad(l, WIDTH) + suffix, Pad(m, WIDTH) + suffix;
    assert Pad(f, WIDTH) + (['-'] + p) == Pad(f, WIDTH) + ['-'] + p;
    assert Pad(g, WIDTH) + (['-'] + q) == Pad(g, WIDTH) + ['-'] + q;
    SplitAtFirst(Pad(f, WIDTH), p, Pad(g, WIDTH), q, '-');
    StripEnd(Pad(l, WIDTH), Pad(m, WIDTH), suffix);
    PadInjective(f, g, WIDTH);
    PadInjective(l, m, WIDTH);
  }

  /** `SegmentName` says which run of records a file holds. */
  lemma SegmentNameInjective(f: nat, l: nat, g: nat, m: nat)
    ensures SegmentName(f, l) == SegmentName(g, m) <==> f == g && l == m
  {
    if SegmentName(f, l) == SegmentName(g, m) {
      DropPrefix("audit-", Pad(f, WIDTH) + (['-'] + (Pad(l, WIDTH) + ".jsonl")),
        Pad(g, WIDTH) + (['-'] + (Pad(m, WIDTH) + ".jsonl")));
      PairParses(f, l, g, m, ".jsonl");
    }
  }

  // Comparing padded pairs is comparing the numbers, first one first.
  lemma PairOrder(f: nat, l: nat, g: nat, m: nat, suffix: string)
    requires f < Pow10(WIDTH) && l < Pow10(WIDTH) && g < Pow10(WIDTH) && m < Pow10(WIDTH)
    requires f != g || l != m
    ensures Less(Pad(f, WIDTH) + (['-'] + (Pad(l, WIDTH) + suffix)),
                 Pad(g, WIDTH) + (['-'] + (Pad(m, WIDTH) + suffix)))
            <==> f < g || (f == g && l < m)
  {
    PadOrder(f, g, WIDTH);
    PadOrder(l, m, WIDTH);
    var p, q := Pad(l, WIDTH) + suffix, Pad(m, WIDTH) + suffix;
    if f == g {
      if Pad(l, WIDTH) == Pad(m, WIDTH) { PadInjective(l, m, WIDTH); }
      LessAfterPrefix(Pad(f, WIDTH), ['-'] + p, ['-'] + q);
      LessAfterPrefix(['-'], p, q);
      LessBeforeSuffix(Pad(l, WIDTH), Pad(m, WIDTH), suffix, suffix);
    } else {
      if Pad(f, WIDTH) == Pad(g, WIDTH) { PadInjective(f, g, WIDTH); }
      LessBeforeSuffix(Pad(f, WIDTH), Pad(g, WIDTH), ['-'] + p, ['-'] + q);
    }
  }

  /** Below 10^12, the byte order of segment names is the numeric order of the (first, last) pairs. */
  lemma SegmentNameOrder(f: nat, l: nat, g: nat, m: nat)
    requires f < Pow10(WIDTH) && l < Pow10(WIDTH) && g < Pow10(WIDTH) && m < Pow10(WIDTH)
    ensures Less(SegmentName(f, l), SegmentName(g, m)) <==> f < g || (f == g && l < m)
  {
    if f == g && l == m {
      LessIrreflexive(SegmentName(f, l));
    } else {
      LessAfterPrefix("audit-", Pad(f, WIDTH) + (['-'] + (Pad(l, WIDTH) + ".jsonl")),
        Pad(g, WIDTH) + (['-'] + (Pad(m, WIDTH) + ".jsonl")));
      PairOrder(f, l, g, m, ".jsonl");
    }
  }

  /** A record's name is its number after a fixed prefix, padded to twelve digits. */
  lemma RecordNameLayout(sequence: nat)
    ensures var name := RecordName(sequence);
            && |name| >= 18 && name[..6] == "audit-" && Digits(name[6..]) && Value(name[6..]) == sequence
            && (sequence < Pow10(12) ==> |name| == 18)
  {
    ValueOfPad(sequence, WIDTH);
    assert RecordName(sequence)[6..] == Pad(sequence, WIDTH);
    if sequence < Pow10(12) { DecimalLength(sequence, 12); }
  }

  /** A segment's name is its two numbers, padded alike, with a dash between them. */
  lemma SegmentNameLayout(first: nat, last: nat) returns (a: string, b: string)
    ensures SegmentName(first, last) == "audit-" + a + "-" + b + ".jsonl"
    ensures Digits(a) && Value(a) == first && |a| >= 12 && (first < Pow10(12) ==> |a| == 12)
    ensures Digits(b) && Value(b) == last && |b| >= 12 && (last < Pow10(12) ==> |b| == 12)
  {
    a, b := Pad(first, WIDTH), Pad(last, WIDTH);
    ValueOfPad(first, WIDTH);
    ValueOfPad(last, WIDTH);
    if first < Pow10(12) { DecimalLength(first, 12); }
    if last < Pow10(12) { DecimalLength(last, 12); }
    assert "audit-" + a + "-" + b + ".jsonl" == "audit-" + (a + (['-'] + (b + ".jsonl")));
  }
}
