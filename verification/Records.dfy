/**
 An audit record and its canonical form, the preimage every hash commits to
 (internal/audit/chain.go). The point of the module is that the form can be read back in one
 way only, so nothing but a hash collision lets two records share a hash.
 */
module Records {
  import opened Text

  /** A UTC reading of the clock. `nanos` is what `Truncate(time.Second)` clears. */
  datatype Time = Time(year: nat, month: nat, day: nat, hour: nat, minute: nat, second: nat, nanos: nat)

  function Truncate(t: Time): Time {
    t.(nanos := 0)
  }

  datatype Record = Record(
    sequence: nat,
    time: Time,
    kind: string,
    subject: string,
    actor: string,
    detail: map<string, string>,
    prevHash: string,
    hash: string)

  // ---------- rendering ----------

  function EscapeChar(c: char): string {
    match c
    case '\\' => "\\\\"
    case '\n' => "\\n"
    case ':' => "\\c"
    case ';' => "\\s"
    case '=' => "\\e"
    case _ => [c]
  }

  function Escape(s: string): string {
    if |s| == 0 then [] else EscapeChar(s[0]) + Escape(s[1..])
  }

  function Clock(t: Time): string {
    Pad(t.hour, 2) + [':'] + (Pad(t.minute, 2) + [':'] + (Pad(t.second, 2) + ['Z']))
  }

  /** Section 5.6 of RFC 3339, to the second, in UTC. */
  function Rfc3339(t: Time): string {
    Pad(t.year, 4) + ['-'] + (Pad(t.month, 2) + ['-'] + (Pad(t.day, 2) + ['T'] + Clock(t)))
  }

  function Entry(k: string, v: string): string {
    Escape(k) + [':'] + (Escape(v) + [';'])
  }

  function RenderDetail(keys: seq<string>, detail: map<string, string>): string
    requires forall k :: k in keys ==> k in detail
  {
    if |keys| == 0 then [] else Entry(keys[0], detail[keys[0]]) + RenderDetail(keys[1..], detail)
  }

  function SortedDetail(detail: map<string, string>): string {
    SortedKeysEnumerates(detail.Keys);
    RenderDetail(SortedKeys(detail.Keys), detail)
  }

  function Lines(fields: seq<string>): string {
    if |fields| == 0 then [] else fields[0] + ['\n'] + Lines(fields[1..])
  }

  function Fields(r: Record): seq<string> {
    ["seq=" + Decimal(r.sequence), "time=" + Rfc3339(r.time), "type=" + r.kind,
     "subject=" + Escape(r.subject), "actor=" + Escape(r.actor),
     "prev=" + r.prevHash, "detail=" + SortedDetail(r.detail)]
  }

  /** The hash preimage: one `key=value` line a field, in a frozen order. */
  function Canonical(r: Record): string {
    Lines(Fields(r))
  }

  lemma Assoc<T>(a: seq<T>, b: seq<T>, c: seq<T>)
    ensures a + b + c == a + (b + c)
  {
  }

  lemma {:induction false} RenderDetailSnoc(keys: seq<string>, k: string, detail: map<string, string>)
    requires k in detail && forall x :: x in keys ==> x in detail
    ensures RenderDetail(keys + [k], detail) == RenderDetail(keys, detail) + Entry(k, detail[k])
  {
    var all := keys + [k];
    if |keys| == 0 {
      assert all == [k] && all[1..] == [];
    } else {
      assert all[1..] == keys[1..] + [k] && all[0] == keys[0];
      RenderDetailSnoc(keys[1..], k, detail);
      Assoc(Entry(keys[0], detail[keys[0]]), RenderDetail(keys[1..], detail), Entry(k, detail[k]));
    }
  }

  lemma {:induction false} LinesSnoc(fields: seq<string>, f: string)
    ensures Lines(fields + [f]) == Lines(fields) + (f + ['\n'])
  {
    var all := fields + [f];
    if |fields| == 0 {
      assert all == [f] && all[1..] == [];
    } else {
      assert all[1..] == fields[1..] + [f] && all[0] == fields[0];
      LinesSnoc(fields[1..], f);
      Assoc(fields[0] + ['\n'], Lines(fields[1..]), f + ['\n']);
    }
  }

  // Lines without the final terminator: what the builder holds while a line is open.
  function Joined(fields: seq<string>): string
    requires |fields| > 0
  {
    var n := |fields| - 1;
    if n == 0 then fields[0] else Joined(fields[..n]) + ['\n'] + fields[n]
  }

  lemma {:induction false} JoinedLines(fields: seq<string>)
    requires |fields| > 0
    ensures Lines(fields) == Joined(fields) + ['\n']
  {
    var n := |fields| - 1;
    assert fields == fields[..n] + [fields[n]];
    LinesSnoc(fields[..n], fields[n]);
    if n > 0 {
      JoinedLines(fields[..n]);
      Assoc(Joined(fields[..n]) + ['\n'], fields[n], ['\n']);
    }
  }

  // Writing a separator with a key in it, then a value, closes one line and opens the next.
  method WriteField(b: string, separator: string, value: string, ghost fields: seq<string>, ghost i: nat)
    returns (r: string)
    requires 0 < i < |fields| && b == Joined(fields[..i])
    requires ['\n'] + fields[i] == separator + value
    ensures r == Joined(fields[..i + 1])
    ensures r == b + separator + value
  {
    assert fields[..i + 1][..i] == fields[..i];
    Assoc(b, ['\n'], fields[i]);
    Assoc(b, separator, value);
    r := b + separator;
    r := r + value;
  }

  lemma Separator(separator: string, key: string, value: string)
    requires separator == ['\n'] + key
    ensures ['\n'] + (key + value) == separator + value
  {
  }

  // Each line of the canonical form as the separator and the value that are written for it.
  ghost predicate WrittenAs(f: seq<string>, r: Record) {
    && |f| == 7
    && f[0] == "seq=" + Decimal(r.sequence)
    && ['\n'] + f[1] == "\ntime=" + Rfc3339(r.time)
    && ['\n'] + f[2] == "\ntype=" + r.kind
    && ['\n'] + f[3] == "\nsubject=" + Escape(r.subject)
    && ['\n'] + f[4] == "\nactor=" + Escape(r.actor)
    && ['\n'] + f[5] == "\nprev=" + r.prevHash
    && ['\n'] + f[6] == "\ndetail=" + SortedDetail(r.detail)
  }

  lemma TimeLabel(v: string)
    ensures ['\n'] + ("time=" + v) == "\ntime=" + v
  {
    Separator("\ntime=", "time=", v);
  }

  lemma TypeLabel(v: string)
    ensures ['\n'] + ("type=" + v) == "\ntype=" + v
  {
    Separator("\ntype=", "type=", v);
  }

  lemma SubjectLabel(v: string)
    ensures ['\n'] + ("subject=" + v) == "\nsubject=" + v
  {
    Separator("\nsubject=", "subject=", v);
  }

  lemma ActorLabel(v: string)
    ensures ['\n'] + ("actor=" + v) == "\nactor=" + v
  {
    Separator("\nactor=", "actor=", v);
  }

  lemma PrevLabel(v: string)
    ensures ['\n'] + ("prev=" + v) == "\nprev=" + v
  {
    Separator("\nprev=", "prev=", v);
  }

  lemma DetailLabel(v: string)
    ensures ['\n'] + ("detail=" + v) == "\ndetail=" + v
  {
    Separator("\ndetail=", "detail=", v);
  }

  lemma FieldsWritten(r: Record)
    ensures WrittenAs(Fields(r), r)
  {
    TimeLabel(Rfc3339(r.time));
    TypeLabel(r.kind);
    SubjectLabel(Escape(r.subject));
    ActorLabel(Escape(r.actor));
    PrevLabel(r.prevHash);
    DetailLabel(SortedDetail(r.detail));
  }

  method RenderFields(r: Record, ghost f: seq<string>) returns (b: string)
    requires WrittenAs(f, r)
    ensures b == Joined(f[..6])
    ensures b == "seq=" + Decimal(r.sequence) + "\ntime=" + Rfc3339(r.time) + "\ntype=" + r.kind
                 + "\nsubject=" + Escape(r.subject) + "\nactor=" + Escape(r.actor) + "\nprev=" + r.prevHash
  {
    b := "seq=" + Decimal(r.sequence);
    assert b == Joined(f[..1]);
    b := WriteField(b, "\ntime=", Rfc3339(r.time), f, 1);
    b := WriteField(b, "\ntype=", r.kind, f, 2);
    b := WriteField(b, "\nsubject=", Escape(r.subject), f, 3);
    b := WriteField(b, "\nactor=", Escape(r.actor), f, 4);
    b := WriteField(b, "\nprev=", r.prevHash, f, 5);
  }

  method CollectKeys(detail: map<string, string>) returns (keys: seq<string>)
    ensures Distinct(keys) && forall k :: k in keys <==> k in detail.Keys
  {
    keys := [];
    var rest := detail.Keys;
    while rest != {}
      invariant rest <= detail.Keys && Distinct(keys)
      invariant forall k :: k in keys <==> k in detail.Keys - rest
      decreases rest
    {
      var k :| k in rest;
      assert k !in keys;
      keys := keys + [k];
      rest := rest - {k};
    }
  }

  method RenderEntries(start: string, keys: seq<string>, detail: map<string, string>) returns (b: string)
    requires forall k :: k in keys ==> k in detail
    ensures b == start + RenderDetail(keys, detail)
  {
    b := start;
    var i := 0;
    while i < |keys|
      invariant 0 <= i <= |keys|
      invariant b == start + RenderDetail(keys[..i], detail)
    {
      var k := keys[i];
      assert keys[..i + 1] == keys[..i] + [k];
      RenderDetailSnoc(keys[..i], k, detail);
      EntryPieces(b, k, detail[k]);
      Assoc(start, RenderDetail(keys[..i], detail), Entry(k, detail[k]));
      b := b + Escape(k) + ":" + Escape(detail[k]) + ";";
      i := i + 1;
    }
    assert keys[..i] == keys;
  }

  /** `Record.Canonical`: the order the detail map is walked in cannot reach the result. */
  method RenderCanonical(r: Record) returns (b: string)
    ensures b == Canonical(r)
    ensures b == "seq=" + Decimal(r.sequence) + "\ntime=" + Rfc3339(r.time) + "\ntype=" + r.kind
                 + "\nsubject=" + Escape(r.subject) + "\nactor=" + Escape(r.actor) + "\nprev=" + r.prevHash
                 + "\ndetail=" + SortedDetail(r.detail) + "\n"
  {
    FieldsWritten(r);
    b := RenderFields(r, Fields(r));
    b := b + "\ndetail=";
    var keys := CollectKeys(r.detail);
    SortOfEnumeration(keys, r.detail.Keys);
    SortedKeysEnumerates(r.detail.Keys);
    keys := Sort(keys);
    b := RenderEntries(b, keys, r.detail);
    CanonicalFromOpened(r, Fields(r));
    b := b + "\n";
  }

  lemma EntryPieces(b: string, k: string, v: string)
    ensures b + Escape(k) + ":" + Escape(v) + ";" == b + Entry(k, v)
  {
    Assoc(b, Escape(k), ":");
    Assoc(b, Escape(k) + ":", Escape(v));
    Assoc(b, Escape(k) + ":" + Escape(v), ";");
    Assoc(Escape(k) + ":", Escape(v), ";");
  }

  lemma CanonicalFromOpened(r: Record, f: seq<string>)
    requires WrittenAs(f, r)
    ensures Lines(f) == Joined(f[..6]) + "\ndetail=" + SortedDetail(r.detail) + "\n"
  {
    JoinedLines(f);
    Assoc(Joined(f[..6]), ['\n'], f[6]);
    Assoc(Joined(f[..6]), "\ndetail=", SortedDetail(r.detail));
  }

  // ---------- what the parts look like ----------

  /** Escaping goes character by character, and changes exactly the five characters of the format. */
  lemma EscapesEachCharacter(s: string, t: string)
    ensures Escape(s + t) == Escape(s) + Escape(t)
    ensures Escape("\\") == "\\\\" && Escape("\n") == "\\n"
    ensures Escape(":") == "\\c" && Escape(";") == "\\s" && Escape("=") == "\\e"
    ensures forall c :: c !in "\\\n:;=" ==> Escape([c]) == [c]
  {
    forall c ensures Escape([c]) == EscapeChar(c) { EscapeOne(c); }
    EscapeJoins(s, t);
  }

  lemma EscapeOne(c: char)
    ensures Escape([c]) == EscapeChar(c)
  {
    assert [c][1..] == [] && EscapeChar(c) + [] == EscapeChar(c);
  }

  lemma {:induction false} EscapeJoins(s: string, t: string)
    ensures Escape(s + t) == Escape(s) + Escape(t)
  {
    if |s| == 0 {
      assert s + t == t;
    } else {
      assert (s + t)[1..] == s[1..] + t;
      EscapeJoins(s[1..], t);
      Assoc(EscapeChar(s[0]), Escape(s[1..]), Escape(t));
    }
  }

  /** The fields of a moment stand where section 5.6 of RFC 3339 puts them, in decimal. */
  lemma Rfc3339Layout(t: Time)
    requires t.year < 10_000 && t.month < 100 && t.day < 100 && t.hour < 100 && t.minute < 100 && t.second < 100
    ensures var s := Rfc3339(t);
            && |s| == 20 && s[4] == '-' && s[7] == '-' && s[10] == 'T' && s[13] == ':' && s[16] == ':' && s[19] == 'Z'
            && Digits(s[..4]) && Value(s[..4]) == t.year
            && Digits(s[5..7]) && Value(s[5..7]) == t.month
            && Digits(s[8..10]) && Value(s[8..10]) == t.day
            && Digits(s[11..13]) && Value(s[11..13]) == t.hour
            && Digits(s[14..16]) && Value(s[14..16]) == t.minute
            && Digits(s[17..19]) && Value(s[17..19]) == t.second
  {
    PadFits(t.year, 4);
    TwoDigits(t.month);
    TwoDigits(t.day);
    TwoDigits(t.hour);
    TwoDigits(t.minute);
    TwoDigits(t.second);
    assert Pow10(4) == 10 * Pow10(3) && Pow10(3) == 10 * Pow10(2) && Pow10(2) == 10 * Pow10(1);
    DateLayout(Pad(t.year, 4), Pad(t.month, 2), Pad(t.day, 2), Clock(t));
    ClockLayout(Pad(t.hour, 2), Pad(t.minute, 2), Pad(t.second, 2));
    assert Rfc3339(t)[11..] == Clock(t);
    AfterDate(Rfc3339(t), Clock(t));
  }

  lemma PadFits(n: nat, width: nat)
    requires width > 0 && n < Pow10(width)
    ensures |Pad(n, width)| == width && Value(Pad(n, width)) == n
  {
    DecimalLength(n, width);
    ValueOfPad(n, width);
  }

  lemma TwoDigits(n: nat)
    requires n < 100
    ensures |Pad(n, 2)| == 2 && Value(Pad(n, 2)) == n
  {
    assert Pow10(2) == 10 * Pow10(1) && Pow10(1) == 10 * Pow10(0);
    PadFits(n, 2);
  }

  lemma DateLayout(year: string, month: string, day: string, clock: string)
    requires |year| == 4 && |month| == 2 && |day| == 2
    ensures var s := year + ['-'] + (month + ['-'] + (day + ['T'] + clock));
            && |s| == 11 + |clock| && s[4] == '-' && s[7] == '-' && s[10] == 'T'
            && s[..4] == year && s[5..7] == month && s[8..10] == day && s[11..] == clock
  {
  }

  lemma ClockLayout(hour: string, minute: string, second: string)
    requires |hour| == 2 && |minute| == 2 && |second| == 2
    ensures var s := hour + [':'] + (minute + [':'] + (second + ['Z']));
            && |s| == 9 && s[2] == ':' && s[5] == ':' && s[8] == 'Z'
            && s[..2] == hour && s[3..5] == minute && s[6..8] == second
  {
  }

  lemma AfterDate(s: string, clock: string)
    requires |s| == 20 && |clock| == 9 && s[11..] == clock
    ensures s[13] == clock[2] && s[16] == clock[5] && s[19] == clock[8]
    ensures s[11..13] == clock[..2] && s[14..16] == clock[3..5] && s[17..19] == clock[6..8]
  {
  }

  /** The pieces that a rendered detail is made of: where each starts, and where the last one ends. */
  ghost predicate Pieces(s: string, keys: seq<string>, detail: map<string, string>, at: seq<nat>) {
    && |at| == |keys| + 1 && at[0] == 0 && at[|keys|] == |s|
    && forall i :: 0 <= i < |keys| ==> keys[i] in detail && PieceAt(s, at, i, keys[i], detail[keys[i]])
  }

  predicate PieceAt(s: string, at: seq<nat>, i: nat, k: string, v: string)
    requires i + 1 < |at|
  {
    at[i] <= at[i + 1] <= |s| && s[at[i]..at[i + 1]] == Escape(k) + ":" + Escape(v) + ";"
  }

  /** The detail is one `key:value;` after another, both escaped, every key once and in byte order. */
  lemma DetailLayout(detail: map<string, string>) returns (keys: seq<string>, at: seq<nat>)
    ensures StrictlySorted(keys) && forall k :: k in keys <==> k in detail
    ensures Pieces(SortedDetail(detail), keys, detail, at)
  {
    keys := SortedKeys(detail.Keys);
    SortedKeysEnumerates(detail.Keys);
    at := RenderedPieces(keys, detail);
  }

  lemma {:induction false} RenderedPieces(keys: seq<string>, detail: map<string, string>) returns (at: seq<nat>)
    requires forall k :: k in keys ==> k in detail
    ensures Pieces(RenderDetail(keys, detail), keys, detail, at)
  {
    at := [0];
    if |keys| > 0 {
      var n := |keys| - 1;
      var front := RenderedPieces(keys[..n], detail);
      assert keys == keys[..n] + [keys[n]];
      RenderDetailSnoc(keys[..n], keys[n], detail);
      at := front + [|RenderDetail(keys, detail)|];
      PiecesGrow(RenderDetail(keys[..n], detail), keys[..n], keys[n], detail, front);
    }
  }

  lemma PiecesGrow(s: string, keys: seq<string>, k: string, detail: map<string, string>, at: seq<nat>)
    requires k in detail && Pieces(s, keys, detail, at)
    ensures var t := s + Entry(k, detail[k]); Pieces(t, keys + [k], detail, at + [|t|])
  {
    var t, all, ends := s + Entry(k, detail[k]), keys + [k], at + [|s + Entry(k, detail[k])|];
    forall i | 0 <= i < |all| ensures all[i] in detail && PieceAt(t, ends, i, all[i], detail[all[i]]) {
      if i < |keys| {
        assert PieceAt(s, at, i, keys[i], detail[keys[i]]);
        PieceStays(s, Entry(k, detail[k]), at, ends, i, keys[i], detail[keys[i]]);
      } else {
        assert t[|s|..|t|] == Entry(k, detail[k]);
        assert Entry(k, detail[k]) == Escape(k) + ":" + Escape(detail[k]) + ";";
      }
    }
  }

  lemma PieceStays(s: string, more: string, at: seq<nat>, ends: seq<nat>, i: nat, k: string, v: string)
    requires i + 1 < |at| && at <= ends && PieceAt(s, at, i, k, v)
    ensures PieceAt(s + more, ends, i, k, v)
  {
    assert (s + more)[at[i]..at[i + 1]] == s[at[i]..at[i + 1]];
  }

  // ---------- reading it back ----------

  /** The left inverse of `Escape`. */
  function Unescape(s: string): string {
    if |s| == 0 then []
    else if s[0] == '\\' && |s| > 1 then
      (match s[1]
       case 'n' => "\n"
       case 'c' => ":"
       case 's' => ";"
       case 'e' => "="
       case _ => [s[1]]) + Unescape(s[2..])
    else [s[0]] + Unescape(s[1..])
  }

  lemma UnescapeStep(c: char, rest: string)
    ensures Unescape(EscapeChar(c) + rest) == [c] + Unescape(rest)
  {
    var t := EscapeChar(c) + rest;
    assert t[|EscapeChar(c)|..] == rest;
  }

  lemma {:induction false} UnescapeInvertsEscape(s: string)
    ensures Unescape(Escape(s)) == s
  {
    if |s| > 0 {
      UnescapeInvertsEscape(s[1..]);
      UnescapeStep(s[0], Escape(s[1..]));
    }
  }

  predicate Delimiter(c: char) {
    c == '\n' || c == ':' || c == ';' || c == '='
  }

  lemma {:induction false} EscapedHasNoDelimiter(s: string)
    ensures forall c :: c in Escape(s) ==> !Delimiter(c)
  {
    if |s| > 0 {
      EscapedHasNoDelimiter(s[1..]);
      assert forall c :: c in EscapeChar(s[0]) ==> !Delimiter(c);
    }
  }

  lemma EscapeInjective(a: string, b: string)
    ensures Escape(a) == Escape(b) <==> a == b
  {
    UnescapeInvertsEscape(a);
    UnescapeInvertsEscape(b);
  }

  lemma {:induction false} DetailHasNoNewline(keys: seq<string>, detail: map<string, string>)
    requires forall k :: k in keys ==> k in detail
    ensures '\n' !in RenderDetail(keys, detail)
  {
    if |keys| > 0 {
      EscapedHasNoDelimiter(keys[0]);
      EscapedHasNoDelimiter(detail[keys[0]]);
      DetailHasNoNewline(keys[1..], detail);
    }
  }

  lemma EntryParses(k: string, v: string, x: string, l: string, w: string, y: string)
    requires Entry(k, v) + x == Entry(l, w) + y
    ensures k == l && v == w && x == y
  {
    EscapedHasNoDelimiter(k);
    EscapedHasNoDelimiter(v);
    EscapedHasNoDelimiter(l);
    EscapedHasNoDelimiter(w);
    Assoc(Escape(k) + [':'], Escape(v) + [';'], x);
    Assoc(Escape(l) + [':'], Escape(w) + [';'], y);
    SplitAtFirst(Escape(k), Escape(v) + [';'] + x, Escape(l), Escape(w) + [';'] + y, ':');
    SplitAtFirst(Escape(v), x, Escape(w), y, ';');
    EscapeInjective(k, l);
    EscapeInjective(v, w);
  }

  // The rendered detail can be parsed in one way: the keys, and the value under each.
  lemma {:induction false} DetailParses(
    a: seq<string>, m: map<string, string>, b: seq<string>, n: map<string, string>)
    requires forall k :: k in a ==> k in m
    requires forall k :: k in b ==> k in n
    requires RenderDetail(a, m) == RenderDetail(b, n)
    ensures a == b && forall k :: k in a ==> m[k] == n[k]
  {
    if |a| > 0 && |b| > 0 {
      EntryParses(a[0], m[a[0]], RenderDetail(a[1..], m), b[0], n[b[0]], RenderDetail(b[1..], n));
      DetailParses(a[1..], m, b[1..], n);
      assert a == [a[0]] + a[1..] && b == [b[0]] + b[1..];
    }
  }

  lemma SortedDetailInjective(m: map<string, string>, n: map<string, string>)
    ensures SortedDetail(m) == SortedDetail(n) <==> m == n
    ensures '\n' !in SortedDetail(m)
  {
    SortedKeysEnumerates(m.Keys);
    SortedKeysEnumerates(n.Keys);
    DetailHasNoNewline(SortedKeys(m.Keys), m);
    if SortedDetail(m) == SortedDetail(n) {
      DetailParses(SortedKeys(m.Keys), m, SortedKeys(n.Keys), n);
      assert m.Keys == n.Keys by {
        forall k ensures k in m.Keys <==> k in n.Keys {
          assert k in m.Keys <==> k in SortedKeys(m.Keys);
          assert k in n.Keys <==> k in SortedKeys(n.Keys);
        }
      }
    }
  }

  lemma DigitsAvoid(s: string, c: char)
    requires Digits(s) && !('0' <= c <= '9')
    ensures c !in s
  {
  }

  // One zero-padded field and the delimiter after it.
  lemma PadField(n: nat, m: nat, width: nat, c: char, x: string, y: string)
    requires !('0' <= c <= '9')
    requires Pad(n, width) + [c] + x == Pad(m, width) + [c] + y
    ensures n == m && x == y
  {
    DigitsAvoid(Pad(n, width), c);
    DigitsAvoid(Pad(m, width), c);
    SplitAtFirst(Pad(n, width), x, Pad(m, width), y, c);
    PadInjective(n, m, width);
  }

  lemma ClockInjective(t: Time, u: Time)
    requires Clock(t) == Clock(u)
    ensures t.hour == u.hour && t.minute == u.minute && t.second == u.second
  {
    PadField(t.hour, u.hour, 2, ':',
      Pad(t.minute, 2) + [':'] + (Pad(t.second, 2) + ['Z']),
      Pad(u.minute, 2) + [':'] + (Pad(u.second, 2) + ['Z']));
    PadField(t.minute, u.minute, 2, ':', Pad(t.second, 2) + ['Z'], Pad(u.second, 2) + ['Z']);
    assert Pad(t.second, 2) + ['Z'] == Pad(t.second, 2) + ['Z'] + [];
    assert Pad(u.second, 2) + ['Z'] == Pad(u.second, 2) + ['Z'] + [];
    PadField(t.second, u.second, 2, 'Z', [], []);
  }

  lemma Rfc3339Injective(t: Time, u: Time)
    ensures Rfc3339(t) == Rfc3339(u) <==> Truncate(t) == Truncate(u)
    ensures '\n' !in Rfc3339(t)
  {
    if Rfc3339(t) == Rfc3339(u) {
      PadField(t.year, u.year, 4, '-',
        Pad(t.month, 2) + ['-'] + (Pad(t.day, 2) + ['T'] + Clock(t)),
        Pad(u.month, 2) + ['-'] + (Pad(u.day, 2) + ['T'] + Clock(u)));
      PadField(t.month, u.month, 2, '-', Pad(t.day, 2) + ['T'] + Clock(t), Pad(u.day, 2) + ['T'] + Clock(u));
      PadField(t.day, u.day, 2, 'T', Clock(t), Clock(u));
      ClockInjective(t, u);
    }
  }

  /** What a hash commits to: everything but the hash itself, with the time to the second. */
  function Content(r: Record): Record {
    r.(time := Truncate(r.time), hash := "")
  }
}
