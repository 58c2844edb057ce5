/**
 Object names derived from registry identifiers (internal/naming/naming.go): the rewriting that
 flattens an arbitrary string into label characters, the normal form it equals, and the names
 built from it.

 Lower-casing and the hexadecimal digest are parameters; what is asked of them is stated where a
 lemma needs it.
 */
module Naming {
  const MAX_NAME_LENGTH: nat := 63
  const HASH_LENGTH: nat := 10
  const UNNAMED: string := "unnamed"

  predicate Alnum(c: char) {
    'a' <= c <= 'z' || '0' <= c <= '9'
  }

  predicate LabelChar(c: char) {
    Alnum(c) || c == '-'
  }

  predicate AllAlnum(s: string) {
    forall i :: 0 <= i < |s| ==> Alnum(s[i])
  }

  predicate AllLabel(s: string) {
    forall i :: 0 <= i < |s| ==> LabelChar(s[i])
  }

  /** A label by section 2.1 of RFC 1123, in lower case as Kubernetes wants it. */
  predicate ValidLabel(s: string) {
    1 <= |s| <= MAX_NAME_LENGTH && AllLabel(s) && Alnum(s[0]) && Alnum(s[|s| - 1])
  }

  // ---------- the normal form: maximal [a-z0-9] runs, joined by single dashes ----------

  function Flush(run: string): seq<string> {
    if run == "" then [] else [run]
  }

  /** The maximal [a-z0-9] runs of `run + s`, given that `run` is one that may go on into `s`. */
  function RunsFrom(s: string, run: string): seq<string>
    decreases |s|
  {
    if |s| == 0 then Flush(run)
    else if Alnum(s[0]) then RunsFrom(s[1..], run + [s[0]])
    else Flush(run) + RunsFrom(s[1..], "")
  }

  function Runs(s: string): seq<string> {
    RunsFrom(s, "")
  }

  function Join(parts: seq<string>, separator: string): string {
    if |parts| == 0 then ""
    else if |parts| == 1 then parts[0]
    else parts[0] + (separator + Join(parts[1..], separator))
  }

  /** A separator stands between each part and the next, and nowhere else. */
  lemma {:induction false} JoinSnoc(parts: seq<string>, last: string, separator: string)
    ensures Join([], separator) == ""
    ensures Join(parts + [last], separator) == if parts == [] then last else Join(parts, separator) + separator + last
  {
    if |parts| > 1 {
      assert (parts + [last])[1..] == parts[1..] + [last];
      JoinSnoc(parts[1..], last, separator);
    } else if |parts| == 1 {
      assert (parts + [last])[1..] == [last];
    }
  }

  function Slug(s: string): string {
    if Runs(s) == [] then UNNAMED else Join(Runs(s), "-")
  }

  predicate AreRuns(words: seq<string>) {
    forall i :: 0 <= i < |words| ==> words[i] != "" && AllAlnum(words[i])
  }

  lemma {:induction false} RunsAreRuns(s: string, run: string)
    requires AllAlnum(run)
    ensures AreRuns(RunsFrom(s, run))
    ensures |s| > 0 && Alnum(s[0]) ==> RunsFrom(s, run) != []
    ensures run != "" ==> RunsFrom(s, run) != []
    decreases |s|
  {
    if |s| > 0 {
      RunsAreRuns(s[1..], if Alnum(s[0]) then run + [s[0]] else "");
    }
  }

  /** The letters and digits at these positions are a run that cannot be made longer either way. */
  predicate MaximalRun(s: string, from: nat, to: nat) {
    && from < to <= |s| && AllAlnum(s[from..to])
    && (from > 0 ==> !Alnum(s[from - 1])) && (to < |s| ==> !Alnum(s[to]))
  }

  /** From this position on, the runs of a text are these stretches of it, left to right, and no others. */
  ghost predicate RunsAt(s: string, start: nat, words: seq<string>, from: seq<nat>, to: seq<nat>) {
    && |from| == |to| == |words|
    && (forall i :: 0 <= i < |words| ==> RunAt(s, start, words[i], from[i], to[i]))
    && Ascending(from, to)
    && Covered(s, start, from, to)
  }

  predicate RunAt(s: string, start: nat, word: string, from: nat, to: nat) {
    start <= from && MaximalRun(s, from, to) && word == s[from..to]
  }

  predicate Ascending(from: seq<nat>, to: seq<nat>) {
    |from| == |to| && forall i, j :: 0 <= i < j < |from| ==> to[i] < from[j]
  }

  ghost predicate Covered(s: string, start: nat, from: seq<nat>, to: seq<nat>) {
    forall p :: start <= p < |s| && Alnum(s[p]) ==> Within(from, to, p)
  }

  ghost predicate Within(from: seq<nat>, to: seq<nat>, p: nat) {
    exists i :: 0 <= i < |from| && i < |to| && from[i] <= p < to[i]
  }

  /**
   The runs of a text are its maximal stretches of `a` to `z` and `0` to `9`, all of them, in order. So
   any other characters separate, however many, and none of them is in a run.
   */
  lemma RunsAreMaximal(s: string) returns (from: seq<nat>, to: seq<nat>)
    ensures RunsAt(s, 0, Runs(s), from, to)
  {
    assert s[0..] == s && s[0..0] == "";
    from, to := RunsFromHere(s, 0, 0);
  }

  // `b` is where the run that position `k` may go on began.
  lemma {:induction false} RunsFromHere(s: string, b: nat, k: nat) returns (from: seq<nat>, to: seq<nat>)
    requires b <= k <= |s| && AllAlnum(s[b..k]) && (b > 0 ==> !Alnum(s[b - 1]))
    ensures RunsAt(s, b, RunsFrom(s[k..], s[b..k]), from, to)
    decreases |s| - k
  {
    if k == |s| {
      from, to := RunEnds(s, b, k, [], [], []);
      assert Flush(s[b..k]) + [] == Flush(s[b..k]);
    } else if Alnum(s[k]) {
      assert s[k..][1..] == s[k + 1..] && s[b..k] + [s[k]] == s[b..k + 1];
      from, to := RunsFromHere(s, b, k + 1);
    } else {
      assert s[k..][1..] == s[k + 1..] && s[k + 1..k + 1] == "";
      var f, t := RunsFromHere(s, k + 1, k + 1);
      from, to := RunEnds(s, b, k, RunsFrom(s[k + 1..], ""), f, t);
    }
  }

  // The run that ends at position `k`, if there is one, and the runs after it.
  lemma RunEnds(s: string, b: nat, k: nat, rest: seq<string>, f: seq<nat>, t: seq<nat>)
    returns (from: seq<nat>, to: seq<nat>)
    requires b <= k <= |s| && AllAlnum(s[b..k]) && (b > 0 ==> !Alnum(s[b - 1])) && (k < |s| ==> !Alnum(s[k]))
    requires if k < |s| then RunsAt(s, k + 1, rest, f, t) else rest == [] && f == [] && t == []
    ensures RunsAt(s, b, Flush(s[b..k]) + rest, from, to)
  {
    if b == k {
      from, to := f, t;
      assert Flush("") + rest == rest;
      StartsEarlier(s, b, k, rest, f, t);
    } else {
      from, to := [b] + f, [k] + t;
      RunThenRest(s, b, k, rest, f, t);
      StretchesAscend(s, b, k, rest, f, t);
      StretchesCover(s, b, k, f, t);
    }
  }

  lemma StartsEarlier(s: string, b: nat, k: nat, rest: seq<string>, f: seq<nat>, t: seq<nat>)
    requires b == k <= |s| && (k < |s| ==> !Alnum(s[k]))
    requires if k < |s| then RunsAt(s, k + 1, rest, f, t) else rest == [] && f == [] && t == []
    ensures RunsAt(s, b, rest, f, t)
  {
  }

  lemma RunThenRest(s: string, b: nat, k: nat, rest: seq<string>, f: seq<nat>, t: seq<nat>)
    requires b < k <= |s| && AllAlnum(s[b..k]) && (b > 0 ==> !Alnum(s[b - 1])) && (k < |s| ==> !Alnum(s[k]))
    requires |f| == |t| == |rest| && forall i :: 0 <= i < |rest| ==> RunAt(s, k + 1, rest[i], f[i], t[i])
    ensures var words, from, to := [s[b..k]] + rest, [b] + f, [k] + t;
            forall i :: 0 <= i < |words| ==> RunAt(s, b, words[i], from[i], to[i])
  {
    var words, from, to := [s[b..k]] + rest, [b] + f, [k] + t;
    assert MaximalRun(s, b, k);
    forall i | 0 <= i < |words| ensures RunAt(s, b, words[i], from[i], to[i]) {
      assert i > 0 ==> RunAt(s, k + 1, rest[i - 1], f[i - 1], t[i - 1]);
    }
  }

  lemma StretchesAscend(s: string, b: nat, k: nat, rest: seq<string>, f: seq<nat>, t: seq<nat>)
    requires |f| == |t| == |rest| && Ascending(f, t)
    requires forall i :: 0 <= i < |rest| ==> RunAt(s, k + 1, rest[i], f[i], t[i])
    ensures Ascending([b] + f, [k] + t)
  {
    forall i, j | 0 <= i < j < |f| + 1 ensures ([k] + t)[i] < ([b] + f)[j] {
      assert RunAt(s, k + 1, rest[j - 1], f[j - 1], t[j - 1]);
    }
  }

  lemma StretchesCover(s: string, b: nat, k: nat, f: seq<nat>, t: seq<nat>)
    requires b < k <= |s| && (k < |s| ==> !Alnum(s[k]) && Covered(s, k + 1, f, t))
    ensures Covered(s, b, [b] + f, [k] + t)
  {
    forall p | b <= p < |s| && Alnum(s[p]) ensures Within([b] + f, [k] + t, p) {
      if p < k { assert ([b] + f)[0] <= p < ([k] + t)[0]; } else { OneMoreStretch(b, k, f, t, p); }
    }
  }

  lemma OneMoreStretch(b: nat, k: nat, from: seq<nat>, to: seq<nat>, p: nat)
    requires Within(from, to, p)
    ensures Within([b] + from, [k] + to, p)
  {
    var i :| 0 <= i < |from| && i < |to| && from[i] <= p < to[i];
    assert ([b] + from)[i + 1] <= p < ([k] + to)[i + 1];
  }

  // A run of other characters, however long, separates like one of them.
  lemma {:induction false} SkipOthers(s: string, k: nat)
    requires k <= |s| && forall i :: 0 <= i < k ==> !Alnum(s[i])
    ensures RunsFrom(s, "") == RunsFrom(s[k..], "")
  {
    if k == 0 {
      assert s[0..] == s;
    } else {
      SkipOthers(s[1..], k - 1);
      assert s[1..][k - 1..] == s[k..];
      assert [] + RunsFrom(s[1..], "") == RunsFrom(s[1..], "");
    }
  }

  // ---------- the regular-expression pass ----------

  function InvalidRun(s: string): (k: nat)
    ensures k <= |s| && forall i :: 0 <= i < k ==> !LabelChar(s[i])
    ensures |s| > 0 && !LabelChar(s[0]) ==> k > 0
  {
    if |s| == 0 || LabelChar(s[0]) then 0 else 1 + InvalidRun(s[1..])
  }

  /** Each maximal run of characters outside [a-z0-9-] replaced by one dash. */
  function ReplaceInvalid(s: string): string
    decreases |s|
  {
    if |s| == 0 then ""
    else if LabelChar(s[0]) then [s[0]] + ReplaceInvalid(s[1..])
    else ['-'] + ReplaceInvalid(s[InvalidRun(s)..])
  }

  method ReplaceAllInvalid(s: string) returns (out: string)
    ensures out == ReplaceInvalid(s)
  {
    out := "";
    var i := 0;
    assert s[0..] == s && "" + ReplaceInvalid(s) == ReplaceInvalid(s);
    while i < |s|
      invariant 0 <= i <= |s|
      invariant ReplaceInvalid(s) == out + ReplaceInvalid(s[i..])
    {
      if LabelChar(s[i]) {
        assert s[i..][1..] == s[i + 1..];
        assert out + ([s[i]] + ReplaceInvalid(s[i + 1..])) == out + [s[i]] + ReplaceInvalid(s[i + 1..]);
        out := out + [s[i]];
        i := i + 1;
      } else {
        var k := InvalidRun(s[i..]);
        assert s[i..][k..] == s[i + k..];
        assert out + (['-'] + ReplaceInvalid(s[i + k..])) == out + ['-'] + ReplaceInvalid(s[i + k..]);
        out := out + "-";
        i := i + k;
      }
    }
    assert out + "" == out;
  }

  lemma {:induction false} ReplacingKeepsRuns(s: string, run: string)
    ensures RunsFrom(ReplaceInvalid(s), run) == RunsFrom(s, run)
    ensures AllLabel(ReplaceInvalid(s))
    decreases |s|
  {
    if |s| > 0 {
      var t := ReplaceInvalid(s);
      if LabelChar(s[0]) {
        assert t[1..] == ReplaceInvalid(s[1..]);
        ReplacingKeepsRuns(s[1..], if Alnum(s[0]) then run + [s[0]] else "");
      } else {
        var k := InvalidRun(s);
        assert t[1..] == ReplaceInvalid(s[k..]);
        ReplacingKeepsRuns(s[k..], "");
        SkipOthers(s[1..], k - 1);
        assert s[1..][k - 1..] == s[k..];
      }
    }
  }

  // ---------- collapsing dashes ----------

  predicate PairAt(s: string, i: int) {
    0 <= i < |s| - 1 && s[i] == '-' && s[i + 1] == '-'
  }

  /** `strings.Contains(s, "--")`. */
  predicate HasPair(s: string) {
    exists i :: 0 <= i < |s| && PairAt(s, i)
  }

  /** `strings.ReplaceAll(s, "--", "-")`: left to right, without looking at what was written. */
  function CollapsePairs(s: string): (t: string)
    ensures |t| <= |s|
    decreases |s|
  {
    if |s| < 2 then s
    else if s[0] == '-' && s[1] == '-' then ['-'] + CollapsePairs(s[2..])
    else [s[0]] + CollapsePairs(s[1..])
  }

  lemma {:induction false} CollapsingShortens(s: string)
    requires HasPair(s)
    ensures |CollapsePairs(s)| < |s|
    decreases |s|
  {
    if !(s[0] == '-' && s[1] == '-') {
      var i :| 0 <= i < |s| && PairAt(s, i);
      assert i > 0 && s[1..][i - 1] == s[i] && s[1..][i] == s[i + 1];
      assert PairAt(s[1..], i - 1);
      CollapsingShortens(s[1..]);
    }
  }

  lemma {:induction false} CollapsingKeepsRuns(s: string, run: string)
    ensures RunsFrom(CollapsePairs(s), run) == RunsFrom(s, run)
    ensures AllLabel(s) ==> AllLabel(CollapsePairs(s))
    decreases |s|
  {
    if |s| >= 2 {
      var t := CollapsePairs(s);
      if s[0] == '-' && s[1] == '-' {
        assert t[1..] == CollapsePairs(s[2..]);
        CollapsingKeepsRuns(s[2..], "");
        SkipOthers(s[1..], 1);
        assert s[1..][1..] == s[2..];
      } else {
        assert t[1..] == CollapsePairs(s[1..]);
        CollapsingKeepsRuns(s[1..], if Alnum(s[0]) then run + [s[0]] else "");
      }
    }
  }

  // ---------- trimming ----------

  function TrimLeft(s: string): (t: string)
    ensures |t| <= |s| && t == s[|s| - |t|..] && (t == "" || t[0] != '-')
    ensures forall i :: 0 <= i < |s| - |t| ==> s[i] == '-'
  {
    if |s| > 0 && s[0] == '-' then TrimLeft(s[1..]) else s
  }

  function TrimRight(s: string): (t: string)
    ensures t <= s && (t == "" || t[|t| - 1] != '-')
    ensures |s| > 0 && s[0] != '-' ==> t != ""
  {
    if |s| > 0 && s[|s| - 1] == '-' then TrimRight(s[..|s| - 1]) else s
  }

  function Trim(s: string): string {
    TrimRight(TrimLeft(s))
  }

  lemma {:induction false} TrailingDashAddsNoRun(s: string, run: string)
    ensures RunsFrom(s + "-", run) == RunsFrom(s, run)
    decreases |s|
  {
    var t := s + "-";
    if |s| == 0 {
      assert t[1..] == "" && Flush(run) + [] == Flush(run);
    } else {
      assert t[1..] == s[1..] + "-" && t[0] == s[0];
      TrailingDashAddsNoRun(s[1..], if Alnum(s[0]) then run + [s[0]] else "");
    }
  }

  lemma {:induction false} TrimRightKeepsRuns(s: string)
    ensures Runs(TrimRight(s)) == Runs(s)
  {
    if |s| > 0 && s[|s| - 1] == '-' {
      TrimRightKeepsRuns(s[..|s| - 1]);
      assert s == s[..|s| - 1] + "-";
      TrailingDashAddsNoRun(s[..|s| - 1], "");
    }
  }

  lemma TrimKeepsRuns(s: string)
    ensures Runs(Trim(s)) == Runs(s)
  {
    SkipOthers(s, |s| - |TrimLeft(s)|);
    TrimRightKeepsRuns(TrimLeft(s));
  }

  lemma PartStaysClean(s: string, from: nat, to: nat)
    requires AllLabel(s) && !HasPair(s) && from <= to <= |s|
    ensures AllLabel(s[from..to]) && !HasPair(s[from..to])
  {
    var t := s[from..to];
    forall i | 0 <= i < |t| ensures !PairAt(t, i) {
      assert !PairAt(s, from + i);
    }
  }

  lemma {:induction false} TrimLeftStaysClean(s: string)
    requires AllLabel(s) && !HasPair(s)
    ensures AllLabel(TrimLeft(s)) && !HasPair(TrimLeft(s))
  {
    if |s| > 0 && s[0] == '-' {
      PartStaysClean(s, 1, |s|);
      assert s[1..|s|] == s[1..];
      TrimLeftStaysClean(s[1..]);
    }
  }

  lemma {:induction false} TrimRightStaysClean(s: string)
    requires AllLabel(s) && !HasPair(s)
    ensures AllLabel(TrimRight(s)) && !HasPair(TrimRight(s))
  {
    if |s| > 0 && s[|s| - 1] == '-' {
      PartStaysClean(s, 0, |s| - 1);
      assert s[0..|s| - 1] == s[..|s| - 1];
      TrimRightStaysClean(s[..|s| - 1]);
    }
  }

  lemma TrimmedStaysClean(s: string)
    requires AllLabel(s) && !HasPair(s)
    ensures AllLabel(Trim(s)) && !HasPair(Trim(s))
    ensures Trim(s) != "" ==> Trim(s)[0] != '-' && Trim(s)[|Trim(s)| - 1] != '-'
  {
    TrimLeftStaysClean(s);
    TrimRightStaysClean(TrimLeft(s));
    TrimmedEnds(TrimLeft(s));
  }

  lemma TrimmedEnds(l: string)
    requires l == "" || l[0] != '-'
    ensures var t := TrimRight(l); t != "" ==> t[0] != '-' && t[|t| - 1] != '-'
  {
  }

  // ---------- what is left is the normal form ----------

  lemma JoinCons(run: string, words: seq<string>)
    requires words != []
    ensures Join([run] + words, "-") == run + "-" + Join(words, "-")
  {
    assert ([run] + words)[1..] == words;
  }

  // Rewritten text spells out its own runs: there is nothing between them but one dash.
  lemma {:induction false} CleanIsJoined(s: string, run: string)
    requires AllLabel(s) && AllAlnum(run) && !HasPair(s)
    requires s != "" ==> s[|s| - 1] != '-' && (run == "" ==> s[0] != '-')
    ensures Join(RunsFrom(s, run), "-") == run + s
    decreases |s|
  {
    if |s| > 0 {
      var rest := s[1..];
      forall i | 0 <= i < |rest| ensures !PairAt(rest, i) { assert !PairAt(s, i + 1); }
      if Alnum(s[0]) {
        CleanIsJoined(rest, run + [s[0]]);
        assert run + [s[0]] + rest == run + s;
      } else {
        assert !PairAt(s, 0);
        CleanIsJoined(rest, "");
        RunsAreRuns(rest, "");
        JoinCons(run, RunsFrom(rest, ""));
        assert run + "-" + ("" + rest) == run + s;
      }
    } else {
      assert run + s == run;
    }
  }

  lemma NothingLeftIffNoRuns(t: string)
    requires AllLabel(t) && (t != "" ==> t[0] != '-')
    ensures t == "" <==> Runs(t) == []
  {
    RunsAreRuns(t, "");
  }

  /**
   `Sanitize`: lower-case, replace, collapse until nothing changes, trim. The rewriting terminates
   because each pass shortens the text, and what it computes is the normal form.
   */
  method Sanitize(lower: string -> string, value: string) returns (cleaned: string)
    ensures cleaned == Slug(lower(value))
  {
    cleaned := ReplaceAllInvalid(lower(value));
    ReplacingKeepsRuns(lower(value), "");
    while HasPair(cleaned)
      invariant AllLabel(cleaned) && Runs(cleaned) == Runs(lower(value))
      decreases |cleaned|
    {
      CollapsingShortens(cleaned);
      CollapsingKeepsRuns(cleaned, "");
      cleaned := CollapsePairs(cleaned);
    }
    TrimKeepsRuns(cleaned);
    TrimmedStaysClean(cleaned);
    cleaned := Trim(cleaned);
    NothingLeftIffNoRuns(cleaned);
    if cleaned == "" { return UNNAMED; }
    CleanIsJoined(cleaned, "");
    assert "" + cleaned == cleaned;
  }

  // ---------- properties of the normal form ----------

  // What a slug always looks like.
  predicate SlugShape(s: string) {
    s != "" && AllLabel(s) && !HasPair(s) && Alnum(s[0]) && Alnum(s[|s| - 1])
  }

  lemma {:induction false} JoinShape(words: seq<string>)
    requires AreRuns(words) && words != []
    ensures SlugShape(Join(words, "-"))
  {
    var s := Join(words, "-");
    if |words| > 1 {
      JoinShape(words[1..]);
      var rest := Join(words[1..], "-");
      var n := |words[0]|;
      assert s == words[0] + ("-" + rest);
      assert forall i :: 0 <= i < |rest| ==> s[n + 1 + i] == rest[i];
      forall i | 0 <= i < |s| ensures !PairAt(s, i) {
        if i > n { assert !PairAt(rest, i - n - 1); }
      }
    }
  }

  lemma SlugHasShape(s: string)
    ensures SlugShape(Slug(s))
  {
    RunsAreRuns(s, "");
    if Runs(s) != [] { JoinShape(Runs(s)); }
  }

  lemma {:induction false} RunsAcross(word: string, run: string, rest: string)
    requires AllAlnum(word)
    ensures RunsFrom(word + ("-" + rest), run) == Flush(run + word) + Runs(rest)
    ensures RunsFrom(word, run) == Flush(run + word)
    decreases |word|
  {
    var s := word + ("-" + rest);
    if |word| == 0 {
      assert s[1..] == rest && run + word == run;
    } else {
      assert s[1..] == word[1..] + ("-" + rest) && s[0] == word[0];
      RunsAcross(word[1..], run + [word[0]], rest);
      assert run + [word[0]] + word[1..] == run + word;
    }
  }

  lemma {:induction false} RunsOfJoin(words: seq<string>)
    requires AreRuns(words)
    ensures Runs(Join(words, "-")) == words
  {
    if |words| == 1 {
      RunsAcross(words[0], "", "");
      assert "" + words[0] == words[0] && words == [words[0]];
    } else if |words| > 1 {
      RunsOfJoin(words[1..]);
      RunsAcross(words[0], "", Join(words[1..], "-"));
      assert "" + words[0] == words[0] && words == [words[0]] + words[1..];
    }
  }

  /** The runs a name is read by; a text without any reads as its placeholder does. */
  function NameRuns(s: string): seq<string> {
    if Runs(s) == [] then [UNNAMED] else Runs(s)
  }

  lemma RunsOfSlug(s: string)
    ensures Runs(Slug(s)) == NameRuns(s)
  {
    RunsAreRuns(s, "");
    if Runs(s) == [] { RunsOfJoin([UNNAMED]); } else { RunsOfJoin(Runs(s)); }
  }

  /** Two identifiers flatten to one name exactly when they have the same runs, in the same order. */
  lemma SameSlugIff(a: string, b: string)
    ensures Slug(a) == Slug(b) <==> NameRuns(a) == NameRuns(b)
  {
    RunsOfSlug(a);
    RunsOfSlug(b);
  }

  /** The normal form of two identifiers as registries write them, and of one with nothing to keep. */
  lemma SlugExamples()
    ensures Slug("a_9") == "a-9" && Slug("/") == "unnamed"
  {
    assert "a_9"[1..] == "_9" && "_9"[1..] == "9" && "9"[1..] == "" && "/"[1..] == "";
  }

  /** Lower-casing leaves text alone that has only label characters. */
  ghost predicate FixesLabels(lower: string -> string) {
    forall s :: AllLabel(s) ==> lower(s) == s
  }

  /** Sanitizing is idempotent. */
  lemma SanitizeIdempotent(lower: string -> string, value: string)
    requires FixesLabels(lower)
    ensures Slug(lower(Slug(lower(value)))) == Slug(lower(value))
  {
    var s := lower(value);
    SlugHasShape(s);
    RunsOfSlug(s);
    SameSlugIff(Slug(s), s);
  }

  // ---------- names ----------

  /** The first ten characters of the digest of the raw parts, joined by zero bytes. */
  function Fingerprint(hex: string -> string, parts: seq<string>): string
    requires |hex(Join(parts, "\0"))| >= HASH_LENGTH
  {
    hex(Join(parts, "\0"))[..HASH_LENGTH]
  }

  /** A digest in lower-case hexadecimal, as SHA-256 prints. */
  ghost predicate PrintsHex(hex: string -> string) {
    forall s :: |hex(s)| == 64 && AllAlnum(hex(s))
  }

  function Clip(s: string, n: nat): string {
    if |s| > n then s[..n] else s
  }

  const BUDGET: nat := MAX_NAME_LENGTH - HASH_LENGTH - 1

  function StableName(lower: string -> string, hex: string -> string, prefix: string, parts: seq<string>): string
    requires |hex(Join(parts, "\0"))| >= HASH_LENGTH
  {
    TrimRight(Clip(Slug(lower(prefix + "-" + Join(parts, "-"))), BUDGET)) + ("-" + Fingerprint(hex, parts))
  }

  lemma ClippedSlug(s: string, n: nat)
    requires SlugShape(s) && n > 0
    ensures var t := TrimRight(Clip(s, n));
            t != "" && |t| <= n && AllLabel(t) && Alnum(t[0]) && Alnum(t[|t| - 1])
  {
  }

  /** This much of a text is kept: all of it if it fits, and otherwise what fits without dashes at its end. */
  predicate ClippedAt(s: string, budget: nat, n: nat) {
    && 0 < n <= |s| && n <= budget && (|s| <= budget ==> n == |s|)
    && s[n - 1] != '-' && (|s| > budget ==> forall i :: n <= i < budget ==> s[i] == '-')
  }

  lemma {:induction false} TrimmedAt(s: string)
    ensures var n := |TrimRight(s)|;
            TrimRight(s) == s[..n] && forall i :: n <= i < |s| ==> s[i] == '-'
  {
    if |s| > 0 && s[|s| - 1] == '-' {
      TrimmedAt(s[..|s| - 1]);
      assert s[..|s| - 1][..|TrimRight(s)|] == s[..|TrimRight(s)|];
      assert forall i :: 0 <= i < |s| - 1 ==> s[..|s| - 1][i] == s[i];
    } else {
      assert s[..|s|] == s;
    }
  }

  lemma SlugClips(slug: string, budget: nat)
    requires SlugShape(slug) && budget > 0
    ensures var t := TrimRight(Clip(slug, budget)); ClippedAt(slug, budget, |t|) && t == slug[..|t|]
  {
    ClippedSlug(slug, budget);
    TrimmedAt(Clip(slug, budget));
    assert |slug| <= budget ==> TrimRight(slug) == slug;
  }

  lemma StableParts(lower: string -> string, hex: string -> string, prefix: string, parts: seq<string>)
    requires |hex(Join(parts, "\0"))| >= HASH_LENGTH
    ensures var slug := Slug(lower(prefix + "-" + Join(parts, "-")));
            var n := |TrimRight(Clip(slug, BUDGET))|;
            && ClippedAt(slug, BUDGET, n)
            && StableName(lower, hex, prefix, parts) == slug[..n] + "-" + hex(Join(parts, "\0"))[..HASH_LENGTH]
  {
    SlugHasShape(lower(prefix + "-" + Join(parts, "-")));
    SlugClips(Slug(lower(prefix + "-" + Join(parts, "-"))), BUDGET);
  }

  /**
   `Stable`. The branch for an empty readable part cannot be taken, so every name is the clipped
   readable form, a dash and the fingerprint.
   */
  method Stable(lower: string -> string, hex: string -> string, prefix: string, parts: seq<string>)
    returns (name: string)
    requires |hex(Join(parts, "\0"))| >= HASH_LENGTH
    ensures name == StableName(lower, hex, prefix, parts)
    ensures exists n: nat ::
              && ClippedAt(Slug(lower(prefix + "-" + Join(parts, "-"))), BUDGET, n)
              && name == Slug(lower(prefix + "-" + Join(parts, "-")))[..n] + "-" + hex(Join(parts, "\0"))[..HASH_LENGTH]
  {
    StableParts(lower, hex, prefix, parts);
    var suffix := Fingerprint(hex, parts);
    var joined := Join(parts, "-");
    var readable := Sanitize(lower, prefix + "-" + joined);
    SlugHasShape(lower(prefix + "-" + joined));
    ClippedSlug(readable, BUDGET);
    if |readable| > BUDGET { readable := readable[..BUDGET]; }
    readable := TrimRight(readable);
    if readable == "" {
      return suffix;
    }
    return readable + ("-" + suffix);
  }

  /** Every stable name is a valid label of at most 63 characters, whatever the identifiers. */
  lemma StableIsALabel(lower: string -> string, hex: string -> string, prefix: string, parts: seq<string>)
    requires PrintsHex(hex)
    ensures ValidLabel(StableName(lower, hex, prefix, parts))
  {
    var slug := Slug(lower(prefix + "-" + Join(parts, "-")));
    SlugHasShape(lower(prefix + "-" + Join(parts, "-")));
    ClippedSlug(slug, BUDGET);
    assert AllAlnum(Fingerprint(hex, parts));
    WithFingerprint(TrimRight(Clip(slug, BUDGET)), Fingerprint(hex, parts));
  }

  lemma WithFingerprint(head: string, tail: string)
    requires 0 < |head| <= BUDGET && AllLabel(head) && Alnum(head[0])
    requires |tail| == HASH_LENGTH && AllAlnum(tail)
    ensures ValidLabel(head + ("-" + tail))
  {
  }

  /** Names of identifiers with different fingerprints differ, whatever they flatten to. */
  lemma StableSeparates(
    lower: string -> string, hex: string -> string, p: string, a: seq<string>, q: string, b: seq<string>)
    requires PrintsHex(hex) && StableName(lower, hex, p, a) == StableName(lower, hex, q, b)
    ensures Fingerprint(hex, a) == Fingerprint(hex, b)
  {
    LastTen(TrimRight(Clip(Slug(lower(p + "-" + Join(a, "-"))), BUDGET)) + "-", Fingerprint(hex, a));
    LastTen(TrimRight(Clip(Slug(lower(q + "-" + Join(b, "-"))), BUDGET)) + "-", Fingerprint(hex, b));
  }

  lemma LastTen(head: string, tail: string)
    requires |tail| == HASH_LENGTH && |head| > 0 && head[|head| - 1] == '-'
    ensures var s := head[..|head| - 1] + ("-" + tail); |s| >= HASH_LENGTH && s[|s| - HASH_LENGTH..] == tail
  {
  }

  /**
   A fingerprint is over the raw parts, and they can be read back from what is hashed: lists of one
   length, without zero bytes in them, that are hashed alike are the same.
   */
  lemma {:induction false} FingerprintSeesEveryPart(a: seq<string>, b: seq<string>)
    requires |a| == |b| && Join(a, "\0") == Join(b, "\0")
    requires forall i :: 0 <= i < |a| ==> '\0' !in a[i] && '\0' !in b[i]
    ensures a == b
  {
    if |a| == 1 {
      assert a == [a[0]] && b == [b[0]];
    } else if |a| > 1 {
      FirstPart(a[0], Join(a[1..], "\0"), b[0], Join(b[1..], "\0"));
      FingerprintSeesEveryPart(a[1..], b[1..]);
      assert a == [a[0]] + a[1..] && b == [b[0]] + b[1..];
    }
  }

  lemma FirstPart(a: string, x: string, b: string, y: string)
    requires a + ("\0" + x) == b + ("\0" + y) && '\0' !in a && '\0' !in b
    ensures a == b && x == y
  {
    var s, t := a + ("\0" + x), b + ("\0" + y);
    assert s[|a|] == '\0' && t[|b|] == '\0';
    assert forall i :: 0 <= i < |a| ==> s[i] == a[i] && a[i] in a;
    assert forall i :: 0 <= i < |b| ==> t[i] == b[i] && b[i] in b;
    assert a == s[..|a|] && b == t[..|b|];
    assert x == s[|a| + 1..] && y == t[|b| + 1..];
  }

  /**
   Two model versions share a report name only if the digest agrees on two different texts in its first
   ten characters.
   */
  lemma SharedNameIsACollision(
    lower: string -> string, hex: string -> string, m: string, v: string, m': string, v': string)
    requires PrintsHex(hex) && (m != m' || v != v')
    requires '\0' !in m && '\0' !in v && '\0' !in m' && '\0' !in v'
    requires StableName(lower, hex, "msr", [m, v]) == StableName(lower, hex, "msr", [m', v'])
    ensures Join([m, v], "\0") != Join([m', v'], "\0")
    ensures hex(Join([m, v], "\0"))[..HASH_LENGTH] == hex(Join([m', v'], "\0"))[..HASH_LENGTH]
  {
    StableSeparates(lower, hex, "msr", [m, v], "msr", [m', v']);
    assert [m, v][0] == m && [m, v][1] == v && [m', v'][0] == m' && [m', v'][1] == v';
    assert [m, v] != [m', v'];
    if Join([m, v], "\0") == Join([m', v'], "\0") { FingerprintSeesEveryPart([m, v], [m', v']); }
  }

  function LegacyName(lower: string -> string, hex: string -> string, prefix: string, parts: seq<string>): string
    requires |hex(Join(parts, "\0"))| >= HASH_LENGTH
  {
    var readable := Slug(lower(prefix + "-" + Join(parts, "-")));
    if |readable| <= MAX_NAME_LENGTH then readable else StableName(lower, hex, prefix, parts)
  }

  /** `LegacyStable`: a fingerprint only when the readable form is too long. */
  method LegacyStable(lower: string -> string, hex: string -> string, prefix: string, parts: seq<string>)
    returns (name: string)
    requires |hex(Join(parts, "\0"))| >= HASH_LENGTH
    ensures name == LegacyName(lower, hex, prefix, parts)
    ensures PrintsHex(hex) ==> ValidLabel(name)
    ensures |Slug(lower(prefix + "-" + Join(parts, "-")))| <= MAX_NAME_LENGTH ==>
              name == Slug(lower(prefix + "-" + Join(parts, "-")))
    ensures |Slug(lower(prefix + "-" + Join(parts, "-")))| > MAX_NAME_LENGTH ==>
              name == StableName(lower, hex, prefix, parts)
  {
    var joined := Join(parts, "-");
    var readable := Sanitize(lower, prefix + "-" + joined);
    if PrintsHex(hex) { LegacyIsALabel(lower, hex, prefix, parts); }
    if |readable| <= MAX_NAME_LENGTH { return readable; }
    var suffix := Fingerprint(hex, parts);
    if |readable| > BUDGET { readable := readable[..BUDGET]; }
    return TrimRight(readable) + ("-" + suffix);
  }

  /** Legacy names are valid labels too. */
  lemma LegacyIsALabel(lower: string -> string, hex: string -> string, prefix: string, parts: seq<string>)
    requires PrintsHex(hex)
    ensures ValidLabel(LegacyName(lower, hex, prefix, parts))
  {
    SlugHasShape(lower(prefix + "-" + Join(parts, "-")));
    StableIsALabel(lower, hex, prefix, parts);
  }

  /**
   Why names carry a fingerprint: within the length limit two legacy names are one exactly when the
   identifiers have the same runs, so different models share a name.
   */
  lemma LegacyCollidesIff(
    lower: string -> string, hex: string -> string, prefix: string, a: seq<string>, b: seq<string>)
    requires PrintsHex(hex)
    requires |Slug(lower(prefix + "-" + Join(a, "-")))| <= MAX_NAME_LENGTH
    requires |Slug(lower(prefix + "-" + Join(b, "-")))| <= MAX_NAME_LENGTH
    ensures LegacyName(lower, hex, prefix, a) == LegacyName(lower, hex, prefix, b) <==>
            NameRuns(lower(prefix + "-" + Join(a, "-"))) == NameRuns(lower(prefix + "-" + Join(b, "-")))
  {
    SameSlugIff(lower(prefix + "-" + Join(a, "-")), lower(prefix + "-" + Join(b, "-")));
  }

  /** `SanitizeLabel`, with its `truncate`. */
  method SanitizeLabel(lower: string -> string, value: string) returns (r: string)
    ensures ValidLabel(r)
    ensures |Slug(lower(value))| <= MAX_NAME_LENGTH ==> r == Slug(lower(value))
    ensures r <= Slug(lower(value)) && ClippedAt(Slug(lower(value)), MAX_NAME_LENGTH, |r|)
  {
    r := Sanitize(lower, value);
    SlugHasShape(lower(value));
    SlugClips(r, MAX_NAME_LENGTH);
    if |r| <= MAX_NAME_LENGTH { return; }
    ClippedSlug(r, MAX_NAME_LENGTH);
    r := Trim(r[..MAX_NAME_LENGTH]);
  }
}
