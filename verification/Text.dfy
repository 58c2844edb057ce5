/**
 Strings as the audit log uses them: byte order, `sort.Strings`, decimal rendering with
 zero padding, and the two facts about delimiters that make a rendering parseable.
 */
module Text {

  // ---------- byte order ----------

  predicate Less(a: string, b: string) {
    |b| > 0 && (|a| == 0 || a[0] < b[0] || (a[0] == b[0] && Less(a[1..], b[1..])))
  }

  lemma {:induction false} LessIrreflexive(a: string)
    ensures !Less(a, a)
  {
    if a == [] {
    } else {
      LessIrreflexive(a[1..]);
    }
  }

  lemma {:induction false} LessTransitive(a: string, b: string, c: string)
    requires Less(a, b) && Less(b, c)
    ensures Less(a, c)
  {
    if a != [] && a[0] == b[0] && b[0] == c[0] {
      LessTransitive(a[1..], b[1..], c[1..]);
    }
  }

  lemma {:induction false} LessTotal(a: string, b: string)
    ensures Less(a, b) || a == b || Less(b, a)
  {
    if a != [] && b != [] && a[0] == b[0] {
      LessTotal(a[1..], b[1..]);
      assert a == [a[0]] + a[1..] && b == [b[0]] + b[1..];
    }
  }

  lemma LessAsymmetric(a: string, b: string)
    ensures !(Less(a, b) && Less(b, a))
  {
    if Less(a, b) && Less(b, a) {
      LessTransitive(a, b, a);
      LessIrreflexive(a);
    }
  }

  lemma {:induction false} LessAfterPrefix(p: string, a: string, b: string)
    ensures Less(p + a, p + b) <==> Less(a, b)
  {
    if p == [] {
      assert p + a == a && p + b == b;
    } else {
      LessAfterPrefix(p[1..], a, b);
      assert (p + a)[1..] == p[1..] + a && (p + b)[1..] == p[1..] + b;
    }
  }

  // Among strings of one length, whatever follows an earlier difference is irrelevant.
  lemma {:induction false} LessBeforeSuffix(a: string, b: string, x: string, y: string)
    requires |a| == |b| && a != b
    ensures Less(a + x, b + y) <==> Less(a, b)
  {
    assert (a + x)[1..] == a[1..] + x && (b + y)[1..] == b[1..] + y;
    if a[0] == b[0] {
      assert a == [a[0]] + a[1..] && b == [b[0]] + b[1..];
      LessBeforeSuffix(a[1..], b[1..], x, y);
    }
  }

  // ---------- sorted sequences ----------

  predicate Distinct<T(==)>(s: seq<T>) {
    forall i, j :: 0 <= i < j < |s| ==> s[i] != s[j]
  }

  predicate StrictlySorted(s: seq<string>) {
    forall i, j :: 0 <= i < j < |s| ==> Less(s[i], s[j])
  }

  lemma StrictIsDistinct(s: seq<string>)
    requires StrictlySorted(s)
    ensures Distinct(s)
  {
    forall i, j | 0 <= i < j < |s| ensures s[i] != s[j] {
      LessIrreflexive(s[i]);
    }
  }

  lemma FirstIsLeast(s: seq<string>, x: string)
    requires StrictlySorted(s) && x in s
    ensures x == s[0] || Less(s[0], x)
  {
  }

  // A set of strings has one strictly sorted enumeration.
  lemma {:induction false} StrictlySortedUnique(a: seq<string>, b: seq<string>)
    requires StrictlySorted(a) && StrictlySorted(b)
    requires forall x :: x in a <==> x in b
    ensures a == b
  {
    assert |a| > 0 ==> a[0] in b;
    assert |b| > 0 ==> b[0] in a;
    if |a| > 0 {
      FirstIsLeast(b, a[0]);
      FirstIsLeast(a, b[0]);
      LessAsymmetric(a[0], b[0]);
      StrictIsDistinct(a);
      StrictIsDistinct(b);
      forall x ensures x in a[1..] <==> x in b[1..] {
        TailMembers(a, x);
        TailMembers(b, x);
      }
      StrictlySortedUnique(a[1..], b[1..]);
      assert a == [a[0]] + a[1..] && b == [b[0]] + b[1..];
    }
  }

  lemma TailMembers<T>(s: seq<T>, x: T)
    requires |s| > 0 && Distinct(s)
    ensures x in s[1..] <==> x in s && x != s[0]
  {
    assert s == [s[0]] + s[1..];
  }

  // ---------- sort.Strings ----------

  function Insert(x: string, s: seq<string>): seq<string> {
    if |s| == 0 then [x]
    else if Less(s[0], x) then [s[0]] + Insert(x, s[1..])
    else [x] + s
  }

  /** `sort.Strings`, as the insertion sort it is indistinguishable from. */
  function Sort(s: seq<string>): seq<string> {
    if |s| == 0 then [] else Insert(s[0], Sort(s[1..]))
  }

  lemma {:induction false} InsertMembers(x: string, s: seq<string>, y: string)
    ensures |Insert(x, s)| == |s| + 1
    ensures y in Insert(x, s) <==> y == x || y in s
  {
    if |s| > 0 {
      assert s == [s[0]] + s[1..];
      if Less(s[0], x) { InsertMembers(x, s[1..], y); }
    }
  }

  lemma StrictCons(x: string, s: seq<string>)
    requires StrictlySorted(s) && forall y :: y in s ==> Less(x, y)
    ensures StrictlySorted([x] + s)
  {
    var t := [x] + s;
    forall i, j | 0 <= i < j < |t| ensures Less(t[i], t[j]) {
      assert t[j] == s[j - 1] && s[j - 1] in s;
    }
  }

  lemma {:induction false} InsertKeepsOrder(x: string, s: seq<string>)
    requires StrictlySorted(s) && x !in s
    ensures StrictlySorted(Insert(x, s))
  {
    if |s| > 0 {
      assert s == [s[0]] + s[1..];
      if Less(s[0], x) {
        InsertKeepsOrder(x, s[1..]);
        forall y | y in Insert(x, s[1..]) ensures Less(s[0], y) {
          InsertMembers(x, s[1..], y);
        }
        StrictCons(s[0], Insert(x, s[1..]));
      } else {
        LessTotal(s[0], x);
        forall y | y in s ensures Less(x, y) {
          FirstIsLeast(s, y);
          if y != s[0] { LessTransitive(x, s[0], y); }
        }
        StrictCons(x, s);
      }
    }
  }

  lemma {:induction false} SortMembers(s: seq<string>, y: string)
    ensures |Sort(s)| == |s|
    ensures y in Sort(s) <==> y in s
  {
    if |s| > 0 {
      assert s == [s[0]] + s[1..];
      SortMembers(s[1..], y);
      InsertMembers(s[0], Sort(s[1..]), y);
    }
  }

  lemma {:induction false} SortSorts(s: seq<string>)
    requires Distinct(s)
    ensures StrictlySorted(Sort(s))
  {
    if |s| > 0 {
      SortSorts(s[1..]);
      SortMembers(s[1..], s[0]);
      TailMembers(s, s[0]);
      InsertKeepsOrder(s[0], Sort(s[1..]));
    }
  }

  /** In byte order, repetitions allowed. */
  predicate InOrder(s: seq<string>) {
    forall i, j :: 0 <= i < j < |s| ==> !Less(s[j], s[i])
  }

  lemma NotLessTransitive(a: string, b: string, c: string)
    requires !Less(b, a) && !Less(c, b)
    ensures !Less(c, a)
  {
    LessTotal(a, b);
    LessTotal(b, c);
    if Less(c, a) {
      if a != b { LessTransitive(c, a, b); }
    }
  }

  lemma InOrderCons(x: string, s: seq<string>)
    requires InOrder(s) && (|s| > 0 ==> !Less(s[0], x))
    ensures InOrder([x] + s)
  {
    var t := [x] + s;
    forall i, j | 0 <= i < j < |t| ensures !Less(t[j], t[i]) {
      assert t[j] == s[j - 1];
      if i == 0 && j > 1 { NotLessTransitive(x, s[0], s[j - 1]); }
    }
  }

  lemma {:induction false} InsertInOrder(x: string, s: seq<string>)
    requires InOrder(s)
    ensures InOrder(Insert(x, s)) && multiset(Insert(x, s)) == multiset{x} + multiset(s)
    ensures Insert(x, s)[0] == x || (|s| > 0 && Insert(x, s)[0] == s[0] && Less(s[0], x))
  {
    if |s| > 0 {
      assert s == [s[0]] + s[1..];
      if Less(s[0], x) {
        InsertInOrder(x, s[1..]);
        LessAsymmetric(s[0], x);
        InOrderCons(s[0], Insert(x, s[1..]));
      } else {
        InOrderCons(x, s);
      }
    }
  }

  /** `sort.Strings` puts the same strings, each as often, in byte order. */
  lemma {:induction false} SortIsSorting(s: seq<string>)
    ensures InOrder(Sort(s)) && multiset(Sort(s)) == multiset(s)
  {
    if |s| > 0 {
      assert s == [s[0]] + s[1..];
      SortIsSorting(s[1..]);
      InsertInOrder(s[0], Sort(s[1..]));
    }
  }

  // ---------- the sorted enumeration of a set ----------

  predicate IsLeast(x: string, s: set<string>) {
    x in s && forall y :: y in s ==> y == x || Less(x, y)
  }

  lemma {:induction false} LeastExists(s: set<string>)
    requires s != {}
    ensures exists x :: IsLeast(x, s)
    decreases |s|
  {
    var x :| x in s;
    if s == {x} {
      assert IsLeast(x, s);
    } else {
      LeastExists(s - {x});
      var m :| IsLeast(m, s - {x});
      LessTotal(x, m);
      LeastOfTwo(x, m, s);
    }
  }

  lemma LeastOfTwo(x: string, m: string, s: set<string>)
    requires x in s && IsLeast(m, s - {x}) && (Less(x, m) || Less(m, x))
    ensures IsLeast(if Less(x, m) then x else m, s)
  {
    if Less(x, m) {
      forall y | y in s && y != x && y != m ensures Less(x, y) {
        assert y in s - {x};
        LessTransitive(x, m, y);
      }
    }
  }

  lemma LeastUnique(x: string, y: string, s: set<string>)
    requires IsLeast(x, s) && IsLeast(y, s)
    ensures x == y
  {
    LessAsymmetric(x, y);
  }

  function Least(s: set<string>): (x: string)
    requires s != {}
    ensures IsLeast(x, s)
  {
    LeastExists(s);
    assert forall a, b :: IsLeast(a, s) && IsLeast(b, s) ==> a == b by {
      forall a, b | IsLeast(a, s) && IsLeast(b, s) ensures a == b { LeastUnique(a, b, s); }
    }
    var x :| IsLeast(x, s);
    x
  }

  function SortedKeys(s: set<string>): seq<string> {
    if s == {} then [] else [Least(s)] + SortedKeys(s - {Least(s)})
  }

  lemma {:induction false} SortedKeysEnumerates(s: set<string>)
    ensures StrictlySorted(SortedKeys(s))
    ensures forall x :: x in SortedKeys(s) <==> x in s
  {
    if s == {} {
    } else {
      var m := Least(s);
      SortedKeysEnumerates(s - {m});
      var t := SortedKeys(s - {m});
      var k := SortedKeys(s);
      assert k == [m] + t;
      forall i, j | 0 <= i < j < |k| ensures Less(k[i], k[j]) {
        assert k[j] == t[j - 1] && t[j - 1] in t;
      }
    }
  }

  // Whatever order a set is enumerated in, sorting gives the same sequence.
  lemma SortOfEnumeration(s: seq<string>, all: set<string>)
    requires Distinct(s) && forall x :: x in s <==> x in all
    ensures Sort(s) == SortedKeys(all)
  {
    SortSorts(s);
    forall x ensures x in Sort(s) <==> x in s { SortMembers(s, x); }
    SortedKeysEnumerates(all);
    StrictlySortedUnique(Sort(s), SortedKeys(all));
  }

  // ---------- delimiters ----------

  // The first occurrence of a delimiter splits a string in one way.
  lemma SplitAtFirst(a: string, x: string, b: string, y: string, c: char)
    requires a + [c] + x == b + [c] + y
    requires c !in a && c !in b
    ensures a == b && x == y
  {
    var s := a + [c] + x;
    var t := b + [c] + y;
    assert s[|a|] == c && t[|b|] == c;
    assert forall i :: 0 <= i < |a| ==> s[i] == a[i] && a[i] in a;
    assert forall i :: 0 <= i < |b| ==> t[i] == b[i] && b[i] in b;
    assert a == s[..|a|] && b == t[..|b|];
    assert x == s[|a| + 1..] && y == s[|b| + 1..];
  }

  // Whatever comes after the delimiter is in what follows it.
  lemma AfterDelimiter(a: string, c: char, x: string, k: nat)
    ensures |a| < k <= |a| + |x| ==> (a + [c] + x)[k] in x
  {
    if |a| < k <= |a| + |x| { assert (a + [c] + x)[k] == x[k - |a| - 1]; }
  }

  // The last occurrence of a delimiter splits a string in one way, too.
  lemma SplitAtLast(a: string, x: string, b: string, y: string, c: char)
    requires a + [c] + x == b + [c] + y
    requires c !in x && c !in y
    ensures a == b && x == y
  {
    var s := a + [c] + x;
    var t := b + [c] + y;
    assert s[|a|] == c && t[|b|] == c;
    AfterDelimiter(a, c, x, |b|);
    AfterDelimiter(b, c, y, |a|);
    assert |a| == |b|;
    assert a == s[..|a|] && b == t[..|b|];
    assert x == s[|a| + 1..] && y == t[|b| + 1..];
  }

  lemma DropPrefix(p: string, a: string, b: string)
    requires p + a == p + b
    ensures a == b
  {
    assert a == (p + a)[|p|..] && b == (p + b)[|p|..];
  }

  // ---------- decimal ----------

  predicate Digits(s: string) {
    forall i :: 0 <= i < |s| ==> '0' <= s[i] <= '9'
  }

  function Digit(d: nat): (c: char)
    requires d < 10
    ensures '0' <= c <= '9'
  {
    '0' + d as char
  }

  function Decimal(n: nat): (s: string)
    ensures Digits(s) && |s| > 0
  {
    if n < 10 then [Digit(n)] else Decimal(n / 10) + [Digit(n % 10)]
  }

  function Value(s: string): nat
    requires Digits(s)
  {
    if |s| == 0 then 0 else Value(s[..|s| - 1]) * 10 + (s[|s| - 1] - '0') as nat
  }

  function Zeros(n: nat): (s: string)
    ensures |s| == n && Digits(s)
  {
    seq(n, _ => '0')
  }

  /** Decimal, left-padded with zeros to at least `width` characters: `%0{width}d`. */
  function Pad(n: nat, width: nat): (s: string)
    ensures Digits(s) && |s| >= width
  {
    var d := Decimal(n);
    if |d| >= width then d else Zeros(width - |d|) + d
  }

  lemma {:induction false} ValueOfDecimal(n: nat)
    ensures Value(Decimal(n)) == n
  {
    if n < 10 {
      assert Decimal(n)[..0] == [];
    } else {
      ValueOfDecimal(n / 10);
      var d := Decimal(n);
      assert d[..|d| - 1] == Decimal(n / 10);
    }
  }

  lemma {:induction false} ValueIgnoresZeros(k: nat, s: string)
    requires Digits(s)
    ensures Digits(Zeros(k) + s) && Value(Zeros(k) + s) == Value(s)
    decreases |s| + k
  {
    var t := Zeros(k) + s;
    if s == [] {
      if k > 0 {
        assert t[..|t| - 1] == Zeros(k - 1) + s;
        ValueIgnoresZeros(k - 1, s);
      }
    } else {
      assert t[..|t| - 1] == Zeros(k) + s[..|s| - 1];
      ValueIgnoresZeros(k, s[..|s| - 1]);
    }
  }

  lemma {:induction false} ValueOfPad(n: nat, width: nat)
    ensures Value(Pad(n, width)) == n
  {
    var d := Decimal(n);
    if |d| < width {
      ValueIgnoresZeros(width - |d|, d);
      assert Pad(n, width) == Zeros(width - |d|) + d;
    } else {
      assert Pad(n, width) == d;
    }
    ValueOfDecimal(n);
  }

  function Pow10(k: nat): (p: nat)
    ensures p >= 1
  {
    if k == 0 then 1 else 10 * Pow10(k - 1)
  }

  lemma {:induction false} DecimalLength(n: nat, k: nat)
    requires k > 0 && n < Pow10(k)
    ensures |Decimal(n)| <= k
  {
    if n >= 10 {
      assert Pow10(1) == 10 * Pow10(0);
      assert n / 10 < Pow10(k - 1);
      DecimalLength(n / 10, k - 1);
    }
  }

  lemma TensAndUnits(p: nat, x: nat, q: nat, y: nat)
    requires x < 10 && y < 10
    ensures 10 * p + x < 10 * q + y <==> p < q || (p == q && x < y)
    ensures 10 * p + x == 10 * q + y <==> p == q && x == y
  {
  }

  lemma ValueSnoc(a: string, c: char)
    requires Digits(a) && '0' <= c <= '9'
    ensures Digits(a + [c]) && Value(a + [c]) == 10 * Value(a) + (c - '0') as nat
  {
    assert (a + [c])[..|a|] == a;
  }

  lemma LessSnoc(a: string, c: char, b: string, d: char)
    requires |a| == |b|
    ensures Less(a + [c], b + [d]) <==> Less(a, b) || (a == b && c < d)
    ensures a + [c] == b + [d] <==> a == b && c == d
  {
    assert (a + [c])[..|a|] == a && (b + [d])[..|b|] == b;
    assert (a + [c])[|a|] == c && (b + [d])[|b|] == d;
    if a == b {
      LessIrreflexive(a);
      LessAfterPrefix(a, [c], [d]);
    } else {
      LessBeforeSuffix(a, b, [c], [d]);
    }
  }

  lemma DigitOrderStep(a: string, c: char, b: string, d: char)
    requires Digits(a) && Digits(b) && |a| == |b| && '0' <= c <= '9' && '0' <= d <= '9'
    requires (Less(a, b) <==> Value(a) < Value(b)) && (a == b <==> Value(a) == Value(b))
    ensures Digits(a + [c]) && Digits(b + [d])
    ensures Less(a + [c], b + [d]) <==> Value(a + [c]) < Value(b + [d])
    ensures a + [c] == b + [d] <==> Value(a + [c]) == Value(b + [d])
  {
    ValueSnoc(a, c);
    ValueSnoc(b, d);
    TensAndUnits(Value(a), (c - '0') as nat, Value(b), (d - '0') as nat);
    LessSnoc(a, c, b, d);
  }

  // Digit strings of one length compare as the numbers they spell.
  lemma {:induction false} DigitOrder(a: string, b: string)
    requires Digits(a) && Digits(b) && |a| == |b|
    ensures Less(a, b) <==> Value(a) < Value(b)
    ensures a == b <==> Value(a) == Value(b)
  {
    if a == [] {
    } else {
      var n := |a| - 1;
      DigitOrder(a[..n], b[..n]);
      assert a == a[..n] + [a[n]] && b == b[..n] + [b[n]];
      DigitOrderStep(a[..n], a[n], b[..n], b[n]);
    }
  }

  lemma PadOrder(n: nat, m: nat, width: nat)
    requires width > 0 && n < Pow10(width) && m < Pow10(width)
    ensures |Pad(n, width)| == |Pad(m, width)| == width
    ensures Less(Pad(n, width), Pad(m, width)) <==> n < m
  {
    DecimalLength(n, width);
    DecimalLength(m, width);
    ValueOfPad(n, width);
    ValueOfPad(m, width);
    DigitOrder(Pad(n, width), Pad(m, width));
  }

  lemma PadInjective(n: nat, m: nat, width: nat)
    requires Pad(n, width) == Pad(m, width)
    ensures n == m
  {
    ValueOfPad(n, width);
    ValueOfPad(m, width);
  }
}
