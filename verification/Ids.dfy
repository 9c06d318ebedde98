/** Generated ids "prefix-000123": the counter zero-padded to six digits, its
    recovery from stored ids at start-up, and the order of ids as strings. */
module Ids {
  import opened Basics

  const WIDTH := 6
  const BIGINT_LIMIT := 0x8000_0000_0000_0000

  predicate IsDigit(c: char) { '0' <= c <= '9' }

  predicate AllDigits(s: string) {
    forall i :: 0 <= i < |s| ==> IsDigit(s[i])
  }

  function DigitChar(d: nat): char
    requires d < 10
  {
    ('0' as int + d) as char
  }

  function Digits(n: nat): (s: string)
    ensures s != [] && AllDigits(s)
  {
    if n < 10 then [DigitChar(n)] else Digits(n / 10) + [DigitChar(n % 10)]
  }

  function Pad(s: string): (r: string)
    ensures AllDigits(s) ==> AllDigits(r)
    ensures |r| == if |s| < WIDTH then WIDTH else |s|
    decreases WIDTH - |s|
  {
    if |s| < WIDTH then Pad("0" + s) else s
  }

  /** The "%06d" text of a counter value. */
  function Counter(v: nat): string { Pad(Digits(v)) }

  function Format(prefix: string, v: nat): string { prefix + "-" + Counter(v) }

  function Value(s: string): nat
    requires AllDigits(s)
  {
    if s == [] then 0 else 10 * Value(s[..|s| - 1]) + (s[|s| - 1] as int - '0' as int)
  }

  function TrailingDigits(s: string): (r: string)
    ensures AllDigits(r)
  {
    if s != [] && IsDigit(s[|s| - 1]) then TrailingDigits(s[..|s| - 1]) + [s[|s| - 1]] else ""
  }

  /** What SUBSTRING(id FROM '[0-9]+$') selects, as a number. */
  function Suffix(id: string): Option<nat> {
    if TrailingDigits(id) == "" then None else Some(Value(TrailingDigits(id)))
  }

  lemma {:induction false} ValueDigits(n: nat)
    ensures Value(Digits(n)) == n
  {
    if n >= 10 {
      ValueDigits(n / 10);
      assert Digits(n)[..|Digits(n)| - 1] == Digits(n / 10);
    }
  }

  lemma {:induction false} ValueLeadingZero(s: string)
    requires AllDigits(s)
    ensures Value("0" + s) == Value(s)
  {
    if s != [] {
      ValueLeadingZero(s[..|s| - 1]);
      assert ("0" + s)[..|s|] == "0" + s[..|s| - 1];
    }
  }

  lemma {:induction false} ValuePad(s: string)
    requires AllDigits(s)
    ensures Value(Pad(s)) == Value(s)
    decreases WIDTH - |s|
  {
    if |s| < WIDTH {
      ValuePad("0" + s);
      ValueLeadingZero(s);
    }
  }

  lemma CounterValue(v: nat)
    ensures AllDigits(Counter(v)) && Value(Counter(v)) == v
  {
    ValueDigits(v);
    ValuePad(Digits(v));
  }

  lemma {:induction false} TrailingDigitsAfterDash(p: string, s: string)
    requires AllDigits(s)
    ensures TrailingDigits(p + "-" + s) == s
  {
    var t := p + "-" + s;
    if s != [] {
      TrailingDigitsAfterDash(p, s[..|s| - 1]);
      assert t[..|t| - 1] == p + "-" + s[..|s| - 1];
      assert s == s[..|s| - 1] + [s[|s| - 1]];
    } else {
      assert t[|t| - 1] == '-';
    }
  }

  /** Reading a generated id back gives the counter it was made from. */
  lemma SuffixOfFormat(prefix: string, v: nat)
    ensures Suffix(Format(prefix, v)) == Some(v)
  {
    CounterValue(v);
    TrailingDigitsAfterDash(prefix, Counter(v));
  }

  lemma {:induction false} NoLeadingZero(n: nat)
    ensures |Digits(n)| > 1 ==> Digits(n)[0] != '0'
  {
    if n >= 10 { NoLeadingZero(n / 10); }
  }

  lemma {:induction false} PadLong(s: string)
    ensures |s| >= WIDTH ==> Pad(s) == s
  {
  }

  /** What an id looks like: the prefix, a dash and the number in decimal, with zeros
      in front up to six digits and none beyond. */
  lemma FormatShape(prefix: string, v: nat) returns (digits: string)
    ensures Format(prefix, v) == prefix + "-" + digits && AllDigits(digits) && Value(digits) == v
    ensures |digits| >= 6 && (|digits| > 6 ==> digits[0] != '0')
  {
    digits := Counter(v);
    CounterValue(v);
    NoLeadingZero(v);
    PadLong(Digits(v));
  }

  /** The number of an id is its longest run of digits at the end. */
  lemma {:induction false} TrailingDigitsAre(s: string)
    ensures var d := TrailingDigits(s);
            |d| <= |s| && AllDigits(d) && s[|s| - |d|..] == d && (|d| < |s| ==> !('0' <= s[|s| - |d| - 1] <= '9'))
  {
    if s != [] && IsDigit(s[|s| - 1]) {
      TrailingDigitsAre(s[..|s| - 1]);
      var d := TrailingDigits(s[..|s| - 1]);
      assert s[|s| - |d| - 1..] == s[..|s| - 1][|s| - 1 - |d|..] + [s[|s| - 1]];
    }
  }

  lemma FormatInjective(p: string, v: nat, q: string, w: nat)
    ensures Format(p, v) == Format(q, w) <==> p == q && v == w
  {
    if Format(p, v) == Format(q, w) {
      SuffixOfFormat(p, v);
      SuffixOfFormat(q, w);
      assert p == Format(p, v)[..|p|] && q == Format(q, w)[..|q|];
    }
  }

  // ---- Seeding the counter ----

  /** The cast to BIGINT fails the whole query when one suffix is too large. */
  predicate Castable(table: seq<string>) {
    forall i | 0 <= i < |table| :: Suffix(table[i]).Some? ==> Suffix(table[i]).value < BIGINT_LIMIT
  }

  predicate Covers(c: nat, table: seq<string>) {
    forall i | 0 <= i < |table| :: Suffix(table[i]).Some? ==> Suffix(table[i]).value <= c
  }

  /** A stored id that the generator would produce again at some later value. */
  ghost predicate Reissued(c: nat, id: string) {
    exists p, v :: v > c && id == Format(p, v)
  }

  method TableMax(table: seq<string>) returns (result: Option<nat>)
    ensures result.Some? <==> Castable(table)
    ensures result.Some? <==> forall i | 0 <= i < |table| && Suffix(table[i]).Some? :: Suffix(table[i]).value <= 9_223_372_036_854_775_807
    ensures result.Some? ==> Covers(result.value, table)
    ensures result.Some? && result.value > 0 ==> exists i | 0 <= i < |table| :: Suffix(table[i]) == result
  {
    var max: nat := 0;
    for i := 0 to |table|
      invariant Castable(table[..i]) && Covers(max, table[..i])
      invariant max > 0 ==> exists k | 0 <= k < i :: Suffix(table[k]) == Some(max)
    {
      var suffix := Suffix(table[i]);
      if suffix.Some? {
        if suffix.value >= BIGINT_LIMIT {
          assert !Castable(table);
          return None;
        }
        if suffix.value > max { max := suffix.value; }
      }
    }
    assert table[..|table|] == table;
    result := Some(max);
  }

  /** Start-up seeding: the largest suffix over the tables whose query succeeds. */
  method SeedCounter(tables: seq<seq<string>>) returns (c: nat)
    ensures forall t | 0 <= t < |tables| && Castable(tables[t]) :: Covers(c, tables[t])
    ensures c > 0 ==> exists t, i | 0 <= t < |tables| && 0 <= i < |tables[t]| ::
              Castable(tables[t]) && Suffix(tables[t][i]) == Some(c)
  {
    c := 0;
    for t := 0 to |tables|
      invariant forall u | 0 <= u < t && Castable(tables[u]) :: Covers(c, tables[u])
      invariant c > 0 ==> exists u, i | 0 <= u < t && 0 <= i < |tables[u]| ::
                  Castable(tables[u]) && Suffix(tables[u][i]) == Some(c)
    {
      var suffix := TableMax(tables[t]);
      if suffix.Some? && suffix.value > c { c := suffix.value; }
    }
  }

  /** A check of a stored id: it is a prefix, a dash and the padded digits of a
      number above c. */
  predicate GeneratedAbove(c: nat, id: string) {
    var t := TrailingDigits(id);
    t != "" && |t| < |id| && Value(t) > c && id == Format(id[..|id| - |t| - 1], Value(t))
  }

  lemma ReissuedIsGenerated(c: nat, id: string)
    ensures Reissued(c, id) <==> GeneratedAbove(c, id)
  {
    if Reissued(c, id) {
      var p, v :| v > c && id == Format(p, v);
      CounterValue(v);
      TrailingDigitsAfterDash(p, Counter(v));
      assert id[..|id| - |Counter(v)| - 1] == p;
    }
  }

  /** No id generated after seeding is already stored, exactly when no table
      whose query failed holds an id of the generator's form above the seed. */
  lemma SeededIdsAreNew(tables: seq<seq<string>>, c: nat)
    requires forall t | 0 <= t < |tables| && Castable(tables[t]) :: Covers(c, tables[t])
    ensures (forall t, i | 0 <= t < |tables| && 0 <= i < |tables[t]| :: !Reissued(c, tables[t][i])) <==>
            (forall t, i | 0 <= t < |tables| && !Castable(tables[t]) && 0 <= i < |tables[t]| :: !GeneratedAbove(c, tables[t][i]))
    ensures (forall t | 0 <= t < |tables| :: Castable(tables[t])) ==>
              forall t, i | 0 <= t < |tables| && 0 <= i < |tables[t]| :: !Reissued(c, tables[t][i])
  {
    forall t, i | 0 <= t < |tables| && 0 <= i < |tables[t]|
      ensures Reissued(c, tables[t][i]) <==> !Castable(tables[t]) && GeneratedAbove(c, tables[t][i])
    {
      ReissuedIsGenerated(c, tables[t][i]);
      if Castable(tables[t]) {
        assert Suffix(tables[t][i]).Some? ==> Suffix(tables[t][i]).value <= c;
      }
    }
  }

  /** One oversized suffix hides its whole table from seeding. */
  lemma OversizedSuffixCausesReissue()
    ensures var table := [Format("job", BIGINT_LIMIT), Format("job", 1)];
            !Castable(table) && Reissued(0, table[1])
  {
    var table := [Format("job", BIGINT_LIMIT), Format("job", 1)];
    SuffixOfFormat("job", BIGINT_LIMIT);
    assert Suffix(table[0]).value >= BIGINT_LIMIT;
    assert table[1] == Format("job", 1);
  }

  // ---- Ids compared as strings ----

  /** A number without its last k decimal digits. */
  function DropDigits(v: nat, k: nat): nat {
    if k == 0 then v else DropDigits(v / 10, k - 1)
  }

  lemma {:induction false} LessCommonPrefix(p: string, a: string, b: string)
    ensures Less(p + a, p + b) <==> Less(a, b)
  {
    if p == [] {
      assert p + a == a && p + b == b;
    } else {
      LessCommonPrefix(p[1..], a, b);
      assert (p + a)[1..] == p[1..] + a && (p + b)[1..] == p[1..] + b;
    }
  }

  lemma {:induction false} LessLast(s: string, c: char, t: string, d: char)
    requires |s| == |t|
    ensures Less(s + [c], t + [d]) <==> Less(s, t) || (s == t && c < d)
  {
    if s == [] {
      assert s + [c] == [c] && t + [d] == [d];
    } else {
      LessLast(s[1..], c, t[1..], d);
      assert (s + [c])[1..] == s[1..] + [c] && (t + [d])[1..] == t[1..] + [d];
      assert s == [s[0]] + s[1..] && t == [t[0]] + t[1..];
    }
  }

  /** Digit strings of one length compare as the numbers they denote. */
  lemma {:induction false} LessSameWidth(s: string, t: string)
    requires |s| == |t| && AllDigits(s) && AllDigits(t)
    ensures Less(s, t) <==> Value(s) < Value(t)
    ensures s == t <==> Value(s) == Value(t)
  {
    if s != [] {
      var n := |s| - 1;
      LessSameWidth(s[..n], t[..n]);
      LessLast(s[..n], s[n], t[..n], t[n]);
      assert s == s[..n] + [s[n]] && t == t[..n] + [t[n]];
    }
  }

  lemma {:induction false} LessShorter(s: string, t: string)
    requires |s| < |t|
    ensures Less(s, t) <==> Less(s, t[..|s|]) || s == t[..|s|]
  {
    if s != [] {
      LessShorter(s[1..], t[1..]);
      assert t[..|s|][1..] == t[1..][..|s| - 1];
      assert s == [s[0]] + s[1..] && t[..|s|] == [t[0]] + t[..|s|][1..];
    }
  }

  lemma {:induction false} ValuePrefix(t: string, n: nat)
    requires AllDigits(t) && n <= |t|
    ensures Value(t[..n]) == DropDigits(Value(t), |t| - n)
    decreases |t|
  {
    if n < |t| {
      ValuePrefix(t[..|t| - 1], n);
      assert t[..|t| - 1][..n] == t[..n];
      assert Value(t) / 10 == Value(t[..|t| - 1]);
    } else {
      assert t[..n] == t;
    }
  }

  lemma {:induction false} DigitsWidthGrows(a: nat, b: nat)
    requires a <= b
    ensures |Digits(a)| <= |Digits(b)|
  {
    if a >= 10 { DigitsWidthGrows(a / 10, b / 10); }
  }

  /** For a < b the ids are in string order exactly when a does not exceed the
      leading digits of b that stand over it. */
  lemma StringOrder(prefix: string, a: nat, b: nat)
    requires a < b
    ensures |Counter(a)| <= |Counter(b)|
    ensures Less(Format(prefix, a), Format(prefix, b)) <==>
            a <= DropDigits(b, |Counter(b)| - |Counter(a)|)
  {
    var s, t := Counter(a), Counter(b);
    CounterValue(a);
    CounterValue(b);
    DigitsWidthGrows(a, b);
    LessCommonPrefix(prefix + "-", s, t);
    if |s| == |t| {
      LessSameWidth(s, t);
    } else {
      LessShorter(s, t);
      LessSameWidth(s, t[..|s|]);
      ValuePrefix(t, |s|);
    }
  }

  lemma SixDigits(v: nat)
    requires v <= 999_999
    ensures |Counter(v)| == WIDTH
  {
    DigitsWidthGrows(v, 999_999);
    assert |Digits(999_999)| == 6 by {
      assert Digits(999_999) == Digits(99_999) + ['9'];
      assert Digits(99_999) == Digits(9_999) + ['9'];
      assert Digits(9_999) == Digits(999) + ['9'];
    }
  }

  /** Up to 999999 string order is numeric order; the next id already breaks it. */
  lemma StringOrderIsNumeric(prefix: string, a: nat, b: nat)
    ensures a <= 999_999 && b <= 999_999 ==> (Less(Format(prefix, a), Format(prefix, b)) <==> a < b)
    ensures Less(Format(prefix, 1_000_000), Format(prefix, 999_999))
  {
    if a <= 999_999 && b <= 999_999 {
      SixDigits(a);
      SixDigits(b);
      if a < b { StringOrder(prefix, a, b); }
      if b < a { StringOrder(prefix, b, a); }
      LessTotal(Format(prefix, a), Format(prefix, b));
    }
    StringOrder(prefix, 999_999, 1_000_000);
    SixDigits(999_999);
    assert |Counter(1_000_000)| == 7 by {
      SixDigits(100_000);
      assert |Digits(100_000)| == 6 by {
        assert Digits(100_000) == Digits(10_000) + ['0'];
        assert Digits(10_000) == Digits(1_000) + ['0'];
        assert Digits(1_000) == Digits(100) + ['0'];
      }
    }
    assert DropDigits(1_000_000, 1) == 100_000;
    FormatInjective(prefix, 999_999, prefix, 1_000_000);
    LessTotal(Format(prefix, 999_999), Format(prefix, 1_000_000));
  }
}
