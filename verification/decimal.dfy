/** Text-to-number handling of the calculator: the comma normalisation done
    with `String.prototype.replace(',', '.')`, the subset of `parseFloat`
    that a numeric keyboard can produce, and the two-decimal rounding of
    `Number.prototype.toFixed(2)`, all over exact reals. */
module Decimal {
  import opened Wrappers

  /** `s.replace(',', '.')` with a string pattern: only the FIRST comma
      becomes a period; everything after it is left as it is. */
  function Normalize(s: string): (r: string)
    ensures |r| == |s|
    ensures ',' !in s ==> r == s
  {
    if s == [] then []
    else if s[0] == ',' then ['.'] + s[1..]
    else [s[0]] + Normalize(s[1..])
  }

  /** Position of the first comma of `s`. */
  function FirstComma(s: string): (p: nat)
    requires ',' in s
    ensures p < |s| && s[p] == ',' && ',' !in s[..p]
  {
    if s[0] == ',' then 0
    else
      assert ',' in s[1..] by { assert s == [s[0]] + s[1..]; }
      var p := 1 + FirstComma(s[1..]);
      assert s[..p] == [s[0]] + s[1..][..p - 1];
      p
  }

  /** Reference reading of the normalisation: every comma becomes a period. */
  function ReplaceCommas(s: string): (r: string)
    ensures |r| == |s|
    ensures ',' !in r
    ensures forall i :: 0 <= i < |s| ==> r[i] == (if s[i] == ',' then '.' else s[i])
  {
    seq(|s|, i requires 0 <= i < |s| => if s[i] == ',' then '.' else s[i])
  }

  /** Normalize touches the first comma and nothing else. */
  lemma {:induction false} NormalizeFirstComma(a: string, b: string)
    requires ',' !in a
    ensures Normalize(a + [','] + b) == a + ['.'] + b
  {
    if a != [] {
      assert (a + [','] + b)[1..] == a[1..] + [','] + b;
      NormalizeFirstComma(a[1..], b);
      assert a == [a[0]] + a[1..];
    }
  }

  /** "70,5" and "70.5" normalise to the same text: with at most one comma,
      the comma and the period are interchangeable. */
  lemma {:induction false} CommaOrPeriodNormalizeAlike(a: string, b: string)
    requires ',' !in a && ',' !in b
    ensures Normalize(a + [','] + b) == Normalize(a + ['.'] + b) == a + ['.'] + b
  {
    NormalizeFirstComma(a, b);
    assert ',' !in a + ['.'] + b;
  }

  /** With at most one comma, replacing the first comma is replacing them all. */
  lemma {:induction false} NormalizeReplacesAllOfOneComma(a: string, b: string)
    requires ',' !in a && ',' !in b
    ensures Normalize(a + [','] + b) == ReplaceCommas(a + [','] + b)
  {
    NormalizeFirstComma(a, b);
    var s, t := a + [','] + b, a + ['.'] + b;
    forall i | 0 <= i < |s|
      ensures ReplaceCommas(s)[i] == t[i]
    {
      if i < |a| {
        assert s[i] == a[i] == t[i] && a[i] in a;
      } else if i > |a| {
        assert s[i] == b[i - |a| - 1] == t[i] && b[i - |a| - 1] in b;
      }
    }
    assert ReplaceCommas(s) == t;
  }

  predicate IsDigit(c: char) {
    '0' <= c <= '9'
  }

  predicate AllDigits(s: string) {
    forall i :: 0 <= i < |s| ==> IsDigit(s[i])
  }

  function DigitValue(c: char): (d: nat)
    requires IsDigit(c)
    ensures d < 10
  {
    (c as int) - ('0' as int)
  }

  /** The longest prefix of `s` made of decimal digits. */
  function LeadingDigits(s: string): (r: string)
    ensures |r| <= |s| && AllDigits(r)
  {
    if s != [] && IsDigit(s[0]) then [s[0]] + LeadingDigits(s[1..]) else []
  }

  /** The run is a prefix, and it stops at the first non-digit. */
  lemma {:induction false} LeadingDigitsStop(s: string)
    ensures LeadingDigits(s) <= s
    ensures AllDigits(s) <==> LeadingDigits(s) == s
    ensures |LeadingDigits(s)| < |s| ==> !IsDigit(s[|LeadingDigits(s)|])
  {
    if s != [] && IsDigit(s[0]) {
      LeadingDigitsStop(s[1..]);
      assert s == [s[0]] + s[1..];
      assert AllDigits(s) <==> AllDigits(s[1..]);
    }
  }

  /** The leading digits of a concatenation: they run into `d` only when all
      of `c` is digits. */
  lemma {:induction false} LeadingDigitsAppend(c: string, d: string)
    ensures LeadingDigits(c + d) == if LeadingDigits(c) == c then c + LeadingDigits(d) else LeadingDigits(c)
  {
    if c == [] {
      assert c + d == d;
    } else {
      assert (c + d)[0] == c[0];
      if IsDigit(c[0]) {
        assert (c + d)[1..] == c[1..] + d;
        LeadingDigitsAppend(c[1..], d);
        assert LeadingDigits(c) == [c[0]] + LeadingDigits(c[1..]);
        assert LeadingDigits(c + d) == [c[0]] + LeadingDigits(c[1..] + d);
        assert c == [c[0]] + c[1..];
        assert LeadingDigits(c) == c <==> LeadingDigits(c[1..]) == c[1..];
      }
    }
  }

  /** Value of a digit string read as a whole number. */
  function NaturalValue(ds: string): nat
    requires AllDigits(ds)
  {
    if ds == [] then 0 else 10 * NaturalValue(ds[..|ds| - 1]) + DigitValue(ds[|ds| - 1])
  }

  /** Value of a digit string read after a decimal point. */
  function FractionValue(ds: string): (f: real)
    requires AllDigits(ds)
    ensures 0.0 <= f <= 1.0
  {
    if ds == [] then 0.0 else (DigitValue(ds[0]) as real + FractionValue(ds[1..])) / 10.0
  }

  /** The digits after a decimal point at the head of `rest`, or none. */
  function FractionDigits(rest: string): (r: string)
    ensures AllDigits(r)
  {
    if rest != [] && rest[0] == '.' then LeadingDigits(rest[1..]) else []
  }

  /** `parseFloat` on a text without sign: integer digits, optionally a
      period and fraction digits; whatever follows is ignored. No digit at
      all is NaN. */
  function ParseUnsigned(s: string): (r: Option<real>)
    ensures r.Some? ==> r.value >= 0.0
    ensures r.None? <==> !StartsNumber(s)
  {
    var whole := LeadingDigits(s);
    var fraction := FractionDigits(s[|whole|..]);
    if whole == [] && fraction == [] then None
    else Some(NaturalValue(whole) as real + FractionValue(fraction))
  }

  /** A text starts a number when it starts with a digit, or with a period
      followed by a digit. */
  predicate StartsNumber(s: string) {
    (s != [] && IsDigit(s[0])) || (|s| >= 2 && s[0] == '.' && IsDigit(s[1]))
  }

  predicate IsSign(c: char) {
    c == '-' || c == '+'
  }

  function SignLength(s: string): (k: nat)
    ensures k <= |s|
  {
    if s != [] && IsSign(s[0]) then 1 else 0
  }

  /** The value of an unsigned parse under a sign. */
  function ApplySign(negative: bool, m: Option<real>): Option<real> {
    match m
    case None => None
    case Some(v) => Some(if negative then -v else v)
  }

  /** `parseFloat` on the numeric-keyboard subset: an optional sign followed
      by an unsigned decimal. */
  function ParseFloat(s: string): (r: Option<real>)
    ensures r.Some? && r.value < 0.0 ==> s != [] && s[0] == '-'
    ensures r.None? <==> !StartsNumber(s[SignLength(s)..])
  {
    ApplySign(s != [] && s[0] == '-', ParseUnsigned(s[SignLength(s)..]))
  }

  /** A leading minus sign negates the value; a plus sign is ignored. */
  lemma {:induction false} ParseFloatSign(s: string)
    requires s == [] || !IsSign(s[0])
    ensures ParseFloat(['-'] + s) == (match ParseFloat(s) case None => None case Some(v) => Some(-v))
    ensures ParseFloat(['+'] + s) == ParseFloat(s)
  {
    Unsigned(s);
    var minus := ['-'] + s;
    assert ParseFloat(minus) == ApplySign(true, ParseUnsigned(s)) by {
      assert SignLength(minus) == 1 && minus[1..] == s;
    }
    var plus := ['+'] + s;
    assert ParseFloat(plus) == ApplySign(false, ParseUnsigned(s)) by {
      assert SignLength(plus) == 1 && plus[1..] == s;
    }
  }

  /** Without a sign, `parseFloat` is the unsigned parse. */
  lemma {:induction false} Unsigned(s: string)
    requires s == [] || !IsSign(s[0])
    ensures ParseFloat(s) == ParseUnsigned(s)
  {
    assert s[0..] == s;
  }

  /** The unsigned parse in terms of the digit runs it finds. */
  lemma {:induction false} UnsignedValue(s: string, whole: string, fraction: string)
    requires LeadingDigits(s) == whole && FractionDigits(s[|whole|..]) == fraction
    requires whole + fraction != []
    ensures ParseUnsigned(s) == Some(NaturalValue(whole) as real + FractionValue(fraction))
  {
    if whole == [] {
      assert fraction != [];
    }
  }

  /** A whole number followed by text that continues no number parses to
      the number. */
  lemma {:induction false} ParseWhole(whole: string, rest: string)
    requires whole != [] && AllDigits(whole)
    requires rest == [] || (!IsDigit(rest[0]) && rest[0] != '.')
    ensures ParseFloat(whole + rest) == Some(NaturalValue(whole) as real)
  {
    var s := whole + rest;
    assert LeadingDigits(s) == whole && s[|whole|..] == rest by {
      LeadingDigitsStop(whole);
      LeadingDigitsAppend(whole, rest);
    }
    assert ParseUnsigned(s) == Some(NaturalValue(whole) as real) by {
      UnsignedValue(s, whole, []);
    }
    assert s[0] == whole[0];
    Unsigned(s);
  }

  /** A decimal `whole.fraction` followed by text that continues no number
      parses to its exact value. */
  lemma {:induction false} ParseDecimal(whole: string, fraction: string, rest: string)
    requires AllDigits(whole) && AllDigits(fraction) && whole + fraction != []
    requires rest == [] || !IsDigit(rest[0])
    ensures ParseFloat(whole + ['.'] + fraction + rest)
         == Some(NaturalValue(whole) as real + FractionValue(fraction))
  {
    var s := whole + ['.'] + fraction + rest;
    DecimalRuns(whole, fraction, rest);
    UnsignedValue(s, whole, fraction);
    assert !IsSign(s[0]) by {
      assert s[0] == if whole == [] then '.' else whole[0];
    }
    Unsigned(s);
  }

  /** The two digit runs of `whole.fraction` followed by a non-digit. */
  lemma {:induction false} DecimalRuns(whole: string, fraction: string, rest: string)
    requires AllDigits(whole) && AllDigits(fraction)
    requires rest == [] || !IsDigit(rest[0])
    ensures var s := whole + ['.'] + fraction + rest;
      LeadingDigits(s) == whole && FractionDigits(s[|whole|..]) == fraction
  {
    var tail := ['.'] + fraction + rest;
    var s := whole + tail;
    assert s == whole + ['.'] + fraction + rest;
    assert LeadingDigits(s) == whole && s[|whole|..] == tail by {
      LeadingDigitsStop(whole);
      LeadingDigitsAppend(whole, tail);
    }
    assert tail[1..] == fraction + rest;
    LeadingDigitsStop(fraction);
    LeadingDigitsAppend(fraction, rest);
  }

  /** The unsigned parse depends on nothing but the two digit runs. */
  lemma {:induction false} SameRunsSameValue(s: string, t: string)
    requires LeadingDigits(s) == LeadingDigits(t)
    requires FractionDigits(s[|LeadingDigits(s)|..]) == FractionDigits(t[|LeadingDigits(t)|..])
    ensures ParseUnsigned(s) == ParseUnsigned(t)
  {
  }

  /** After a non-digit `tail`, the fraction digits of `tail + ['.'] + x`
      reach into `x` only through its leading digit run. */
  lemma {:induction false} FractionAfterPeriod(tail: string, x: string, y: string)
    requires tail == [] || !IsDigit(tail[0])
    requires LeadingDigits(x) == LeadingDigits(y)
    ensures FractionDigits(tail + ['.'] + x) == FractionDigits(tail + ['.'] + y)
  {
    if tail == [] {
      assert ([] + ['.'] + x)[1..] == x && ([] + ['.'] + y)[1..] == y;
    } else if tail[0] == '.' {
      assert (tail + ['.'] + x)[1..] == tail[1..] + ['.'] + x;
      assert (tail + ['.'] + y)[1..] == tail[1..] + ['.'] + y;
      SplitAtRun(tail[1..], x);
      SplitAtRun(tail[1..], y);
    }
  }

  /** What is left of `c` after its leading digits: nothing when `c` is
      all digits, otherwise text that starts with a non-digit. */
  function RunTail(c: string): (t: string)
    ensures t == [] || !IsDigit(t[0])
  {
    LeadingDigitsStop(c);
    c[|LeadingDigits(c)|..]
  }

  /** Where the integer digits of `c + ['.'] + z` end, and what follows. */
  lemma {:induction false} SplitAtRun(c: string, z: string)
    ensures LeadingDigits(c + ['.'] + z) == LeadingDigits(c)
    ensures (c + ['.'] + z)[|LeadingDigits(c)|..] == RunTail(c) + ['.'] + z
  {
    LeadingDigitsStop(c);
    assert c + ['.'] + z == c + (['.'] + z);
    LeadingDigitsAppend(c, ['.'] + z);
  }

  /** Once an unsigned text has passed a period, `ParseUnsigned` looks at
      nothing but the digit run that follows that period. */
  lemma {:induction false} ParseUnsignedAfterPeriod(c: string, x: string, y: string)
    requires LeadingDigits(x) == LeadingDigits(y)
    ensures ParseUnsigned(c + ['.'] + x) == ParseUnsigned(c + ['.'] + y)
  {
    SplitAtRun(c, x);
    SplitAtRun(c, y);
    FractionAfterPeriod(RunTail(c), x, y);
    SameRunsSameValue(c + ['.'] + x, c + ['.'] + y);
  }

  /** The same holds with an optional sign in front. */
  lemma {:induction false} ParseAfterPeriod(a: string, x: string, y: string)
    requires LeadingDigits(x) == LeadingDigits(y)
    ensures ParseFloat(a + ['.'] + x) == ParseFloat(a + ['.'] + y)
  {
    var u, v := a + ['.'] + x, a + ['.'] + y;
    var k := SignLength(u);
    assert k == SignLength(v) && k <= |a| && (u[0] == '-' <==> v[0] == '-') by {
      if a == [] {
        assert u[0] == '.' && v[0] == '.';
      } else {
        assert u[0] == a[0] && v[0] == a[0];
      }
    }
    assert u[k..] == a[k..] + ['.'] + x && v[k..] == a[k..] + ['.'] + y;
    ParseUnsignedAfterPeriod(a[k..], x, y);
  }

  /** Replacing every comma, split at the first one. */
  lemma {:induction false} ReplaceCommasSplit(a: string, b: string)
    requires ',' !in a
    ensures ReplaceCommas(a + [','] + b) == a + ['.'] + ReplaceCommas(b)
  {
    var s, t := a + [','] + b, a + ['.'] + ReplaceCommas(b);
    forall i | 0 <= i < |s|
      ensures ReplaceCommas(s)[i] == t[i]
    {
      if i < |a| {
        assert s[i] == a[i] && a[i] in a;
      } else if i > |a| {
        assert s[i] == b[i - |a| - 1];
      }
    }
  }

  /** Replacing the first comma only gives the same parsed number as
      replacing every comma: after the first separator the parser reads one
      digit run and stops at the next comma or period alike. */
  lemma {:induction false} ParseNormalizeAsReplaceCommas(s: string)
    ensures ParseFloat(Normalize(s)) == ParseFloat(ReplaceCommas(s))
  {
    if ',' !in s {
      assert ReplaceCommas(s) == s;
    } else {
      var p := FirstComma(s);
      var a, b := s[..p], s[p + 1..];
      assert s == a + [','] + b;
      NormalizeFirstComma(a, b);
      ReplaceCommasSplit(a, b);
      LeadingDigitsOfReplaceCommas(b);
      ParseAfterPeriod(a, b, ReplaceCommas(b));
    }
  }

  /** Commas and periods are both non-digits, so replacing commas leaves
      the leading digit run alone. */
  lemma {:induction false} LeadingDigitsOfReplaceCommas(s: string)
    ensures LeadingDigits(ReplaceCommas(s)) == LeadingDigits(s)
  {
    if s != [] {
      assert ReplaceCommas(s)[1..] == ReplaceCommas(s[1..]);
      LeadingDigitsOfReplaceCommas(s[1..]);
    }
  }

  /** The integer nearest to `y`, halves going up. */
  function RoundHalfUp(y: real): (n: int)
    ensures -0.5 < n as real - y <= 0.5
  {
    (y + 0.5).Floor
  }

  /** The whole number of hundredths nearest to `x`, ties going away from
      zero: toFixed rounds the magnitude and puts the sign back. */
  function Cents(x: real): (c: int)
    ensures -0.5 <= c as real - x * 100.0 <= 0.5
    ensures x >= 0.0 ==> -0.5 < c as real - x * 100.0
    ensures x < 0.0 ==> c as real - x * 100.0 < 0.5
  {
    if x < 0.0 then -RoundHalfUp(-x * 100.0) else RoundHalfUp(x * 100.0)
  }

  /** `x.toFixed(2)` read back as a number: the multiple of 0.01 nearest to
      `x`, a tie going to the one of larger magnitude. */
  function ToFixed2(x: real): (r: real)
    ensures -0.005 <= r - x <= 0.005
    ensures x >= 0.0 ==> x - 0.005 < r
    ensures x < 0.0 ==> r < x + 0.005
    ensures (r * 100.0).Floor as real == r * 100.0
  {
    var c := Cents(x);
    assert (c as real / 100.0) * 100.0 == c as real;
    assert c as real / 100.0 - x == (c as real - x * 100.0) / 100.0;
    c as real / 100.0
  }
}
