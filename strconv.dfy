/**
 * The decimal conversions the programs rely on: `%d` formatting of a Go
 * `int` (the same text `strconv.Itoa` produces) and `strconv.Atoi` with its
 * error discarded, i.e. the value Atoi returns alongside an error.
 */
module GoStrconv {
  import opened GoInt

  predicate IsDigit(c: char) { '0' <= c <= '9' }

  predicate AllDigits(s: string) { forall k :: 0 <= k < |s| ==> IsDigit(s[k]) }

  function DigitChar(d: int): (c: char)
    requires 0 <= d < 10
    ensures IsDigit(c) && c as int - '0' as int == d
  {
    ('0' as int + d) as char
  }

  /** The value of a string of decimal digits (0 for the empty string). */
  function DigitsValue(s: string): (n: nat)
    requires AllDigits(s)
    ensures n < Pow10(|s|)
    decreases |s|
  {
    if |s| == 0 then 0
    else DigitsValue(s[..|s| - 1]) * 10 + (s[|s| - 1] as int - '0' as int)
  }

  function Pow10(k: nat): (p: nat)
    ensures p >= 1
  {
    if k == 0 then 1 else 10 * Pow10(k - 1)
  }

  /** The decimal digits of n, most significant first, with no leading zero. */
  function Decimal(n: nat): (s: string)
    ensures |s| >= 1 && AllDigits(s)
    ensures s[0] == '0' ==> n == 0
    ensures n < 10 <==> |s| == 1
  {
    if n < 10 then [DigitChar(n)] else Decimal(n / 10) + [DigitChar(n % 10)]
  }

  /** `%d` of an int: a minus sign for negatives, then the digits of |n|. */
  function Itoa(n: int): (s: string)
    ensures |s| >= 1
    ensures n >= 0 ==> AllDigits(s)
    ensures n < 0 ==> s[0] == '-' && |s| >= 2 && AllDigits(s[1..])
  {
    if n < 0 then "-" + Decimal(-n) else Decimal(n)
  }

  const MaxUint64: int := Modulus - 1

  /** The text after an optional leading '+' or '-'. */
  function Unsigned(s: string): (u: string)
    ensures |s| >= 1 && (s[0] == '-' || s[0] == '+') ==> u == s[1..]
    ensures |s| == 0 || (s[0] != '-' && s[0] != '+') ==> u == s
  {
    if |s| >= 1 && (s[0] == '-' || s[0] == '+') then s[1..] else s
  }

  predicate IsNegative(s: string) { |s| >= 1 && s[0] == '-' }

  /** The syntax Atoi accepts without error: an optional sign, then one or more digits. */
  predicate ParsesAsInt(s: string)
  {
    |Unsigned(s)| >= 1 && AllDigits(Unsigned(s))
  }

  /** The longest prefix of s made of digits. */
  function DigitRun(s: string): (p: string)
    ensures AllDigits(p) && |p| <= |s| && p == s[..|p|]
    ensures |p| < |s| ==> !IsDigit(s[|p|])
    decreases |s|
  {
    if |s| == 0 || !IsDigit(s[0]) then [] else [s[0]] + DigitRun(s[1..])
  }

  /**
   * The digits before the first non-digit (after the sign) already exceed
   * 2^64 - 1, so the digit scan stops with a range error before it reaches
   * a bad byte.
   */
  predicate RunOverflows(s: string)
  {
    DigitsValue(DigitRun(Unsigned(s))) > MaxUint64
  }

  /** What the unsigned digit scan ends with. */
  datatype Scan = Value(n: nat) | SyntaxError | RangeError

  /**
   * The digit loop of `strconv.ParseUint` for base 10 and 64 bits, from the
   * accumulated value n on: the first byte that is not a digit is a syntax
   * error, and the first digit that takes the value past 2^64 - 1 is a range
   * error.
   */
  function ScanDigits(s: string, n: nat): (r: Scan)
    requires n <= MaxUint64
    ensures r.Value? ==> r.n <= MaxUint64
    decreases |s|
  {
    if |s| == 0 then Value(n)
    else if !IsDigit(s[0]) then SyntaxError
    else
      var n1 := n * 10 + (s[0] as int - '0' as int);
      if n1 > MaxUint64 then RangeError else ScanDigits(s[1..], n1)
  }

  /** The int64 `ParseInt` makes of a sign and an unsigned value, saturating at both ends. */
  function Saturate(negative: bool, v: nat): (r: Int64)
    ensures !negative && v <= MaxInt64 ==> r == v
    ensures negative && v <= -MinInt64 ==> r == 0 - v as int
    ensures !negative && v > MaxInt64 ==> r == MaxInt64
    ensures negative && v > -MinInt64 ==> r == MinInt64
  {
    if negative then (if v > -MinInt64 then MinInt64 else 0 - v as int)
    else (if v > MaxInt64 then MaxInt64 else v)
  }

  /**
   * `strconv.Atoi(s)` with the error ignored. Text that parses gives its
   * value, saturated to the int64 range. Otherwise the result is 0, except
   * when the digit run overflows 2^64 - 1 before the first bad byte: the
   * scan then stops with a range error and the result saturates by sign.
   * (Atoi's fast path for short text gives the same values as this general
   * path.)
   */
  function Atoi(s: string): (r: Int64)
    ensures ParsesAsInt(s) ==> r == Saturate(IsNegative(s), DigitsValue(Unsigned(s)))
    ensures !ParsesAsInt(s) && RunOverflows(s) ==> r == if IsNegative(s) then MinInt64 else MaxInt64
    ensures !ParsesAsInt(s) && !RunOverflows(s) ==> r == 0
  {
    var u := Unsigned(s);
    if |u| == 0 then 0
    else
      ScanDigitsMeaning([], u);
      assert [] + DigitRun(u) == DigitRun(u) && [] + u == u;
      assert AllDigits(u) ==> DigitRun(u) == u;
      match ScanDigits(u, 0)
      case SyntaxError => 0
      case RangeError => if IsNegative(s) then MinInt64 else MaxInt64
      case Value(n) => Saturate(IsNegative(s), n)
  }

  /** Appending a digit multiplies by ten and adds it. */
  lemma DigitsValueSnoc(p: string, c: char)
    requires AllDigits(p) && IsDigit(c)
    ensures AllDigits(p + [c])
    ensures DigitsValue(p + [c]) == DigitsValue(p) * 10 + (c as int - '0' as int)
  {
    assert (p + [c])[..|p|] == p;
  }

  /** Appending digits never lowers the value. */
  lemma {:induction false} DigitsValueGrows(p: string, q: string)
    requires AllDigits(p) && AllDigits(q)
    ensures AllDigits(p + q) && DigitsValue(p) <= DigitsValue(p + q)
    decreases |q|
  {
    if |q| > 0 {
      var q' := q[..|q| - 1];
      DigitsValueGrows(p, q');
      assert p + q == (p + q') + [q[|q| - 1]];
      DigitsValueSnoc(p + q', q[|q| - 1]);
    } else {
      assert p + q == p;
    }
  }

  /**
   * The scan, started after the digits p, ends with a range error exactly
   * when the digit run of p + s exceeds 2^64 - 1; otherwise with the value
   * of p + s if s is all digits, and with a syntax error if not.
   */
  lemma {:induction false} ScanDigitsMeaning(p: string, s: string)
    requires AllDigits(p) && DigitsValue(p) <= MaxUint64
    ensures AllDigits(p + DigitRun(s))
    ensures ScanDigits(s, DigitsValue(p)) ==
      if DigitsValue(p + DigitRun(s)) > MaxUint64 then RangeError
      else if AllDigits(s) then Value(DigitsValue(p + s))
      else SyntaxError
    decreases |s|
  {
    if |s| == 0 {
      assert p + DigitRun(s) == p && p + s == p;
    } else if !IsDigit(s[0]) {
      assert p + DigitRun(s) == p;
    } else {
      var p', t := p + [s[0]], s[1..];
      DigitStep(p, s);
      assert ScanDigits(s, DigitsValue(p)) ==
        if DigitsValue(p') > MaxUint64 then RangeError else ScanDigits(t, DigitsValue(p'));
      DigitsValueGrows(p', DigitRun(t));
      if DigitsValue(p') <= MaxUint64 {
        ScanDigitsMeaning(p', t);
      } else {
        assert DigitsValue(p + DigitRun(s)) > MaxUint64;
      }
    }
  }

  /** Moving the first digit of s to the end of p leaves every reading of p + s unchanged. */
  lemma DigitStep(p: string, s: string)
    requires AllDigits(p) && |s| >= 1 && IsDigit(s[0])
    ensures AllDigits(p + [s[0]])
    ensures DigitsValue(p + [s[0]]) == DigitsValue(p) * 10 + (s[0] as int - '0' as int)
    ensures p + DigitRun(s) == (p + [s[0]]) + DigitRun(s[1..])
    ensures p + s == (p + [s[0]]) + s[1..]
    ensures AllDigits(s) <==> AllDigits(s[1..])
  {
    DigitsValueSnoc(p, s[0]);
    var c, t := [s[0]], s[1..];
    assert DigitRun(s) == c + DigitRun(t);
    ConcatAssoc(p, c, DigitRun(t));
    assert s == c + t;
    ConcatAssoc(p, c, t);
    AllDigitsTail(s);
  }

  lemma ConcatAssoc(a: string, b: string, c: string)
    ensures a + (b + c) == (a + b) + c
  {
  }

  lemma AllDigitsTail(s: string)
    requires |s| >= 1 && IsDigit(s[0])
    ensures AllDigits(s) <==> AllDigits(s[1..])
  {
    if AllDigits(s[1..]) {
      forall k | 0 < k < |s|
        ensures IsDigit(s[k])
      {
        assert s[k] == s[1..][k - 1];
      }
    }
  }

  // ---- round trips ---------------------------------------------------------

  /** Reading back the digits of n gives n. */
  lemma {:induction false} DecimalValue(n: nat)
    ensures DigitsValue(Decimal(n)) == n
  {
    var s := Decimal(n);
    if n >= 10 {
      DecimalValue(n / 10);
      assert s[..|s| - 1] == Decimal(n / 10);
    }
  }

  /** Atoi reads back every int64 that `%d` writes. */
  lemma AtoiItoa(n: Int64)
    ensures ParsesAsInt(Itoa(n))
    ensures Atoi(Itoa(n)) == n
  {
    if n < 0 {
      AtoiItoaNegative(n);
    } else {
      DecimalValue(n);
      AtoiUnsigned(Decimal(n));
    }
  }

  lemma AtoiItoaNegative(n: int)
    requires MinInt64 <= n < 0
    ensures ParsesAsInt(Itoa(n))
    ensures Atoi(Itoa(n)) == n
  {
    var m: nat := -n;
    var d := Decimal(m);
    DecimalValue(m);
    AtoiNegative(d);
  }

  lemma AtoiUnsigned(d: string)
    requires |d| >= 1 && AllDigits(d)
    ensures ParsesAsInt(d)
    ensures Atoi(d) == if DigitsValue(d) > MaxInt64 then MaxInt64 else DigitsValue(d)
  {
    assert IsDigit(d[0]);
  }

  lemma AtoiNegative(d: string)
    requires |d| >= 1 && AllDigits(d)
    ensures ParsesAsInt("-" + d)
    ensures Atoi("-" + d) == if DigitsValue(d) > -MinInt64 then MinInt64 else 0 - DigitsValue(d)
  {
    assert ("-" + d)[1..] == d;
  }

  /** A number with k digits (10^(k-1) <= n < 10^k) is written with k characters. */
  lemma {:induction false} DecimalLength(n: nat, k: nat)
    requires 1 <= k && (k == 1 || Pow10(k - 1) <= n) && n < Pow10(k)
    ensures |Decimal(n)| == k
    decreases k
  {
    if k > 1 {
      assert n >= 10 by {
        Pow10AtLeast(k - 1);
      }
      var q := n / 10;
      assert 10 * q <= n < 10 * q + 10;
      assert q < Pow10(k - 1);
      if k > 2 {
        assert Pow10(k - 1) == 10 * Pow10(k - 2);
        assert Pow10(k - 2) <= q;
      }
      DecimalLength(q, k - 1);
    }
  }

  lemma {:induction false} Pow10AtLeast(k: nat)
    requires k >= 1
    ensures Pow10(k) >= 10
  {
    if k > 1 {
      Pow10AtLeast(k - 1);
    }
  }

  /** A two-character digit string is read as tens and units. */
  lemma TwoDigits(s: string)
    requires |s| == 2 && AllDigits(s)
    ensures DigitsValue(s) == 10 * (s[0] as int - '0' as int) + (s[1] as int - '0' as int)
  {
    assert s[..1][..0] == [];
  }

  /** The digit run of digits followed by a non-digit is those digits. */
  lemma {:induction false} DigitRunStops(d: string, rest: string)
    requires AllDigits(d) && |rest| >= 1 && !IsDigit(rest[0])
    ensures DigitRun(d + rest) == d
    decreases |d|
  {
    if |d| == 0 {
      assert d + rest == rest;
    } else {
      assert (d + rest)[1..] == d[1..] + rest;
      DigitRunStops(d[1..], rest);
      assert d == [d[0]] + d[1..];
    }
  }

  /** Text whose unsigned part is such digits and a bad byte overflows and does not parse. */
  lemma OverflowingText(t: string, d: string, rest: string)
    requires |d| >= 1 && AllDigits(d) && DigitsValue(d) > MaxUint64
    requires |rest| >= 1 && !IsDigit(rest[0])
    requires Unsigned(t) == d + rest
    ensures !ParsesAsInt(t) && RunOverflows(t)
  {
    DigitRunStops(d, rest);
    assert !IsDigit((d + rest)[|d|]);
  }

  /**
   * Digits whose value passes 2^64 - 1, followed by a bad byte, read as the
   * saturated bound for their sign rather than as 0: the range error comes
   * first.
   */
  lemma OverflowingRunSaturates(d: string, rest: string)
    requires |d| >= 1 && AllDigits(d) && DigitsValue(d) > MaxUint64
    requires |rest| >= 1 && !IsDigit(rest[0])
    ensures Atoi(d + rest) == MaxInt64
    ensures Atoi("+" + d + rest) == MaxInt64
    ensures Atoi("-" + d + rest) == MinInt64
  {
    var u := d + rest;
    assert IsDigit(u[0]);
    OverflowingText(u, d, rest);
    SignStripped('+', u);
    OverflowingText("+" + u, d, rest);
    SignStripped('-', u);
    OverflowingText("-" + u, d, rest);
    assert "+" + d + rest == "+" + u && "-" + d + rest == "-" + u;
  }

  lemma SignStripped(c: char, u: string)
    requires c == '+' || c == '-'
    ensures Unsigned([c] + u) == u
  {
    assert ([c] + u)[1..] == u;
  }

  /** A leading digit k makes a run of n digits worth at least k * 10^(n-1). */
  lemma {:induction false} LeadingDigitBound(p: string)
    requires |p| >= 1 && AllDigits(p)
    ensures DigitsValue(p) >= (p[0] as int - '0' as int) * Pow10(|p| - 1)
    decreases |p|
  {
    if |p| > 1 {
      var q := p[..|p| - 1];
      LeadingDigitBound(q);
      assert q[0] == p[0];
      var k, a, e := p[0] as int - '0' as int, DigitsValue(q), Pow10(|q| - 1);
      assert DigitsValue(p) >= a * 10;
      assert Pow10(|p| - 1) == 10 * e;
      ScaleByTen(a, k, e);
    }
  }

  lemma ScaleByTen(a: int, k: int, e: int)
    requires a >= k * e
    ensures a * 10 >= k * (10 * e)
  {
    assert k * (10 * e) == 10 * (k * e);
  }

  const TwentyNines: string := "99999999999999999999"

  lemma TwentyNinesOverflow()
    ensures |TwentyNines| >= 1 && AllDigits(TwentyNines)
    ensures DigitsValue(TwentyNines) > MaxUint64
  {
    LeadingDigitBound(TwentyNines);
    assert Pow10(5) == 100000;
    assert Pow10(10) == 10000000000;
    assert Pow10(15) == 1000000000000000;
    assert Pow10(19) == 10000000000000000000;
  }

  /** Twenty nines and a stray letter read as the largest int64, not as 0. */
  lemma AtoiOverflowExample()
    ensures Atoi("99999999999999999999x") == MaxInt64
  {
    TwentyNinesOverflow();
    OverflowingRunSaturates(TwentyNines, "x");
    assert TwentyNines + "x" == "99999999999999999999x";
  }

  /** With a minus sign the same text reads as the smallest int64. */
  lemma AtoiNegativeOverflowExample()
    ensures Atoi("-" + TwentyNines + "x") == MinInt64
  {
    TwentyNinesOverflow();
    OverflowingRunSaturates(TwentyNines, "x");
  }

  /** Malformed text, such as "", "-" or "1x", reads as 0. */
  lemma AtoiMalformedExamples()
    ensures Atoi("") == 0 && Atoi("-") == 0 && Atoi("1x") == 0 && Atoi("abc") == 0
  {
    assert !IsDigit("1x"[1]) && !IsDigit("abc"[0]);
  }
}
