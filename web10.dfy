/**
 * The `FormatAsDate` template helper of demos/web/web10/web10.go: the
 * calendar fields of a time, written as "%d-%02d-%02d". The calendar
 * computation of `time.Time.Date` is not modelled; the helper receives the
 * year, month and day it returns.
 */
module Web10 {
  import opened GoInt
  import opened GoStrconv

  datatype Option<T> = None | Some(value: T)

  /** The fields `t.Date()` returns. */
  datatype Date = Date(year: Int64, month: int, day: int)

  /** `%02d`: at least two characters, padded on the left with zeros. */
  function Pad2(n: int): (s: string)
    ensures 0 <= n < 100 ==> |s| == 2 && AllDigits(s) && DigitsValue(s) == n
    ensures 0 <= n < 10 ==> s[0] == '0'
    ensures n >= 10 || n < 0 ==> s == Itoa(n)
  {
    if 0 <= n < 10 then
      var s := "0" + Itoa(n);
      assert s == ['0', DigitChar(n)];
      TwoDigits(s);
      s
    else
      if 10 <= n < 100 then
        assert 1 <= n / 10 < 10;
        assert Decimal(n / 10) == [DigitChar(n / 10)];
        assert Itoa(n) == [DigitChar(n / 10), DigitChar(n % 10)];
        TwoDigits(Itoa(n));
        Itoa(n)
      else Itoa(n)
  }

  /**
   * `FormatAsDate`: the year as written by `%d`, then the month and the day
   * as two digits each (for values up to 99), separated by '-'.
   */
  function FormatAsDate(t: Date): (s: string)
    ensures 0 <= t.month < 100 && 0 <= t.day < 100 ==>
      && |s| == |Itoa(t.year)| + 6
      && s[..|s| - 6] == Itoa(t.year)
      && s[|s| - 6] == '-' && s[|s| - 3] == '-'
      && AllDigits(s[|s| - 5..|s| - 3]) && DigitsValue(s[|s| - 5..|s| - 3]) == t.month
      && AllDigits(s[|s| - 2..]) && DigitsValue(s[|s| - 2..]) == t.day
  {
    var y, m, d := Itoa(t.year), Pad2(t.month), Pad2(t.day);
    var s := y + "-" + m + "-" + d;
    assert |m| == 2 && |d| == 2 ==>
      s[..|s| - 6] == y && s[|s| - 5..|s| - 3] == m && s[|s| - 2..] == d;
    s
  }

  /**
   * The inverse reading of "Y-MM-DD": a year Atoi accepts, then two
   * two-digit fields.
   */
  function ParseDate(s: string): (r: Option<Date>)
    ensures r.Some? ==> |s| >= 7 && s[|s| - 6] == '-' && s[|s| - 3] == '-'
    ensures r.Some? ==> 0 <= r.value.month < 100 && 0 <= r.value.day < 100
  {
    if |s| < 7 || s[|s| - 6] != '-' || s[|s| - 3] != '-' then None
    else
      var y, m, d := s[..|s| - 6], s[|s| - 5..|s| - 3], s[|s| - 2..];
      if !ParsesAsInt(y) || !AllDigits(m) || !AllDigits(d) then None
      else Some(Date(Atoi(y), DigitsValue(m), DigitsValue(d)))
  }

  /** Every date with two-digit month and day is read back from its text. */
  lemma ParseFormatAsDate(t: Date)
    requires 0 <= t.month < 100 && 0 <= t.day < 100
    ensures ParseDate(FormatAsDate(t)) == Some(t)
  {
    AtoiItoa(t.year);
  }

  /** Different dates (with two-digit month and day) are written differently. */
  lemma FormatAsDateInjective(t1: Date, t2: Date)
    requires 0 <= t1.month < 100 && 0 <= t1.day < 100
    requires 0 <= t2.month < 100 && 0 <= t2.day < 100
    requires FormatAsDate(t1) == FormatAsDate(t2)
    ensures t1 == t2
  {
    ParseFormatAsDate(t1);
    ParseFormatAsDate(t2);
  }

  /** A four-digit year and a real month and day give the ten characters YYYY-MM-DD. */
  lemma FormatAsDateLength(t: Date)
    requires 1000 <= t.year <= 9999 && 1 <= t.month <= 12 && 1 <= t.day <= 31
    ensures |FormatAsDate(t)| == 10
    ensures FormatAsDate(t)[4] == '-' && FormatAsDate(t)[7] == '-'
    ensures AllDigits(FormatAsDate(t)[..4])
  {
    assert Pow10(3) == 1000 && Pow10(4) == 10000;
    DecimalLength(t.year as int, 4);
  }

  /** The date the demo page shows: 17 August 2019. */
  lemma FormatAsDateExample()
    ensures FormatAsDate(Date(2019, 8, 17)) == "2019-08-17"
  {
    YearText();
    MonthDayText();
  }

  lemma YearText()
    ensures Itoa(2019) == "2019"
  {
    assert Decimal(20) == "20";
    assert Decimal(201) == "201";
  }

  lemma MonthDayText()
    ensures Pad2(8) == "08" && Pad2(17) == "17"
  {
  }

  /** The year is not padded: year 5 is written "5". */
  lemma FormatAsDateShortYear()
    ensures FormatAsDate(Date(5, 1, 2)) == "5-01-02"
  {
    assert Pad2(1) == "01" && Pad2(2) == "02";
  }
}
