/**
 * Calendar dates and the `datetime.strptime(text, '%Y-%m-%d')` call that
 * get_albums makes on every album's `release_date`.
 *
 * CPython's strptime turns the format into the regular expression
 *   (\d\d\d\d)-(1[0-2]|0[1-9]|[1-9])-(3[01]|[12]\d|0[1-9]|[1-9]| [1-9])
 * and demands that it consume the whole string; the fields must then form
 * a real date (year 1 to 9999, day within the month). Any failure is a
 * ValueError.
 */
module Dates {
  import opened Wrappers

  datatype Date = Date(year: int, month: int, day: int)

  /** The proleptic Gregorian leap-year rule used by Python's datetime. */
  predicate IsLeapYear(year: int)
  {
    year % 4 == 0 && (year % 100 != 0 || year % 400 == 0)
  }

  function DaysInMonth(year: int, month: int): (n: int)
    requires 1 <= month <= 12
    ensures 28 <= n <= 31
  {
    if month == 2 then (if IsLeapYear(year) then 29 else 28)
    else if month == 4 || month == 6 || month == 9 || month == 11 then 30
    else 31
  }

  /** A date that `datetime.date(year, month, day)` accepts. */
  predicate ValidDate(d: Date)
  {
    1 <= d.year <= 9999 && 1 <= d.month <= 12 && 1 <= d.day <= DaysInMonth(d.year, d.month)
  }

  /** `d > cutoff` on Python dates: chronological, strictly later. */
  predicate After(d: Date, cutoff: Date)
  {
    d.year > cutoff.year
    || (d.year == cutoff.year && d.month > cutoff.month)
    || (d.year == cutoff.year && d.month == cutoff.month && d.day > cutoff.day)
  }

  predicate IsDigit(c: char)
  {
    '0' <= c <= '9'
  }

  function DigitValue(c: char): (v: nat)
    requires IsDigit(c)
    ensures v <= 9
  {
    c as int - '0' as int
  }

  function Digit(v: nat): (c: char)
    requires v <= 9
    ensures IsDigit(c) && DigitValue(c) == v
  {
    ('0' as int + v) as char
  }

  /** `%Y`: exactly four decimal digits. */
  function YearToken(t: string): Option<int>
  {
    if |t| == 4 && IsDigit(t[0]) && IsDigit(t[1]) && IsDigit(t[2]) && IsDigit(t[3]) then
      Some(100 * TwoDigits(t[0], t[1]) + TwoDigits(t[2], t[3]))
    else
      None
  }

  /** The value of two decimal digits written in a row. */
  function TwoDigits(hi: char, lo: char): (v: nat)
    requires IsDigit(hi) && IsDigit(lo)
    ensures v <= 99
  {
    10 * DigitValue(hi) + DigitValue(lo)
  }

  /** `%m`: one of `1[0-2]`, `0[1-9]`, `[1-9]`. */
  function MonthToken(t: string): Option<int>
  {
    if |t| == 1 && '1' <= t[0] <= '9' then Some(DigitValue(t[0]))
    else if |t| == 2 && t[0] == '0' && '1' <= t[1] <= '9' then Some(DigitValue(t[1]))
    else if |t| == 2 && t[0] == '1' && '0' <= t[1] <= '2' then Some(10 + DigitValue(t[1]))
    else None
  }

  /**
   * `%d` as the last field: the rest of the input must be one of `3[01]`,
   * `[12]\d`, `0[1-9]`, `[1-9]` or a space followed by `[1-9]`.
   */
  function DayToken(t: string): Option<int>
  {
    if |t| == 1 && '1' <= t[0] <= '9' then Some(DigitValue(t[0]))
    else if |t| == 2 && (t[0] == '0' || t[0] == ' ') && '1' <= t[1] <= '9' then Some(DigitValue(t[1]))
    else if |t| == 2 && (t[0] == '1' || t[0] == '2') && IsDigit(t[1]) then Some(10 * DigitValue(t[0]) + DigitValue(t[1]))
    else if |t| == 2 && t[0] == '3' && (t[1] == '0' || t[1] == '1') then Some(30 + DigitValue(t[1]))
    else None
  }

  /** The position of the first `c` in `t`, if any. */
  function IndexOf(t: string, c: char): (r: Option<nat>)
    ensures r.None? ==> c !in t
    ensures r.Some? ==> r.value < |t| && t[r.value] == c && c !in t[..r.value]
  {
    if |t| == 0 then None
    else if t[0] == c then Some(0)
    else match IndexOf(t[1..], c)
      case None => None
      case Some(j) =>
        assert t[..j + 1] == [t[0]] + t[1..][..j];
        Some(j + 1)
  }

  /**
   * `datetime.strptime(s, '%Y-%m-%d').date()`, with `None` for the
   * ValueError. The month field ends at the first `-` after the year,
   * since no month spelling contains one.
   */
  function ParseDate(s: string): (r: Option<Date>)
    ensures r.Some? ==> ValidDate(r.value)
  {
    if |s| < 5 || s[4] != '-' then None
    else
      var rest := s[5..];
      match (YearToken(s[..4]), IndexOf(rest, '-'))
      case (Some(year), Some(j)) =>
        (match (MonthToken(rest[..j]), DayToken(rest[j + 1..]))
         case (Some(month), Some(day)) =>
           var d := Date(year, month, day);
           if ValidDate(d) then Some(d) else None
         case _ => None)
      case _ => None
  }

  function Pad2(v: nat): string
    requires v <= 99
  {
    [Digit(v / 10), Digit(v % 10)]
  }

  function Pad4(v: nat): string
    requires v <= 9999
  {
    Pad2(v / 100) + Pad2(v % 100)
  }

  /** The `YYYY-MM-DD` form in which the catalog reports a day-precision release date. */
  function Format(d: Date): string
    requires ValidDate(d)
  {
    Pad4(d.year) + "-" + Pad2(d.month) + "-" + Pad2(d.day)
  }

  /** Every way `%m` can spell month `m`. */
  function MonthSpellings(m: nat): set<string>
    requires 1 <= m <= 12
  {
    if m < 10 then {[Digit(m)], Pad2(m)} else {Pad2(m)}
  }

  /** Every way `%d` can spell day `d`. */
  function DaySpellings(d: nat): set<string>
    requires 1 <= d <= 31
  {
    if d < 10 then {[Digit(d)], Pad2(d), [' ', Digit(d)]} else {Pad2(d)}
  }

  /** Every string that `%Y-%m-%d` reads as the date `d`. */
  ghost function Spellings(d: Date): set<string>
    requires ValidDate(d)
  {
    set mt, dt | mt in MonthSpellings(d.month) && dt in DaySpellings(d.day) :: Pad4(d.year) + "-" + mt + "-" + dt
  }

  lemma Pad2OfTwoDigits(hi: char, lo: char)
    requires IsDigit(hi) && IsDigit(lo)
    ensures Pad2(TwoDigits(hi, lo)) == [hi, lo]
  {
    var v := TwoDigits(hi, lo);
    assert v / 10 == DigitValue(hi) && v % 10 == DigitValue(lo);
  }

  lemma TwoDigitsOfPad2(v: nat)
    requires v <= 99
    ensures TwoDigits(Pad2(v)[0], Pad2(v)[1]) == v
  {
  }

  lemma YearTokenSpelling(t: string)
    requires YearToken(t).Some?
    ensures 0 <= YearToken(t).value <= 9999 && t == Pad4(YearToken(t).value)
  {
    var y := YearToken(t).value;
    var hi, lo := TwoDigits(t[0], t[1]), TwoDigits(t[2], t[3]);
    assert y / 100 == hi && y % 100 == lo;
    Pad2OfTwoDigits(t[0], t[1]);
    Pad2OfTwoDigits(t[2], t[3]);
    assert t == [t[0], t[1]] + [t[2], t[3]];
  }

  lemma YearTokenOfPad4(y: nat)
    requires y <= 9999
    ensures YearToken(Pad4(y)) == Some(y)
  {
    TwoDigitsOfPad2(y / 100);
    TwoDigitsOfPad2(y % 100);
  }

  lemma MonthTokenSpelling(t: string)
    requires MonthToken(t).Some?
    ensures 1 <= MonthToken(t).value <= 12 && t in MonthSpellings(MonthToken(t).value)
  {
    var m := MonthToken(t).value;
    if |t| == 1 {
      assert t == [Digit(m)];
    } else {
      assert t == Pad2(m);
    }
  }

  lemma MonthTokenOfSpelling(m: nat, t: string)
    requires 1 <= m <= 12 && t in MonthSpellings(m)
    ensures MonthToken(t) == Some(m)
  {
  }

  lemma DayTokenSpelling(t: string)
    requires DayToken(t).Some?
    ensures 1 <= DayToken(t).value <= 31 && t in DaySpellings(DayToken(t).value)
  {
    var d := DayToken(t).value;
    if |t| == 1 {
      assert t == [Digit(d)];
    } else if t[0] == ' ' {
      assert t == [' ', Digit(d)];
    } else {
      assert t == Pad2(d);
    }
  }

  lemma DayTokenOfSpelling(d: nat, t: string)
    requires 1 <= d <= 31 && t in DaySpellings(d)
    ensures DayToken(t) == Some(d)
  {
  }

  /** Whatever strptime accepts is a spelling of the date it returns. */
  lemma ParsedIsSpelling(s: string)
    requires ParseDate(s).Some?
    ensures s in Spellings(ParseDate(s).value)
  {
    var d := ParseDate(s).value;
    var rest := s[5..];
    var j := IndexOf(rest, '-').value;
    var mt, dt := rest[..j], rest[j + 1..];
    YearTokenSpelling(s[..4]);
    MonthTokenSpelling(mt);
    DayTokenSpelling(dt);
    assert s == s[..4] + "-" + mt + "-" + dt;
    assert s == Pad4(d.year) + "-" + mt + "-" + dt;
  }

  /** Every spelling of a valid date parses to that date. */
  lemma SpellingIsParsed(s: string, d: Date)
    requires ValidDate(d) && s in Spellings(d)
    ensures ParseDate(s) == Some(d)
  {
    var mt, dt :| mt in MonthSpellings(d.month) && dt in DaySpellings(d.day)
      && s == Pad4(d.year) + "-" + mt + "-" + dt;
    var rest := mt + "-" + dt;
    assert s[..4] == Pad4(d.year) && s[4] == '-' && s[5..] == rest;
    YearTokenOfPad4(d.year);
    assert '-' !in mt;
    var j := IndexOf(rest, '-').value;
    assert j == |mt|;
    assert rest[..j] == mt && rest[j + 1..] == dt;
    MonthTokenOfSpelling(d.month, mt);
    DayTokenOfSpelling(d.day, dt);
  }

  /**
   * strptime accepts exactly the spellings of valid dates: a string parses
   * to `d` if and only if `d` is a real date and the string is one of its
   * spellings (four-digit year, month with or without a leading zero, day
   * with a leading zero, a leading space or neither).
   */
  lemma ParseDateSpellings(s: string, d: Date)
    ensures ParseDate(s) == Some(d) <==> ValidDate(d) && s in Spellings(d)
  {
    if ParseDate(s) == Some(d) {
      ParsedIsSpelling(s);
    }
    if ValidDate(d) && s in Spellings(d) {
      SpellingIsParsed(s, d);
    }
  }

  /** The catalog's own rendering of a valid date always parses back to it. */
  lemma ParseFormat(d: Date)
    requires ValidDate(d)
    ensures ParseDate(Format(d)) == Some(d)
  {
    assert Pad2(d.month) in MonthSpellings(d.month);
    assert Pad2(d.day) in DaySpellings(d.day);
    assert Format(d) in Spellings(d);
    ParseDateSpellings(Format(d), d);
  }

  /** A month and day outside the calendar raise ValueError. */
  lemma MalformedExample()
    ensures ParseDate("2024-13-40") == None
  {
  }

  /** Release dates of month or year precision raise ValueError. */
  lemma CoarsePrecisionExamples()
    ensures ParseDate("2024-05") == None
    ensures ParseDate("2024") == None
  {
  }

  /** 29 February of a common year raises ValueError. */
  lemma CommonYearLeapDayExample()
    ensures ParseDate("2023-02-29") == None
  {
    assert !IsLeapYear(2023);
  }

  /** 31 April raises ValueError. */
  lemma ThirtyFirstOfAprilExample()
    ensures ParseDate("2024-04-31") == None
  {
    assert DaysInMonth(2024, 4) == 30;
  }

  /** Spellings strptime accepts besides the zero-padded one. */
  lemma WellFormedExamples()
    ensures ParseDate("2024-02-29") == Some(Date(2024, 2, 29))
    ensures ParseDate("2024-5- 7") == Some(Date(2024, 5, 7))
  {
  }
}
