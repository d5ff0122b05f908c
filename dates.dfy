// Calendar dates as the app writes and reads them with SimpleDateFormat:
// "yyyy-MM-dd" for stored records and "dd/MM/yyyy" for report filters.
// A date is a proleptic Gregorian (year, month, day); comparisons go through
// its day number, the count of days since 0001-01-01.
module Dates {
  import opened Wrappers
  import opened Text

  datatype CivilDate = CivilDate(year: int, month: int, day: int)

  predicate IsLeapYear(y: int)
  {
    y % 4 == 0 && (y % 100 != 0 || y % 400 == 0)
  }

  function DaysInMonth(y: int, m: int): int
    requires 1 <= m <= 12
  {
    if m == 2 then (if IsLeapYear(y) then 29 else 28)
    else if m == 4 || m == 6 || m == 9 || m == 11 then 30
    else 31
  }

  predicate ValidDate(d: CivilDate)
  {
    1 <= d.year && 1 <= d.month <= 12 && 1 <= d.day <= DaysInMonth(d.year, d.month)
  }

  /** Days in the months of year y before month m. */
  function DaysBeforeMonth(y: int, m: int): nat
    requires 1 <= m <= 13
  {
    if m == 1 then 0 else DaysBeforeMonth(y, m - 1) + DaysInMonth(y, m - 1)
  }

  /** Days in the years before year y. */
  function DaysBeforeYear(y: int): int
    requires y >= 1
  {
    365 * (y - 1) + (y - 1) / 4 - (y - 1) / 100 + (y - 1) / 400
  }

  /** Days since 0001-01-01: the instant order of java.util.Date at midnight. */
  function DayNumber(d: CivilDate): int
    requires ValidDate(d)
  {
    DaysBeforeYear(d.year) + DaysBeforeMonth(d.year, d.month) + d.day - 1
  }

  /** Calendar.add(DAY_OF_MONTH, 1). */
  function NextDay(d: CivilDate): (n: CivilDate)
    requires ValidDate(d)
    ensures ValidDate(n)
  {
    if d.day < DaysInMonth(d.year, d.month) then d.(day := d.day + 1)
    else if d.month < 12 then CivilDate(d.year, d.month + 1, 1)
    else CivilDate(d.year + 1, 1, 1)
  }

  lemma YearLength(y: int)
    ensures DaysBeforeMonth(y, 13) == if IsLeapYear(y) then 366 else 365
  {
    assert DaysBeforeMonth(y, 2) == 31;
    assert DaysBeforeMonth(y, 3) == 31 + DaysInMonth(y, 2);
    assert DaysBeforeMonth(y, 4) == 62 + DaysInMonth(y, 2);
    assert DaysBeforeMonth(y, 5) == 92 + DaysInMonth(y, 2);
    assert DaysBeforeMonth(y, 6) == 123 + DaysInMonth(y, 2);
    assert DaysBeforeMonth(y, 7) == 153 + DaysInMonth(y, 2);
    assert DaysBeforeMonth(y, 8) == 184 + DaysInMonth(y, 2);
    assert DaysBeforeMonth(y, 9) == 215 + DaysInMonth(y, 2);
    assert DaysBeforeMonth(y, 10) == 245 + DaysInMonth(y, 2);
    assert DaysBeforeMonth(y, 11) == 276 + DaysInMonth(y, 2);
    assert DaysBeforeMonth(y, 12) == 306 + DaysInMonth(y, 2);
  }

  /** The days before year y + 1 are those before y plus the length of y. */
  lemma NextYear(y: int)
    requires y >= 1
    ensures DaysBeforeYear(y + 1) == DaysBeforeYear(y) + DaysBeforeMonth(y, 13)
  {
    YearLength(y);
    assert y / 4 - (y - 1) / 4 == if y % 4 == 0 then 1 else 0;
    assert y / 100 - (y - 1) / 100 == if y % 100 == 0 then 1 else 0;
    assert y / 400 - (y - 1) / 400 == if y % 400 == 0 then 1 else 0;
  }

  /** NextDay is the following day: its day number is one more. */
  lemma NextDayNumber(d: CivilDate)
    requires ValidDate(d)
    ensures DayNumber(NextDay(d)) == DayNumber(d) + 1
  {
    if d.day == DaysInMonth(d.year, d.month) && d.month == 12 {
      NextYear(d.year);
    }
  }

  lemma {:induction false} DaysBeforeMonthGrows(y: int, m1: int, m2: int)
    requires 1 <= m1 <= m2 <= 13
    ensures m1 < m2 ==> DaysBeforeMonth(y, m1) + DaysInMonth(y, m1) <= DaysBeforeMonth(y, m2)
    ensures DaysBeforeMonth(y, m1) <= DaysBeforeMonth(y, m2)
    decreases m2 - m1
  {
    if m1 < m2 {
      DaysBeforeMonthGrows(y, m1 + 1, m2);
    }
  }

  lemma {:induction false} DaysBeforeYearGrows(y1: int, y2: int)
    requires 1 <= y1 < y2
    ensures DaysBeforeYear(y1) + DaysBeforeMonth(y1, 13) <= DaysBeforeYear(y2)
    decreases y2 - y1
  {
    NextYear(y1);
    if y1 + 1 < y2 {
      DaysBeforeYearGrows(y1 + 1, y2);
    }
  }

  /** Calendar order: by year, then month, then day. */
  predicate DateBefore(a: CivilDate, b: CivilDate)
  {
    a.year < b.year || (a.year == b.year && (a.month < b.month || (a.month == b.month && a.day < b.day)))
  }

  lemma DayNumberMonotone(a: CivilDate, b: CivilDate)
    requires ValidDate(a) && ValidDate(b) && DateBefore(a, b)
    ensures DayNumber(a) < DayNumber(b)
  {
    if a.year < b.year {
      DaysBeforeMonthGrows(a.year, a.month, 13);
      DaysBeforeYearGrows(a.year, b.year);
    } else if a.month < b.month {
      DaysBeforeMonthGrows(a.year, a.month, b.month);
    }
  }

  /** Day numbers order valid dates exactly as the calendar does, and tell different dates apart. */
  lemma DayNumberOrder(a: CivilDate, b: CivilDate)
    requires ValidDate(a) && ValidDate(b)
    ensures DateBefore(a, b) <==> DayNumber(a) < DayNumber(b)
    ensures a == b <==> DayNumber(a) == DayNumber(b)
  {
    if DateBefore(a, b) {
      DayNumberMonotone(a, b);
    } else if DateBefore(b, a) {
      DayNumberMonotone(b, a);
    }
  }

  // ---- Patterns ----

  /** The two SimpleDateFormat patterns the app uses. */
  datatype Pattern = YearMonthDay /* "yyyy-MM-dd" */ | DayMonthYear /* "dd/MM/yyyy" */

  function Separator(p: Pattern): char
  {
    if p == YearMonthDay then '-' else '/'
  }

  /** A number in decimal, left-padded with zeros to at least `width` digits. */
  function PadDigits(n: nat, width: nat): (r: string)
    ensures AllDigits(r) && DigitsValue(r) == n
    ensures |NatToString(n)| <= width ==> |r| == width
  {
    var digits := NatToString(n);
    var zeros := Zeros(if width > |digits| then width - |digits| else 0);
    ZerosPrefix(zeros, digits);
    zeros + digits
  }

  function Zeros(k: nat): (z: string)
    ensures |z| == k && forall i :: 0 <= i < k ==> z[i] == '0'
  {
    if k == 0 then [] else ['0'] + Zeros(k - 1)
  }

  /** Leading zeros do not change the value of a digit string. */
  lemma {:induction false} ZerosPrefix(z: string, s: string)
    requires forall i :: 0 <= i < |z| ==> z[i] == '0'
    requires AllDigits(s)
    ensures AllDigits(z + s) && DigitsValue(z + s) == DigitsValue(s)
    decreases |s|
  {
    if s == [] {
      assert z + s == z;
      AllZeros(z);
    } else {
      assert (z + s)[..|z + s| - 1] == z + s[..|s| - 1];
      ZerosPrefix(z, s[..|s| - 1]);
    }
  }

  lemma {:induction false} AllZeros(z: string)
    requires forall i :: 0 <= i < |z| ==> z[i] == '0'
    ensures AllDigits(z) && DigitsValue(z) == 0
    decreases |z|
  {
    if z != [] {
      AllZeros(z[..|z| - 1]);
    }
  }

  /** SimpleDateFormat(pattern).format(date). */
  function FormatDate(d: CivilDate, p: Pattern): string
    requires ValidDate(d)
  {
    var sep := Separator(p);
    if p == YearMonthDay then PadDigits(d.year, 4) + [sep] + PadDigits(d.month, 2) + [sep] + PadDigits(d.day, 2)
    else PadDigits(d.day, 2) + [sep] + PadDigits(d.month, 2) + [sep] + PadDigits(d.year, 4)
  }

  /** The pieces of s between occurrences of sep. */
  function Split(s: string, sep: char): (r: seq<string>)
    ensures |r| >= 1
    ensures sep !in s ==> r == [s]
    decreases |s|
  {
    match IndexOf(s, sep)
    case None => [s]
    case Some(i) => [s[..i]] + Split(s[i + 1..], sep)
  }

  lemma SplitFirst(a: string, sep: char, rest: string)
    requires sep !in a
    ensures Split(a + [sep] + rest, sep) == [a] + Split(rest, sep)
  {
    var s := a + [sep] + rest;
    assert s[..|a|] == a && s[|a| + 1..] == rest;
    assert sep !in s[..|a|];
  }

  predicate IsNumberField(f: string)
  {
    f != [] && AllDigits(f)
  }

  /**
   * SimpleDateFormat(pattern).parse(text): three digit fields separated by
   * the pattern's separator, forming a valid date. None where Java throws
   * ParseException.
   */
  function ParseDate(s: string, p: Pattern): (r: Option<CivilDate>)
    ensures r.Some? ==> ValidDate(r.value)
  {
    var fields := Split(s, Separator(p));
    if |fields| != 3 || !IsNumberField(fields[0]) || !IsNumberField(fields[1]) || !IsNumberField(fields[2]) then None
    else
      var first, month, last := DigitsValue(fields[0]), DigitsValue(fields[1]), DigitsValue(fields[2]);
      var d := if p == YearMonthDay then CivilDate(first, month, last) else CivilDate(last, month, first);
      if ValidDate(d) then Some(d) else None
  }

  lemma PadDigitsNoSeparator(n: nat, width: nat, sep: char)
    requires !IsDigit(sep)
    ensures sep !in PadDigits(n, width) && PadDigits(n, width) != []
  {
    var r := PadDigits(n, width);
    assert DigitsValue(r) == n;
  }

  lemma SplitThree(a: string, b: string, c: string, sep: char)
    requires sep !in a && sep !in b && sep !in c
    ensures Split(a + [sep] + b + [sep] + c, sep) == [a, b, c]
  {
    assert a + [sep] + b + [sep] + c == a + [sep] + (b + [sep] + c);
    SplitFirst(a, sep, b + [sep] + c);
    SplitFirst(b, sep, c);
  }

  /** Parsing what the same pattern formatted gives the date back. */
  lemma ParseFormat(d: CivilDate, p: Pattern)
    requires ValidDate(d)
    ensures ParseDate(FormatDate(d, p), p) == Some(d)
  {
    var sep := Separator(p);
    PadDigitsNoSeparator(d.year, 4, sep);
    PadDigitsNoSeparator(d.month, 2, sep);
    PadDigitsNoSeparator(d.day, 2, sep);
    if p == YearMonthDay {
      SplitThree(PadDigits(d.year, 4), PadDigits(d.month, 2), PadDigits(d.day, 2), sep);
    } else {
      SplitThree(PadDigits(d.day, 2), PadDigits(d.month, 2), PadDigits(d.year, 4), sep);
    }
  }

  /** Formatting is one-to-one on valid dates. */
  lemma FormatInjective(a: CivilDate, b: CivilDate, p: Pattern)
    requires ValidDate(a) && ValidDate(b) && FormatDate(a, p) == FormatDate(b, p)
    ensures a == b
  {
    ParseFormat(a, p);
    ParseFormat(b, p);
  }

  /** A stored yyyy-MM-dd date is never accepted by the dd/MM/yyyy parser. */
  lemma DayMonthYearRejectsStored(d: CivilDate)
    requires ValidDate(d)
    ensures ParseDate(FormatDate(d, YearMonthDay), DayMonthYear) == None
  {
    var s := FormatDate(d, YearMonthDay);
    PadDigitsNoSeparator(d.year, 4, '/');
    PadDigitsNoSeparator(d.month, 2, '/');
    PadDigitsNoSeparator(d.day, 2, '/');
    assert '/' !in s;
  }

  // ---- Text order of stored dates ----

  /** Years the four-digit yyyy field writes without widening. */
  predicate FourDigitYear(d: CivilDate)
  {
    1 <= d.year <= 9999
  }

  lemma PadWidth(n: nat, width: nat)
    requires 1 <= width && n < Pow10(width)
    ensures |PadDigits(n, width)| == width
  {
    var digits := NatToString(n);
    if |digits| > width {
      assert n >= 10;
      DigitsFloor(digits);
      Pow10Grows(width, |digits| - 1);
    }
  }

  /** A digit string without a leading zero is at least 10^(length - 1). */
  lemma DigitsFloor(s: string)
    requires AllDigits(s) && |s| >= 1 && s[0] != '0'
    ensures DigitsValue(s) >= Pow10(|s| - 1)
  {
    DigitsValueFront(s);
    MulLeq(1, DigitValue(s[0]), Pow10(|s| - 1));
  }

  lemma {:induction false} Pow10Grows(a: nat, b: nat)
    requires a <= b
    ensures Pow10(a) <= Pow10(b)
    decreases b - a
  {
    if a < b {
      Pow10Grows(a + 1, b);
    }
  }

  /** Three fields joined by a separator compare field by field when the first two have fixed widths. */
  lemma FieldsOrder(ya: string, ma: string, da: string, yb: string, mb: string, db: string, sep: char)
    requires |ya| == |yb| && |ma| == |mb|
    ensures StrLt(ya + [sep] + ma + [sep] + da, yb + [sep] + mb + [sep] + db)
      <==> StrLt(ya, yb) || (ya == yb && (StrLt(ma, mb) || (ma == mb && StrLt(da, db))))
  {
    assert ya + [sep] + ma + [sep] + da == ya + ([sep] + ma + [sep] + da);
    assert yb + [sep] + mb + [sep] + db == yb + ([sep] + mb + [sep] + db);
    StrLtConcat(ya, [sep] + ma + [sep] + da, yb, [sep] + mb + [sep] + db);
    assert [sep] + ma + [sep] + da == [sep] + (ma + ([sep] + da));
    assert [sep] + mb + [sep] + db == [sep] + (mb + ([sep] + db));
    StrLtConcat([sep], ma + ([sep] + da), [sep], mb + ([sep] + db));
    StrLtIrreflexive([sep]);
    StrLtConcat(ma, [sep] + da, mb, [sep] + db);
    StrLtConcat([sep], da, [sep], db);
  }

  /** Fixed-width numeric fields: text order and equality are value order and equality. */
  lemma PaddedFieldOrder(x: nat, y: nat, width: nat)
    requires 1 <= width && x < Pow10(width) && y < Pow10(width)
    ensures |PadDigits(x, width)| == |PadDigits(y, width)| == width
    ensures StrLt(PadDigits(x, width), PadDigits(y, width)) <==> x < y
    ensures PadDigits(x, width) == PadDigits(y, width) <==> x == y
  {
    PadWidth(x, width);
    PadWidth(y, width);
    DigitsOrder(PadDigits(x, width), PadDigits(y, width));
  }

  /**
   * Zero-padded yyyy-MM-dd text sorts in calendar order: comparing the
   * stored strings (as ORDER BY and BETWEEN do) is comparing the dates.
   */
  lemma StoredTextOrder(a: CivilDate, b: CivilDate)
    requires ValidDate(a) && ValidDate(b) && FourDigitYear(a) && FourDigitYear(b)
    ensures StrLt(FormatDate(a, YearMonthDay), FormatDate(b, YearMonthDay)) <==> DayNumber(a) < DayNumber(b)
    ensures StrLe(FormatDate(a, YearMonthDay), FormatDate(b, YearMonthDay)) <==> DayNumber(a) <= DayNumber(b)
  {
    assert Pow10(2) == 100 && Pow10(4) == 10000 by {
      assert Pow10(1) == 10;
      assert Pow10(3) == 1000;
    }
    PaddedFieldOrder(a.year, b.year, 4);
    PaddedFieldOrder(a.month, b.month, 2);
    PaddedFieldOrder(a.day, b.day, 2);
    FieldsOrder(PadDigits(a.year, 4), PadDigits(a.month, 2), PadDigits(a.day, 2),
      PadDigits(b.year, 4), PadDigits(b.month, 2), PadDigits(b.day, 2), '-');
    DayNumberOrder(a, b);
    if FormatDate(a, YearMonthDay) == FormatDate(b, YearMonthDay) {
      FormatInjective(a, b, YearMonthDay);
    }
  }
  /**
   * BETWEEN on stored date texts is the inclusive calendar range, for dates
   * with four-digit years.
   */
  lemma BetweenIsDateRange(x: CivilDate, lo: CivilDate, hi: CivilDate)
    requires ValidDate(x) && ValidDate(lo) && ValidDate(hi)
    requires FourDigitYear(x) && FourDigitYear(lo) && FourDigitYear(hi)
    ensures Between(FormatDate(x, YearMonthDay), FormatDate(lo, YearMonthDay), FormatDate(hi, YearMonthDay))
      <==> DayNumber(lo) <= DayNumber(x) <= DayNumber(hi)
  {
    StoredTextOrder(lo, x);
    StoredTextOrder(x, hi);
  }


  /** dd/MM/yyyy text does not sort in calendar order: 2 January 2024 sorts after 1 February 2024. */
  lemma DayMonthYearTextMisorders()
    ensures var jan2, feb1 := CivilDate(2024, 1, 2), CivilDate(2024, 2, 1);
      ValidDate(jan2) && ValidDate(feb1) && DayNumber(jan2) < DayNumber(feb1)
      && StrLt(FormatDate(feb1, DayMonthYear), FormatDate(jan2, DayMonthYear))
  {
    var jan2, feb1 := CivilDate(2024, 1, 2), CivilDate(2024, 2, 1);
    DayNumberMonotone(jan2, feb1);
    assert FormatDate(feb1, DayMonthYear) == "01/02/2024";
    assert FormatDate(jan2, DayMonthYear) == "02/01/2024";
  }
}
