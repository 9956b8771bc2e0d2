/**
 * Calendar dates as (year, month, day) triples, JavaScript's
 * `new Date(y, monthIndex, day)` with its two-digit-year rule and its
 * month/day overflow, `yyyyMmDdToDate` (src/lib/utils.ts) and the sheet
 * `formatDate` for text cells (src/lib/googleSheetsApi.ts).
 */
module Dates {
  import opened Wrappers
  import opened Text
  import opened Numbers

  /**
   * A local-midnight date; `month` is 1-based, unlike JavaScript's month
   * index. There is no time of day.
   */
  datatype Date = Date(year: int, month: int, day: int)

  predicate IsLeapYear(y: int) {
    (y % 4 == 0 && y % 100 != 0) || y % 400 == 0
  }

  function DaysInMonth(y: int, m: int): (n: int)
    ensures 28 <= n <= 31
  {
    if m == 2 then (if IsLeapYear(y) then 29 else 28)
    else if m == 4 || m == 6 || m == 9 || m == 11 then 30
    else 31
  }

  predicate ValidDate(d: Date) {
    1 <= d.month <= 12 && 1 <= d.day <= DaysInMonth(d.year, d.month)
  }

  /** Chronological order of two dates (JavaScript's `<` on `Date` objects at midnight). */
  predicate Earlier(a: Date, b: Date) {
    a.year < b.year
    || (a.year == b.year && a.month < b.month)
    || (a.year == b.year && a.month == b.month && a.day < b.day)
  }

  /** `Earlier` is a strict total order. */
  lemma EarlierTotal(a: Date, b: Date)
    ensures !(Earlier(a, b) && Earlier(b, a))
    ensures a != b ==> Earlier(a, b) || Earlier(b, a)
    ensures !Earlier(a, a)
  {
  }

  /** `new Date(y, …)` reads a year from 0 to 99 as 1900 + y. */
  function JsYear(y: int): (r: int)
    ensures 0 <= y <= 99 ==> r == 1900 + y
    ensures !(0 <= y <= 99) ==> r == y
  {
    if 0 <= y <= 99 then 1900 + y else y
  }

  /**
   * Rolls a year, a month index (0 = January, any integer) and a day of
   * at least 0 over into a valid date, the way `new Date` does:
   * whole years out of the month index, day 0 is the last day of the
   * previous month, and days past the end run into the next months.
   */
  function Normalize(y: int, monthIndex: int, day: nat): (r: Date)
    ensures ValidDate(r)
    decreases day
  {
    var yy := y + monthIndex / 12;
    var m := monthIndex % 12 + 1;
    if day == 0 then
      var (py, pm) := if m == 1 then (yy - 1, 12) else (yy, m - 1);
      Date(py, pm, DaysInMonth(py, pm))
    else if day <= DaysInMonth(yy, m) then Date(yy, m, day)
    else Normalize(yy, m, day - DaysInMonth(yy, m))
  }

  /** `new Date(y, monthIndex, day)`. */
  function MakeDate(y: int, monthIndex: int, day: nat): (r: Date)
    ensures ValidDate(r)
  {
    Normalize(JsYear(y), monthIndex, day)
  }

  /** A valid date survives normalisation unchanged. */
  lemma NormalizeValid(d: Date)
    requires ValidDate(d) && d.day >= 0
    ensures Normalize(d.year, d.month - 1, d.day) == d
  {
  }

  /** `new Date(y, m - 1, d)` is (y, m, d) for a valid date whose year is not 0 to 99. */
  lemma MakeDateValid(d: Date)
    requires ValidDate(d) && !(0 <= d.year <= 99)
    ensures MakeDate(d.year, d.month - 1, d.day) == d
  {
    NormalizeValid(d);
  }

  /** 1 January 2000, the fallback of `yyyyMmDdToDate`. */
  const DefaultDate := Date(2000, 1, 1)

  // ---------------------------------------------------------------------
  // The two patterns of yyyyMmDdToDate

  predicate IsSeparator(c: char) {
    c == '-' || c == '/'
  }

  /**
   * `^(\d{lo..hi})[-/]` at the start of `s`: the digits and what follows the
   * separator.
   */
  function DigitsThenSeparator(s: string, lo: nat, hi: nat): (r: Option<(string, string)>)
    ensures r.Some? ==> lo <= |r.value.0| <= hi && AllDigits(r.value.0)
    ensures r.Some? ==> |r.value.0| < |s| && s == r.value.0 + [s[|r.value.0|]] + r.value.1 && IsSeparator(s[|r.value.0|])
  {
    var n := LeadingDigits(s);
    if lo <= n <= hi && n < |s| && IsSeparator(s[n]) then
      assert s == s[..n] + [s[n]] + s[n + 1..];
      Some((s[..n], s[n + 1..]))
    else None
  }

  /** All of `s` is between `lo` and `hi` digits. */
  predicate DigitField(s: string, lo: nat, hi: nat) {
    lo <= |s| <= hi && AllDigits(s)
  }

  /** `^(\d{1,2})[-/](\d{1,2})[-/](\d{4})$`: the day, month and year fields. */
  function MatchEuropean(s: string): (r: Option<(string, string, string)>)
    ensures r.Some? ==> DigitField(r.value.0, 1, 2) && DigitField(r.value.1, 1, 2) && DigitField(r.value.2, 4, 4)
  {
    match DigitsThenSeparator(s, 1, 2)
    case None => None
    case Some((d, rest)) =>
      match DigitsThenSeparator(rest, 1, 2)
      case None => None
      case Some((m, y)) =>
        if DigitField(y, 4, 4) then Some((d, m, y)) else None
  }

  /** `^(\d{4})[-/](\d{1,2})[-/](\d{1,2})$`: the year, month and day fields. */
  function MatchIso(s: string): (r: Option<(string, string, string)>)
    ensures r.Some? ==> DigitField(r.value.0, 4, 4) && DigitField(r.value.1, 1, 2) && DigitField(r.value.2, 1, 2)
  {
    match DigitsThenSeparator(s, 4, 4)
    case None => None
    case Some((y, rest)) =>
      match DigitsThenSeparator(rest, 1, 2)
      case None => None
      case Some((m, d)) =>
        if DigitField(d, 1, 2) then Some((y, m, d)) else None
  }

  /**
   * `yyyyMmDdToDate(s)`. `native` is the engine's own `new Date(s)` for the
   * strings neither pattern takes (`None` when it gives an invalid date).
   */
  function ParseDate(s: string, native: string -> Option<Date>): (r: Date)
    ensures s == [] ==> r == DefaultDate
  {
    if s == [] then DefaultDate else ParseTrimmed(Trim(s), native)
  }

  /** `new Date(Number(y), Number(m) - 1, Number(d))` on matched digit fields. */
  function FromFields(y: string, m: string, d: string): (r: Date)
    requires AllDigits(y) && AllDigits(m) && AllDigits(d)
    ensures ValidDate(r)
  {
    MakeDate(DigitsValue(y), DigitsValue(m) - 1, DigitsValue(d))
  }

  /** `yyyyMmDdToDate` after the trim: the European pattern, then the ISO one, then the engine, then 1 January 2000. */
  function ParseTrimmed(t: string, native: string -> Option<Date>): Date {
    var eu := MatchEuropean(t);
    if eu.Some? then FromFields(eu.value.2, eu.value.1, eu.value.0)
    else
      var iso := MatchIso(t);
      if iso.Some? then FromFields(iso.value.0, iso.value.1, iso.value.2)
      else native(t).GetOr(DefaultDate)
  }

  /** A parser that accepts nothing: every string outside the two patterns falls back to 1 January 2000. */
  function NoNative(s: string): Option<Date> {
    None
  }

  // ---------------------------------------------------------------------
  // Properties of ParseDate

  /** Surrounding whitespace is ignored: only the trimmed text is matched. */
  lemma ParseDateTrims(s: string, native: string -> Option<Date>)
    requires Trim(s) != []
    ensures ParseDate(s, native) == ParseDate(Trim(s), native)
  {
    TrimIdempotent(s);
  }

  /** Text that neither pattern nor the engine accepts gives 1 January 2000. */
  lemma ParseDateFallback(s: string, native: string -> Option<Date>)
    requires MatchEuropean(Trim(s)) == None && MatchIso(Trim(s)) == None
    requires native(Trim(s)) == None
    ensures ParseDate(s, native) == DefaultDate
  {
  }

  /** Four decimal digits of a year from 1000 to 9999. */
  lemma YearDigits(y: int)
    requires 1000 <= y <= 9999
    ensures DigitField(NatToString(y), 4, 4)
  {
    var s := NatToString(y);
    var s1 := NatToString(y / 10);
    var s2 := NatToString(y / 100);
    assert |NatToString(y / 1000)| == 1;
    assert |s2| == 2;
    assert |s1| == 3;
  }

  /** A month or day from 1 to 31 written with `padStart(2, '0')`: two digits, read back as itself. */
  lemma TwoDigits(n: int)
    requires 1 <= n <= 31
    ensures DigitField(PadStart2(NatToString(n)), 2, 2)
    ensures DigitsValue(PadStart2(NatToString(n))) == n
  {
    var s := NatToString(n);
    DigitsValueNatToString(n);
    if n < 10 {
      assert |s| == 1;
      OneDigitPadded(s);
    } else {
      NatToStringTwoDigits(n);
      assert PadStart2(s) == s;
    }
  }

  /** `padStart(2, '0')` of one digit keeps its value. */
  lemma OneDigitPadded(s: string)
    requires |s| == 1 && AllDigits(s)
    ensures DigitField(PadStart2(s), 2, 2) && DigitsValue(PadStart2(s)) == DigitsValue(s)
  {
    var p := PadStart2(s);
    assert p == "0" + s;
    assert p[..1] == "0" && p[1] == s[0];
    assert s[..0] == [];
  }

  lemma NatToStringTwoDigits(n: nat)
    requires 10 <= n <= 99
    ensures |NatToString(n)| == 2
  {
    assert |NatToString(n / 10)| == 1;
  }

  /** The ISO 8601 calendar-date extended form YYYY-MM-DD. */
  function IsoText(d: Date): string
    requires 1000 <= d.year <= 9999 && 1 <= d.month <= 12 && 1 <= d.day <= 31
  {
    NatToString(d.year) + "-" + PadStart2(NatToString(d.month)) + "-" + PadStart2(NatToString(d.day))
  }

  /** The European form DD-MM-YYYY or DD/MM/YYYY, zero-padded. */
  function EuropeanText(d: Date, sep: char): string
    requires 1000 <= d.year <= 9999 && 1 <= d.month <= 12 && 1 <= d.day <= 31
  {
    PadStart2(NatToString(d.day)) + [sep] + PadStart2(NatToString(d.month)) + [sep] + NatToString(d.year)
  }

  /** `DigitsThenSeparator` splits `a + [sep] + b` at the separator when `a` is a digit field. */
  lemma {:induction false} SplitAtSeparator(a: string, sep: char, b: string, lo: nat, hi: nat)
    requires DigitField(a, lo, hi) && IsSeparator(sep)
    ensures DigitsThenSeparator(a + [sep] + b, lo, hi) == Some((a, b))
  {
    var s := a + [sep] + b;
    assert s == a + ([sep] + b);
    LeadingDigitsStop(a, [sep] + b);
    assert s[..|a|] == a;
    assert s[|a| + 1..] == b;
  }

  /** Text of the form D-M-YYYY (either separator, one or two digits) matches the European pattern field by field. */
  lemma EuropeanFields(d: string, s1: char, m: string, s2: char, y: string)
    requires DigitField(d, 1, 2) && DigitField(m, 1, 2) && DigitField(y, 4, 4)
    requires IsSeparator(s1) && IsSeparator(s2)
    ensures MatchEuropean(d + [s1] + m + [s2] + y) == Some((d, m, y))
  {
    assert d + [s1] + m + [s2] + y == d + [s1] + (m + [s2] + y);
    SplitAtSeparator(d, s1, m + [s2] + y, 1, 2);
    SplitAtSeparator(m, s2, y, 1, 2);
  }

  /** Text of the form YYYY-M-D matches the ISO pattern field by field, and not the European one. */
  lemma IsoFields(y: string, s1: char, m: string, s2: char, d: string)
    requires DigitField(y, 4, 4) && DigitField(m, 1, 2) && DigitField(d, 1, 2)
    requires IsSeparator(s1) && IsSeparator(s2)
    ensures MatchEuropean(y + [s1] + m + [s2] + d) == None
    ensures MatchIso(y + [s1] + m + [s2] + d) == Some((y, m, d))
  {
    var s := y + [s1] + m + [s2] + d;
    assert s == y + ([s1] + m + [s2] + d);
    LeadingDigitsStop(y, [s1] + m + [s2] + d);
    assert s == y + [s1] + (m + [s2] + d);
    SplitAtSeparator(y, s1, m + [s2] + d, 4, 4);
    SplitAtSeparator(m, s2, d, 1, 2);
  }

  /** A text that starts and ends with a digit is read as it is. */
  lemma ParseDateDigitEnds(s: string, native: string -> Option<Date>)
    requires s != [] && IsDigit(s[0]) && IsDigit(s[|s| - 1])
    ensures ParseDate(s, native) == ParseTrimmed(s, native)
  {
    TrimNoSpace(s);
  }

  /** The fields of a valid date are read back as its year, month and day. */
  lemma FromFieldsOf(y: string, m: string, dd: string, d: Date)
    requires ValidDate(d) && !(0 <= d.year <= 99)
    requires AllDigits(y) && AllDigits(m) && AllDigits(dd)
    requires DigitsValue(y) == d.year && DigitsValue(m) == d.month && DigitsValue(dd) == d.day
    ensures FromFields(y, m, dd) == d
  {
    assert FromFields(y, m, dd) == MakeDate(d.year, d.month - 1, d.day);
    MakeDateValid(d);
  }

  /** The three fields a date is written with, and their values. */
  lemma DateFields(d: Date)
    requires ValidDate(d) && 1000 <= d.year <= 9999
    ensures DigitField(NatToString(d.year), 4, 4) && DigitsValue(NatToString(d.year)) == d.year
    ensures DigitField(PadStart2(NatToString(d.month)), 2, 2) && DigitsValue(PadStart2(NatToString(d.month))) == d.month
    ensures DigitField(PadStart2(NatToString(d.day)), 2, 2) && DigitsValue(PadStart2(NatToString(d.day))) == d.day
  {
    YearDigits(d.year);
    TwoDigits(d.month);
    TwoDigits(d.day);
    DigitsValueNatToString(d.year);
  }

  /** Text of the form YYYY-M-D (either separator) is read field by field. */
  lemma ParseIsoFields(y: string, s1: char, m: string, s2: char, dd: string, native: string -> Option<Date>)
    requires DigitField(y, 4, 4) && DigitField(m, 1, 2) && DigitField(dd, 1, 2)
    requires IsSeparator(s1) && IsSeparator(s2)
    ensures ParseDate(y + [s1] + m + [s2] + dd, native) == FromFields(y, m, dd)
  {
    var s := y + [s1] + m + [s2] + dd;
    ParseDateDigitEnds(s, native);
    IsoFields(y, s1, m, s2, dd);
  }

  /** Text of the form D-M-YYYY (either separator) is read field by field. */
  lemma ParseEuropeanFields(dd: string, s1: char, m: string, s2: char, y: string, native: string -> Option<Date>)
    requires DigitField(y, 4, 4) && DigitField(m, 1, 2) && DigitField(dd, 1, 2)
    requires IsSeparator(s1) && IsSeparator(s2)
    ensures ParseDate(dd + [s1] + m + [s2] + y, native) == FromFields(y, m, dd)
  {
    var s := dd + [s1] + m + [s2] + y;
    ParseDateDigitEnds(s, native);
    EuropeanFields(dd, s1, m, s2, y);
  }

  /** Reading the ISO text of a valid date gives the date back. */
  lemma ParseDateIso(d: Date, native: string -> Option<Date>)
    requires ValidDate(d) && 1000 <= d.year <= 9999
    ensures ParseDate(IsoText(d), native) == d
  {
    var y, m, dd := NatToString(d.year), PadStart2(NatToString(d.month)), PadStart2(NatToString(d.day));
    DateFields(d);
    assert IsoText(d) == y + ['-'] + m + ['-'] + dd;
    ParseIsoFields(y, '-', m, '-', dd, native);
    FromFieldsOf(y, m, dd, d);
  }

  /** Reading the European text of a valid date gives the date back, with either separator. */
  lemma ParseDateEuropean(d: Date, sep: char, native: string -> Option<Date>)
    requires ValidDate(d) && 1000 <= d.year <= 9999 && IsSeparator(sep)
    ensures ParseDate(EuropeanText(d, sep), native) == d
  {
    var y, m, dd := NatToString(d.year), PadStart2(NatToString(d.month)), PadStart2(NatToString(d.day));
    DateFields(d);
    ParseEuropeanFields(dd, sep, m, sep, y, native);
    FromFieldsOf(y, m, dd, d);
  }

  lemma DigitsValue2024()
    ensures DigitField("2024", 4, 4) && DigitsValue("2024") == 2024
  {
    assert "2024"[..3] == "202";
    assert "202"[..2] == "20";
    assert "20"[..1] == "2";
  }

  lemma DigitsValue0024()
    ensures DigitField("0024", 4, 4) && DigitsValue("0024") == 24
  {
    assert "0024"[..3] == "002";
    assert "002"[..2] == "00";
    assert "00"[..1] == "0";
  }

  lemma DigitsValueLeadingZero(c: char)
    requires IsDigit(c)
    ensures DigitField("0" + [c], 2, 2) && DigitsValue("0" + [c]) == DigitValue(c)
  {
    assert ("0" + [c])[..1] == "0";
  }

  /** The two separators are matched independently: `2024-01/05` is 5 January 2024. */
  lemma MixedSeparators(native: string -> Option<Date>)
    ensures ParseDate("2024-01/05", native) == Date(2024, 1, 5)
  {
    MixedSplit();
    MixedPieces(native);
  }

  lemma MixedSplit()
    ensures "2024-01/05" == "2024" + ['-'] + "01" + ['/'] + "05"
  {
  }

  lemma MixedPieces(native: string -> Option<Date>)
    ensures ParseDate("2024" + ['-'] + "01" + ['/'] + "05", native) == Date(2024, 1, 5)
  {
    DigitsValue2024();
    DigitsValueLeadingZero('1');
    DigitsValueLeadingZero('5');
    ParseIsoFields("2024", '-', "01", '/', "05", native);
    FromFieldsOf("2024", "01", "05", Date(2024, 1, 5));
  }

  /** `new Date(y, …)` with y from 0 to 99 of a valid twentieth-century date lands on that date. */
  lemma MakeDateTwoDigit(d: Date)
    requires ValidDate(d) && 1900 <= d.year <= 1999
    ensures MakeDate(d.year - 1900, d.month - 1, d.day) == d
  {
    NormalizeValid(d);
  }

  /** A four-digit year field from 0000 to 0099 falls in the twentieth century. */
  lemma ParseDateTwoDigitYear(y: string, m: string, dd: string, d: Date, native: string -> Option<Date>)
    requires DigitField(y, 4, 4) && DigitField(m, 1, 2) && DigitField(dd, 1, 2)
    requires ValidDate(d) && DigitsValue(y) == d.year - 1900 && d.year <= 1999
    requires DigitsValue(m) == d.month && DigitsValue(dd) == d.day
    ensures ParseDate(y + "-" + m + "-" + dd, native) == d
  {
    assert y + "-" + m + "-" + dd == y + ['-'] + m + ['-'] + dd;
    ParseIsoFields(y, '-', m, '-', dd, native);
    FromFieldsTwoDigit(y, m, dd, d);
  }

  lemma FromFieldsTwoDigit(y: string, m: string, dd: string, d: Date)
    requires AllDigits(y) && AllDigits(m) && AllDigits(dd)
    requires ValidDate(d) && DigitsValue(y) == d.year - 1900 && 1900 <= d.year <= 1999
    requires DigitsValue(m) == d.month && DigitsValue(dd) == d.day
    ensures FromFields(y, m, dd) == d
  {
    MakeDateTwoDigit(d);
  }

  /** For instance `0024-03-01` is 1 March 1924. */
  lemma TwoDigitYear(native: string -> Option<Date>)
    ensures ParseDate("0024-03-01", native) == Date(1924, 3, 1)
  {
    DigitsValue0024();
    DigitsValueLeadingZero('3');
    DigitsValueLeadingZero('1');
    assert "0024-03-01" == "0024" + "-" + "03" + "-" + "01";
    ParseDateTwoDigitYear("0024", "03", "01", Date(1924, 3, 1), native);
  }

  /** A day past the end of the month runs into the next: `31-02-2023` is 3 March 2023. */
  lemma DayOverflow()
    ensures MakeDate(2023, 1, 31) == Date(2023, 3, 3)
  {
  }

  // ---------------------------------------------------------------------
  // formatDate for text cells

  /** `/^\d{4}-\d{2}-\d{2}/`: a string that starts with an ISO calendar date. */
  predicate StartsIso(s: string) {
    |s| >= 10 && AllDigits(s[..4]) && s[4] == '-' && AllDigits(s[5..7]) && s[7] == '-' && AllDigits(s[8..10])
  }

  /** The zero-padded `YYYY-MM-DD` that `formatDate` writes for the fields of a European date. */
  function IsoFromEuropean(d: string, m: string, y: string): string {
    y + "-" + PadStart2(m) + "-" + PadStart2(d)
  }

  /** `formatDate(s)` for a text cell. */
  function FormatDate(s: string): (r: string)
    ensures s == [] ==> r == []
    ensures StartsIso(s) ==> r <= s
  {
    if s == [] then []
    else if StartsIso(s) then Before(s, 'T')
    else
      var eu := MatchEuropean(s);
      if eu.Some? then IsoFromEuropean(eu.value.0, eu.value.1, eu.value.2)
      else if 'T' in s then Before(s, 'T')
      else s
  }

  /** Digits are not `T`. */
  lemma DigitsHaveNoT(s: string)
    requires AllDigits(s)
    ensures 'T' !in s
  {
    forall i | 0 <= i < |s|
      ensures s[i] != 'T'
    {
      assert IsDigit(s[i]);
    }
  }

  /** A string starting with an ISO date keeps that start when cut at the first `T`. */
  lemma StartsIsoBefore(s: string)
    requires StartsIso(s)
    ensures StartsIso(Before(s, 'T')) && 'T' !in Before(s, 'T')
  {
    var r := Before(s, 'T');
    DigitsHaveNoT(s[..4]);
    DigitsHaveNoT(s[5..7]);
    DigitsHaveNoT(s[8..10]);
    assert s[..10] == s[..4] + [s[4]] + s[5..7] + [s[7]] + s[8..10];
    assert 'T' !in s[..10];
    BeforeKeepsPrefix(s, 'T', 10);
    assert r[..4] == s[..4] && r[5..7] == s[5..7] && r[8..10] == s[8..10];
  }

  /** Two digit fields, four then two then two, joined by `-`, start with an ISO date and have no `T`. */
  lemma IsoShape(y: string, m: string, d: string)
    requires DigitField(y, 4, 4) && DigitField(m, 2, 2) && DigitField(d, 2, 2)
    ensures StartsIso(y + "-" + m + "-" + d) && 'T' !in y + "-" + m + "-" + d
  {
    var r := y + "-" + m + "-" + d;
    assert r[..4] == y && r[5..7] == m && r[8..10] == d;
    DigitsHaveNoT(y);
    DigitsHaveNoT(m);
    DigitsHaveNoT(d);
  }

  /** `padStart(2, '0')` of one or two digits is two digits. */
  lemma PadDigits(s: string)
    requires DigitField(s, 1, 2)
    ensures DigitField(PadStart2(s), 2, 2)
  {
    if |s| == 1 {
      assert PadStart2(s) == "0" + s;
    }
  }

  /** The text `formatDate` writes for a European date starts with an ISO date and has no `T`. */
  lemma EuropeanOutputIso(d: string, m: string, y: string)
    requires DigitField(d, 1, 2) && DigitField(m, 1, 2) && DigitField(y, 4, 4)
    ensures StartsIso(IsoFromEuropean(d, m, y)) && 'T' !in IsoFromEuropean(d, m, y)
  {
    PadDigits(m);
    PadDigits(d);
    IsoShape(y, PadStart2(m), PadStart2(d));
  }

  /** `formatDate` rewrites a European date field by field. */
  lemma FormatEuropeanFields(dd: string, s1: char, m: string, s2: char, y: string)
    requires DigitField(y, 4, 4) && DigitField(m, 1, 2) && DigitField(dd, 1, 2)
    requires IsSeparator(s1) && IsSeparator(s2)
    ensures FormatDate(dd + [s1] + m + [s2] + y) == IsoFromEuropean(dd, m, y)
  {
    var s := dd + [s1] + m + [s2] + y;
    EuropeanFields(dd, s1, m, s2, y);
    assert s[..4][|dd|] == s1 && !IsDigit(s1);
    assert !StartsIso(s);
  }

  /**
   * `formatDate` is idempotent, except on text that is not an ISO date,
   * contains a `T`, and whose part before the `T` is a European date.
   */
  lemma FormatDateIdempotent(s: string)
    requires !(!StartsIso(s) && MatchEuropean(s).None? && 'T' in s && MatchEuropean(Before(s, 'T')).Some?)
    ensures FormatDate(FormatDate(s)) == FormatDate(s)
  {
    if s == [] {
    } else if StartsIso(s) {
      StartsIsoBefore(s);
      BeforeAbsent(Before(s, 'T'), 'T');
    } else if MatchEuropean(s).Some? {
      var (d, m, y) := MatchEuropean(s).value;
      EuropeanOutputIso(d, m, y);
      BeforeAbsent(IsoFromEuropean(d, m, y), 'T');
    } else if 'T' in s {
      var r := Before(s, 'T');
      if r != [] && StartsIso(r) {
        BeforeAbsent(r, 'T');
      }
    }
  }

  lemma PaddedExample()
    ensures IsoFromEuropean("5", "3", "2024") == "2024-03-05"
  {
    assert PadStart2("3") == "03" && PadStart2("5") == "05";
  }

  lemma FormatFieldsExample()
    ensures FormatDate("5" + ['-'] + "3" + ['-'] + "2024") == IsoFromEuropean("5", "3", "2024")
  {
    assert DigitField("2024", 4, 4);
    FormatEuropeanFields("5", '-', "3", '-', "2024");
  }

  lemma FormatEuropeanExample()
    ensures FormatDate("5-3-2024") == "2024-03-05"
  {
    PaddedExample();
    FormatFieldsExample();
    assert "5" + ['-'] + "3" + ['-'] + "2024" == "5-3-2024";
  }

  lemma NotEuropeanExample()
    ensures MatchEuropean("5" + ['-'] + ("3" + ['-'] + "2024T10")) == None
  {
    SplitAtSeparator("5", '-', "3" + ['-'] + "2024T10", 1, 2);
    SplitAtSeparator("3", '-', "2024T10", 1, 2);
    assert "2024T10"[4] == 'T';
  }

  lemma CutFieldsExample(e: string, s: string)
    requires e == "5" + ['-'] + "3" + ['-'] + "2024" && s == e + ['T'] + "10"
    ensures FormatDate(s) == e
  {
    ExampleNotEuropean(e, s);
    ExampleNotIso(e, s);
    ExampleCut(e, s);
    FormatDateCut(s);
  }

  lemma ExampleNotEuropean(e: string, s: string)
    requires e == "5" + ['-'] + "3" + ['-'] + "2024" && s == e + ['T'] + "10"
    ensures MatchEuropean(s) == None
  {
    NotEuropeanExample();
    assert s == "5" + ['-'] + ("3" + ['-'] + "2024T10");
  }

  lemma ExampleNotIso(e: string, s: string)
    requires e == "5" + ['-'] + "3" + ['-'] + "2024" && s == e + ['T'] + "10"
    ensures !StartsIso(s)
  {
    assert s[..4][1] == s[1] == '-';
  }

  lemma ExampleCut(e: string, s: string)
    requires e == "5" + ['-'] + "3" + ['-'] + "2024" && s == e + ['T'] + "10"
    ensures 'T' in s && Before(s, 'T') == e
  {
    assert s[|e|] == 'T';
    assert forall i :: 0 <= i < |e| ==> e[i] != 'T';
    BeforeAppend(e, 'T', "10");
  }

  /** Text that is neither ISO nor European but holds a `T` is cut at the first `T`. */
  lemma FormatDateCut(s: string)
    requires !StartsIso(s) && MatchEuropean(s) == None && 'T' in s
    ensures FormatDate(s) == Before(s, 'T')
  {
  }

  lemma CutAtTExample()
    ensures FormatDate("5-3-2024T10") == "5-3-2024"
  {
    CutFieldsExample("5" + ['-'] + "3" + ['-'] + "2024", "5" + ['-'] + "3" + ['-'] + "2024" + ['T'] + "10");
    assert "5" + ['-'] + "3" + ['-'] + "2024" == "5-3-2024";
    assert "5" + ['-'] + "3" + ['-'] + "2024" + ['T'] + "10" == "5-3-2024T10";
  }

  /** The exception is real: `5-3-2024T10` becomes `5-3-2024`, which a second pass turns into `2024-03-05`. */
  lemma FormatDateNotIdempotent()
    ensures FormatDate("5-3-2024T10") == "5-3-2024"
    ensures FormatDate(FormatDate("5-3-2024T10")) == "2024-03-05"
  {
    CutAtTExample();
    FormatEuropeanExample();
  }

  /** `formatDate` and `yyyyMmDdToDate` agree: the text `formatDate` writes for a European date reads back as the same date. */
  lemma FormatThenParseEuropean(d: Date, sep: char, native: string -> Option<Date>)
    requires ValidDate(d) && 1000 <= d.year <= 9999 && IsSeparator(sep)
    ensures FormatDate(EuropeanText(d, sep)) == IsoText(d)
    ensures ParseDate(FormatDate(EuropeanText(d, sep)), native) == d
  {
    var y, m, dd := NatToString(d.year), PadStart2(NatToString(d.month)), PadStart2(NatToString(d.day));
    DateFields(d);
    FormatEuropeanFields(dd, sep, m, sep, y);
    assert PadStart2(m) == m && PadStart2(dd) == dd;
    ParseDateIso(d, native);
  }
}
