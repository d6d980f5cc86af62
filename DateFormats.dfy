/** The two date conversions of the feed builder: reading a `YYYY-MM-DD`
    string the way Python's `datetime.strptime(s, "%Y-%m-%d")` does, and
    printing a moment the way `strftime("%a, %d %b %Y %H:%M:%S +0000")` does
    in the C locale, which is the date-time form of section 5 of RFC 822 with
    the four-digit year of section 5.2.14 of RFC 1123. */
module DateFormats {
  import opened Wrappers
  import opened Decimal
  import opened Calendar

  /** A UTC moment to the second, as Python's `datetime` holds it. */
  datatype DateTime = DateTime(date: Date, hour: int, minute: int, second: int)

  /** Python's `datetime` admits years 1 to 9999 only. */
  predicate ValidPythonDate(d: Date) {
    1 <= d.year <= 9999 && ValidDate(d)
  }

  predicate ValidDateTime(t: DateTime) {
    ValidPythonDate(t.date) && 0 <= t.hour < 24 && 0 <= t.minute < 60 && 0 <= t.second < 60
  }

  /** `%a` in the C locale, indexed by `Calendar.Weekday` (Monday first). */
  const WeekdayAbbrevs: seq<string> := ["Mon", "Tue", "Wed", "Thu", "Fri", "Sat", "Sun"]

  /** `%b` in the C locale, indexed by month - 1. */
  const MonthAbbrevs: seq<string> :=
    ["Jan", "Feb", "Mar", "Apr", "May", "Jun", "Jul", "Aug", "Sep", "Oct", "Nov", "Dec"]

  /** What `%m` matches: `1[0-2]`, `0[1-9]` or `[1-9]`. */
  predicate MonthToken(t: string) {
    (|t| == 2 && t[0] == '1' && '0' <= t[1] <= '2')
    || (|t| == 2 && t[0] == '0' && '1' <= t[1] <= '9')
    || (|t| == 1 && '1' <= t[0] <= '9')
  }

  /** What `%d` matches: `3[01]`, `[12]\d`, `0[1-9]`, `[1-9]` or a space and `[1-9]`. */
  predicate DayToken(t: string) {
    (|t| == 2 && t[0] == '3' && '0' <= t[1] <= '1')
    || (|t| == 2 && '1' <= t[0] <= '2' && IsDigit(t[1]))
    || (|t| == 2 && t[0] == '0' && '1' <= t[1] <= '9')
    || (|t| == 1 && '1' <= t[0] <= '9')
    || (|t| == 2 && t[0] == ' ' && '1' <= t[1] <= '9')
  }

  /** The number a one- or two-character month or day token stands for
      (a leading space counts as nothing, as `int(" 5")` reads 5). */
  function TokenValue(t: string): nat
    requires MonthToken(t) || DayToken(t)
  {
    if |t| == 1 || t[0] == ' ' then DigitValue(t[|t| - 1])
    else 10 * DigitValue(t[0]) + DigitValue(t[1])
  }

  /** The number the four digits of `%Y` at the start of `s` stand for. */
  function YearValue(s: string): (y: nat)
    requires |s| >= 4 && IsDigit(s[0]) && IsDigit(s[1]) && IsDigit(s[2]) && IsDigit(s[3])
    ensures y < 10000
  {
    1000 * DigitValue(s[0]) + 100 * DigitValue(s[1]) + 10 * DigitValue(s[2]) + DigitValue(s[3])
  }

  /** `strptime(s, "%Y-%m-%d")`: exactly four digits, a dash, a month token
      that the next dash ends, a dash, and a day token that ends the string;
      `None` where Python raises `ValueError` (no match, unconverted data
      left over, year 0, or a day past the end of its month). */
  function ParseIsoDate(s: string): (r: Option<Date>)
    ensures r.Some? ==> ValidPythonDate(r.value)
  {
    if |s| < 8 || !IsDigit(s[0]) || !IsDigit(s[1]) || !IsDigit(s[2]) || !IsDigit(s[3]) || s[4] != '-' then None
    else
      var rest := s[5..];
      var m := if rest[1] == '-' then 1 else 2;
      if rest[m] != '-' || !MonthToken(rest[..m]) || !DayToken(rest[m + 1..]) then None
      else
        var year, month, day := YearValue(s), TokenValue(rest[..m]), TokenValue(rest[m + 1..]);
        if year >= 1 && day <= DaysInMonth(year, month) then Some(Date(year, month, day)) else None
  }

  /** The canonical `YYYY-MM-DD` spelling of a date (the manifests' form). */
  function IsoDate(d: Date): (s: string)
    requires ValidPythonDate(d)
    ensures |s| == 10
  {
    ZeroPadded(d.year, 4) + "-" + ZeroPadded(d.month, 2) + "-" + ZeroPadded(d.day, 2)
  }

  lemma TwoDigits(n: nat)
    requires n < 100
    ensures ZeroPadded(n, 2) == [DigitChar(n / 10), DigitChar(n % 10)]
  {
    assert ZeroPadded(n / 10, 1) == [DigitChar(n / 10)];
  }

  /** Every valid date survives printing it as `YYYY-MM-DD` and reading it back. */
  lemma IsoDateRoundTrip(d: Date)
    requires ValidPythonDate(d)
    ensures ParseIsoDate(IsoDate(d)) == Some(d)
  {
    var y, m, dd := ZeroPadded(d.year, 4), ZeroPadded(d.month, 2), ZeroPadded(d.day, 2);
    FieldTokens(d);
    ParseFields(IsoDate(d), d, y, m, dd);
  }

  /** The printed fields of a valid date are tokens `%Y`, `%m` and `%d`
      accept, standing for the date's own numbers. */
  lemma FieldTokens(d: Date)
    requires ValidPythonDate(d)
    ensures var y, m, dd := ZeroPadded(d.year, 4), ZeroPadded(d.month, 2), ZeroPadded(d.day, 2);
      IsDigit(y[0]) && IsDigit(y[1]) && IsDigit(y[2]) && IsDigit(y[3]) && YearValue(y) == d.year
      && MonthToken(m) && TokenValue(m) == d.month && DayToken(dd) && TokenValue(dd) == d.day
  {
    TwoDigits(d.month);
    TwoDigits(d.day);
    YearDigits(ZeroPadded(d.year, 4));
  }

  /** Four digits, a dash, a two-character month, a dash and a
      two-character day read as the date they spell, when it exists. */
  lemma ParseFields(s: string, d: Date, y: string, m: string, dd: string)
    requires s == y + "-" + m + "-" + dd
    requires |y| == 4 && IsDigit(y[0]) && IsDigit(y[1]) && IsDigit(y[2]) && IsDigit(y[3])
    requires |m| == 2 && MonthToken(m) && |dd| == 2 && DayToken(dd)
    requires d == Date(YearValue(y), TokenValue(m), TokenValue(dd))
    requires d.year >= 1 && d.day <= DaysInMonth(d.year, d.month)
    ensures ParseIsoDate(s) == Some(d)
  {
    assert s[..4] == y && s[4] == '-';
    var rest := s[5..];
    assert rest == m + "-" + dd;
    assert rest[..2] == m && rest[2] == '-' && rest[3..] == dd;
  }

  /** `%H:%M:%S`-style two-digit field. */
  function Two(n: nat): (s: string)
    requires n < 100
    ensures |s| == 2
  {
    ZeroPadded(n, 2)
  }

  /** `strftime("%a, %d %b %Y %H:%M:%S +0000")` of a UTC moment. */
  function PubDate(t: DateTime): (s: string)
    requires ValidDateTime(t)
    ensures |s| == 31
  {
    var d := t.date;
    Layout(WeekdayAbbrevs[Weekday(d)], Two(d.day), MonthAbbrevs[d.month - 1], ZeroPadded(d.year, 4),
           Two(t.hour), Two(t.minute), Two(t.second))
  }

  /** The fixed-width layout `Www, DD Mon YYYY HH:MM:SS +0000`. */
  function Layout(w: string, dd: string, mon: string, y: string, h: string, mi: string, se: string): (s: string)
    requires |w| == 3 && |dd| == 2 && |mon| == 3 && |y| == 4 && |h| == 2 && |mi| == 2 && |se| == 2
    ensures |s| == 31
  {
    w + ", " + dd + " " + mon + " " + y + " " + h + ":" + mi + ":" + se + " +0000"
  }

  /** Where each field sits in the layout. */
  lemma LayoutFields(w: string, dd: string, mon: string, y: string, h: string, mi: string, se: string)
    requires |w| == 3 && |dd| == 2 && |mon| == 3 && |y| == 4 && |h| == 2 && |mi| == 2 && |se| == 2
    ensures var s := Layout(w, dd, mon, y, h, mi, se);
      s[..3] == w && s[3..5] == ", " && s[5..7] == dd && s[7] == ' ' && s[8..11] == mon
      && s[11] == ' ' && s[12..16] == y && s[16] == ' ' && s[17..19] == h && s[19] == ':'
      && s[20..22] == mi && s[22] == ':' && s[23..25] == se && s[25..] == " +0000"
  {
    var a := w + ", " + dd + " " + mon + " " + y;
    var b := " " + h + ":" + mi + ":" + se + " +0000";
    assert Layout(w, dd, mon, y, h, mi, se) == a + b;
    assert |a| == 16;
    var a1 := w + ", " + dd;
    assert a == a1 + (" " + mon + " " + y);
    assert a1[..3] == w && a1[3..5] == ", " && a1[5..7] == dd;
    assert (" " + mon + " " + y)[1..4] == mon && (" " + mon + " " + y)[5..] == y;
    var b1 := " " + h + ":" + mi;
    assert b == b1 + (":" + se + " +0000");
    assert b1[1..3] == h && b1[4..6] == mi;
    assert (":" + se + " +0000")[1..3] == se && (":" + se + " +0000")[3..] == " +0000";
  }

  /** A feed item's date: midnight UTC of the given day. */
  function ItemPubDate(d: Date): (s: string)
    requires ValidPythonDate(d)
    ensures |s| == 31
  {
    PubDate(DateTime(d, 0, 0, 0))
  }

  /** An item's date reads back as midnight of its day. */
  lemma ItemPubDateReadsBack(d: Date)
    requires ValidPythonDate(d)
    ensures ReadPubDate(ItemPubDate(d)) == Some(DateTime(d, 0, 0, 0))
  {
    PubDateRoundTrip(DateTime(d, 0, 0, 0));
  }

  /** An item's time of day is printed as zeros. */
  lemma ItemPubDateMidnight(d: Date)
    requires ValidPythonDate(d)
    ensures ItemPubDate(d)[16..] == " 00:00:00 +0000"
  {
    assert Two(0) == "00" by { TwoDigits(0); }
    LayoutTime(WeekdayAbbrevs[Weekday(d)], Two(d.day), MonthAbbrevs[d.month - 1], ZeroPadded(d.year, 4),
               "00", "00", "00");
  }

  /** The time of day and the zone fill the layout from position 16 on. */
  lemma LayoutTime(w: string, dd: string, mon: string, y: string, h: string, mi: string, se: string)
    requires |w| == 3 && |dd| == 2 && |mon| == 3 && |y| == 4 && |h| == 2 && |mi| == 2 && |se| == 2
    ensures Layout(w, dd, mon, y, h, mi, se)[16..] == " " + h + ":" + mi + ":" + se + " +0000"
  {
    var a := w + ", " + dd + " " + mon + " " + y;
    var b := " " + h + ":" + mi + ":" + se + " +0000";
    assert Layout(w, dd, mon, y, h, mi, se) == a + b;
  }

  function IndexOf(names: seq<string>, name: string): (r: Option<nat>)
    ensures r.Some? ==> r.value < |names| && names[r.value] == name
    ensures r.None? ==> name !in names
  {
    if names == [] then None
    else if names[0] == name then Some(0)
    else match IndexOf(names[1..], name)
      case None => None
      case Some(i) => Some(i + 1)
  }

  /** A reader for the fixed-width RFC 822 form that `PubDate` prints; it
      checks the layout, the fields' ranges and that the weekday agrees with
      the date. It is the partner of `PubDate`, not part of the feed builder. */
  function ReadPubDate(s: string): Option<DateTime> {
    if |s| != 31 || s[3..5] != ", " || s[7] != ' ' || s[11] != ' ' || s[16] != ' '
      || s[19] != ':' || s[22] != ':' || s[25..] != " +0000"
      || !AllDigits(s[5..7]) || !AllDigits(s[12..16]) || !AllDigits(s[17..19])
      || !AllDigits(s[20..22]) || !AllDigits(s[23..25])
    then None
    else match IndexOf(MonthAbbrevs, s[8..11])
      case None => None
      case Some(mi) =>
        var t := DateTime(Date(DecimalValue(s[12..16]), mi + 1, DecimalValue(s[5..7])),
                          DecimalValue(s[17..19]), DecimalValue(s[20..22]), DecimalValue(s[23..25]));
        if ValidDateTime(t) && WeekdayAbbrevs[Weekday(t.date)] == s[..3] then Some(t) else None
  }

  lemma {:induction false} IndexOfDistinct(names: seq<string>, i: nat)
    requires i < |names|
    requires forall a, b :: 0 <= a < b < |names| ==> names[a] != names[b]
    ensures IndexOf(names, names[i]) == Some(i)
  {
    if i > 0 {
      assert names[1..][i - 1] == names[i];
      IndexOfDistinct(names[1..], i - 1);
    }
  }

  lemma MonthAbbrevIndex(i: nat)
    requires i < 12
    ensures IndexOf(MonthAbbrevs, MonthAbbrevs[i]) == Some(i)
  {
    forall a, b | 0 <= a < b < 12 ensures MonthAbbrevs[a] != MonthAbbrevs[b] {
      assert MonthAbbrevs[a][..3] == MonthAbbrevs[a];
    }
    IndexOfDistinct(MonthAbbrevs, i);
  }

  /** Printing a moment and reading it back gives the same moment: the
      printed date names its day, month, year and time unambiguously. */
  lemma PubDateRoundTrip(t: DateTime)
    requires ValidDateTime(t)
    ensures ReadPubDate(PubDate(t)) == Some(t)
  {
    var d := t.date;
    LayoutFields(WeekdayAbbrevs[Weekday(d)], Two(d.day), MonthAbbrevs[d.month - 1], ZeroPadded(d.year, 4),
                 Two(t.hour), Two(t.minute), Two(t.second));
    MonthAbbrevIndex(d.month - 1);
  }

  /** The default item date of the feed builder is the Unix epoch, a Thursday. */
  lemma EpochPubDate()
    ensures ParseIsoDate("1970-01-01") == Some(Date(1970, 1, 1))
    ensures ItemPubDate(Date(1970, 1, 1)) == "Thu, 01 Jan 1970 00:00:00 +0000"
  {
    EpochParses();
    EpochPrints();
  }

  lemma EpochParses()
    ensures ParseIsoDate("1970-01-01") == Some(Date(1970, 1, 1))
  {
    var epoch := Date(1970, 1, 1);
    EpochYearDigits();
    TwoDigits(1);
    assert IsoDate(epoch) == "1970-01-01";
    IsoDateRoundTrip(epoch);
  }

  lemma EpochPrints()
    ensures ItemPubDate(Date(1970, 1, 1)) == "Thu, 01 Jan 1970 00:00:00 +0000"
  {
    var epoch := Date(1970, 1, 1);
    EpochYearDigits();
    assert Two(1) == "01" by { TwoDigits(1); }
    assert Two(0) == "00" by { TwoDigits(0); }
    EpochIsThursday();
    assert WeekdayAbbrevs[Weekday(epoch)] == "Thu";
    assert ItemPubDate(epoch) == PubDate(DateTime(epoch, 0, 0, 0));
    assert PubDate(DateTime(epoch, 0, 0, 0)) == Layout("Thu", "01", "Jan", "1970", "00", "00", "00");
    EpochLayout();
  }

  lemma EpochLayout()
    ensures Layout("Thu", "01", "Jan", "1970", "00", "00", "00") == "Thu, 01 Jan 1970 00:00:00 +0000"
  {
  }

  lemma EpochYearDigits()
    ensures ZeroPadded(1970, 4) == "1970"
  {
    assert ZeroPadded(1, 1) == "1";
    assert ZeroPadded(19, 2) == "19";
    assert ZeroPadded(197, 3) == "197";
  }

  lemma YearDigits(s: string)
    requires |s| == 4 && AllDigits(s)
    ensures DecimalValue(s) == YearValue(s)
  {
    var a, b, c := s[..1], s[..2], s[..3];
    assert a[..0] == [] && b[..1] == a && c[..2] == b && s[..3] == c;
    assert DecimalValue(a) == DigitValue(s[0]);
    assert DecimalValue(b) == 10 * DigitValue(s[0]) + DigitValue(s[1]);
    assert DecimalValue(c) == 100 * DigitValue(s[0]) + 10 * DigitValue(s[1]) + DigitValue(s[2]);
  }

  /** `%m` and `%d` also accept unpadded numbers and a space-padded day. */
  lemma LenientForms()
    ensures ParseIsoDate("2024-1-5") == Some(Date(2024, 1, 5))
    ensures ParseIsoDate("2024-12- 5") == Some(Date(2024, 12, 5))
  {
    assert "2024-1-5"[5..] == "1-5" && "1-5"[..1] == "1" && "1-5"[2..] == "5";
    assert "2024-12- 5"[5..] == "12- 5" && "12- 5"[..2] == "12" && "12- 5"[3..] == " 5";
  }

  /** What Python rejects: a day past the month's end, a 13th month, extra
      text after the day, a two-digit year, and the year 0. */
  lemma RejectedForms()
    ensures ParseIsoDate("2023-02-29") == None
    ensures ParseIsoDate("2024-13-01") == None
    ensures ParseIsoDate("2024-01-011") == None
    ensures ParseIsoDate("24-01-01") == None
    ensures ParseIsoDate("0000-01-01") == None
  {
    assert "2023-02-29"[5..] == "02-29" && "02-29"[..2] == "02" && "02-29"[3..] == "29";
    assert "2024-13-01"[5..] == "13-01" && "13-01"[..2] == "13";
    assert "2024-01-011"[5..] == "01-011" && "01-011"[3..] == "011";
  }
}
