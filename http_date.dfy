/**
 * The `modified` stamp both indexers store:
 * `datetime.fromtimestamp(mtime).strftime('%a, %d %b %Y %H:%M:%S +0000')`,
 * rendered from the broken-down local time with C-locale day and month names
 * and a literal `+0000` whatever the local offset.
 */
module HttpDate {
  import opened Wrappers

  datatype DateTime = DateTime(year: int, month: int, day: int, hour: int, minute: int, second: int)

  predicate IsLeapYear(y: int)
  {
    y % 4 == 0 && (y % 100 != 0 || y % 400 == 0)
  }

  function DaysInMonth(y: int, m: int): int
    requires 1 <= m <= 12
  {
    if m == 2 then (if IsLeapYear(y) then 29 else 28)
    else if m == 4 || m == 6 || m == 9 || m == 11 then 30
    else 31
  }

  /** The values a Python `datetime` can hold (`fromtimestamp` never yields a leap second). */
  predicate ValidDateTime(d: DateTime)
  {
    && 1 <= d.year <= 9999
    && 1 <= d.month <= 12
    && 1 <= d.day <= DaysInMonth(d.year, d.month)
    && 0 <= d.hour < 24 && 0 <= d.minute < 60 && 0 <= d.second < 60
  }

  /** A broken-down time that a Python `datetime` can hold. */
  type Moment = d: DateTime | ValidDateTime(d) witness DateTime(1970, 1, 1, 0, 0, 0)

  function DaysBeforeYear(y: int): int
    requires y >= 1
  {
    var p := y - 1;
    p * 365 + p / 4 - p / 100 + p / 400
  }

  function DaysBeforeMonth(y: int, m: int): int
    requires 1 <= m <= 12
  {
    var table := [0, 31, 59, 90, 120, 151, 181, 212, 243, 273, 304, 334];
    table[m - 1] + (if m > 2 && IsLeapYear(y) then 1 else 0)
  }

  /** `datetime.weekday()`: Monday is 0; 1 January of year 1 was a Monday. */
  function Weekday(d: Moment): (w: int)
    ensures 0 <= w < 7
  {
    (DaysBeforeYear(d.year) + DaysBeforeMonth(d.year, d.month) + d.day + 6) % 7
  }

  const WeekdayNames: seq<string> := ["Mon", "Tue", "Wed", "Thu", "Fri", "Sat", "Sun"]
  const MonthNames: seq<string> := ["Jan", "Feb", "Mar", "Apr", "May", "Jun", "Jul", "Aug", "Sep", "Oct", "Nov", "Dec"]

  function DigitChar(n: int): char
    requires 0 <= n < 10
  {
    ('0' as int + n) as char
  }

  predicate IsDigit(c: char)
  {
    '0' <= c <= '9'
  }

  /** `n` in decimal, zero-padded to `width` digits. */
  function Padded(n: nat, width: nat): (s: string)
    ensures |s| == width
    ensures forall k :: 0 <= k < |s| ==> IsDigit(s[k])
  {
    if width == 0 then [] else Padded(n / 10, width - 1) + [DigitChar(n % 10)]
  }

  /** The number a run of decimal digits spells, `None` if a character is not a digit. */
  function DigitsValue(s: string): Option<nat>
  {
    if s == [] then Some(0)
    else if !IsDigit(s[|s| - 1]) then None
    else match DigitsValue(s[..|s| - 1])
      case None => None
      case Some(v) => Some(v * 10 + (s[|s| - 1] as int - '0' as int))
  }

  function Power10(k: nat): (p: nat)
    ensures p >= 1
  {
    if k == 0 then 1 else 10 * Power10(k - 1)
  }

  lemma {:induction false} PaddedValue(n: nat, width: nat)
    requires n < Power10(width)
    ensures DigitsValue(Padded(n, width)) == Some(n)
  {
    if width > 0 {
      var s := Padded(n, width);
      assert s[..|s| - 1] == Padded(n / 10, width - 1);
      PaddedValue(n / 10, width - 1);
    }
  }

  function IndexOf(names: seq<string>, x: string): Option<nat>
  {
    if names == [] then None
    else if names[0] == x then Some(0)
    else match IndexOf(names[1..], x)
      case None => None
      case Some(i) => Some(i + 1)
  }

  /** `%a, %d %b %Y` */
  function DatePart(d: Moment): (s: string)
    ensures |s| == 16
  {
    WeekdayNames[Weekday(d)] + ", " + Padded(d.day, 2) + " " + MonthNames[d.month - 1] + " " + Padded(d.year, 4)
  }

  /** `%H:%M:%S` */
  function TimePart(d: Moment): (s: string)
    ensures |s| == 8
  {
    Padded(d.hour, 2) + ":" + Padded(d.minute, 2) + ":" + Padded(d.second, 2)
  }

  /** The stamp `Www, DD Mon YYYY HH:MM:SS +0000`. */
  function FormatModified(d: Moment): (s: string)
    ensures |s| == 31
    ensures s[3..5] == ", " && s[25..] == " +0000"
  {
    DatePart(d) + " " + TimePart(d) + " +0000"
  }

  /** Reads a stamp back: the inverse of `FormatModified` on well-formed stamps. */
  function ParseModified(s: string): Option<Moment>
  {
    if |s| != 31 || s[3..5] != ", " || s[7] != ' ' || s[11] != ' ' || s[16] != ' '
       || s[19] != ':' || s[22] != ':' || s[25..] != " +0000" then None
    else
      match (IndexOf(WeekdayNames, s[..3]), IndexOf(MonthNames, s[8..11]), DigitsValue(s[5..7]),
             DigitsValue(s[12..16]), DigitsValue(s[17..19]), DigitsValue(s[20..22]), DigitsValue(s[23..25]))
      case (Some(w), Some(m), Some(day), Some(y), Some(h), Some(mi), Some(sec)) =>
        var d := DateTime(y, m + 1, day, h, mi, sec);
        if ValidDateTime(d) && Weekday(d) == w then Some(d) else None
      case _ => None
  }

  lemma {:induction false} IndexOfDistinct(names: seq<string>, m: nat)
    requires m < |names|
    requires forall i :: 0 <= i < m ==> names[i] != names[m]
    ensures IndexOf(names, names[m]) == Some(m)
  {
    if m > 0 {
      assert names[1..][m - 1] == names[m];
      IndexOfDistinct(names[1..], m - 1);
    }
  }

  lemma {:induction false} WeekdayIndex(w: nat)
    requires w < 7
    ensures IndexOf(WeekdayNames, WeekdayNames[w]) == Some(w)
  {
    forall i | 0 <= i < w ensures WeekdayNames[i] != WeekdayNames[w] {
      assert WeekdayNames[i][0] != WeekdayNames[w][0] || WeekdayNames[i][1] != WeekdayNames[w][1];
    }
    IndexOfDistinct(WeekdayNames, w);
  }

  lemma {:induction false} MonthIndex(m: nat)
    requires m < 12
    ensures IndexOf(MonthNames, MonthNames[m]) == Some(m)
  {
    forall i | 0 <= i < m ensures MonthNames[i] != MonthNames[m] {
      assert MonthNames[i][0] != MonthNames[m][0] || MonthNames[i][1] != MonthNames[m][1]
        || MonthNames[i][2] != MonthNames[m][2];
    }
    IndexOfDistinct(MonthNames, m);
  }

  lemma {:induction false} DatePartLayout(d: Moment)
    ensures var s := DatePart(d);
      s[..3] == WeekdayNames[Weekday(d)] && s[3..5] == ", " && s[5..7] == Padded(d.day, 2) && s[7] == ' '
      && s[8..11] == MonthNames[d.month - 1] && s[11] == ' ' && s[12..16] == Padded(d.year, 4)
  {
  }

  lemma {:induction false} TimePartLayout(d: Moment)
    ensures var s := TimePart(d);
      s[..2] == Padded(d.hour, 2) && s[2] == ':' && s[3..5] == Padded(d.minute, 2) && s[5] == ':'
      && s[6..8] == Padded(d.second, 2)
  {
  }

  /** Where each field sits in a formatted stamp. */
  lemma {:induction false} StampLayout(d: Moment)
    ensures var s := FormatModified(d);
      && s[..3] == WeekdayNames[Weekday(d)] && s[5..7] == Padded(d.day, 2) && s[7] == ' '
      && s[8..11] == MonthNames[d.month - 1] && s[11] == ' ' && s[12..16] == Padded(d.year, 4) && s[16] == ' '
      && s[17..19] == Padded(d.hour, 2) && s[19] == ':' && s[20..22] == Padded(d.minute, 2) && s[22] == ':'
      && s[23..25] == Padded(d.second, 2)
  {
    var s, a, b := FormatModified(d), DatePart(d), TimePart(d);
    DatePartLayout(d);
    TimePartLayout(d);
    assert s[..16] == a && s[16] == ' ' && s[17..25] == b;
    assert s[..3] == a[..3] && s[5..7] == a[5..7] && s[8..11] == a[8..11] && s[12..16] == a[12..16];
    assert s[17..19] == b[..2] && s[20..22] == b[3..5] && s[23..25] == b[6..8];
  }

  /** Every stamp the indexers write can be read back to the time it was made from. */
  lemma {:induction false} ParseFormatRoundTrip(d: Moment)
    ensures ParseModified(FormatModified(d)) == Some(d)
  {
    var s := FormatModified(d);
    StampLayout(d);
    WeekdayIndex(Weekday(d));
    MonthIndex(d.month - 1);
    assert Power10(2) == 100 && Power10(4) == 10000;
    PaddedValue(d.day, 2);
    PaddedValue(d.year, 4);
    PaddedValue(d.hour, 2);
    PaddedValue(d.minute, 2);
    PaddedValue(d.second, 2);
    assert IndexOf(WeekdayNames, s[..3]) == Some(Weekday(d));
    assert IndexOf(MonthNames, s[8..11]) == Some(d.month - 1);
    assert DigitsValue(s[5..7]) == Some(d.day);
    assert DigitsValue(s[12..16]) == Some(d.year);
    assert DigitsValue(s[17..19]) == Some(d.hour);
    assert DigitsValue(s[20..22]) == Some(d.minute);
    assert DigitsValue(s[23..25]) == Some(d.second);
  }
}
