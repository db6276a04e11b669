/**
 * The calendar values the logbook stores: Python's `datetime.date` (proleptic Gregorian,
 * years 1 to 9999), `datetime.time` at microsecond resolution, and the day arithmetic and
 * text renderings (`str()`) the views rely on.
 */
module Calendar {

  const MicrosPerSecond: int := 1_000_000
  const MicrosPerMinute: int := 60 * MicrosPerSecond
  const MicrosPerHour: int := 60 * MicrosPerMinute
  const MicrosPerDay: int := 24 * MicrosPerHour

  /** A time of day (`datetime.time` without time zone): microseconds since midnight. */
  type TimeOfDay = t: int | 0 <= t < 86_400_000_000

  datatype CalendarDate = CalendarDate(year: int, month: int, day: int)

  predicate IsLeapYear(y: int) {
    y % 4 == 0 && (y % 100 != 0 || y % 400 == 0)
  }

  function DaysInMonth(y: int, m: int): (n: int)
    requires 1 <= m <= 12
    ensures 28 <= n <= 31
  {
    if m == 2 then (if IsLeapYear(y) then 29 else 28)
    else if m == 4 || m == 6 || m == 9 || m == 11 then 30
    else 31
  }

  function DaysInYear(y: int): int {
    if IsLeapYear(y) then 366 else 365
  }

  predicate ValidDate(d: CalendarDate) {
    1 <= d.year <= 9999 && 1 <= d.month <= 12 && 1 <= d.day <= DaysInMonth(d.year, d.month)
  }

  /** A `datetime.date`. */
  type Date = d: CalendarDate | ValidDate(d) witness CalendarDate(1, 1, 1)

  /** Date comparison: Python and SQL order dates by (year, month, day). */
  predicate DateLe(a: Date, b: Date) {
    a.year < b.year ||
    (a.year == b.year && (a.month < b.month || (a.month == b.month && a.day <= b.day)))
  }

  /** Days in the years before `y`, counted from 0001-01-01. */
  function DaysBeforeYear(y: int): int
    requires y >= 1
  {
    var n := y - 1;
    n * 365 + n / 4 - n / 100 + n / 400
  }

  /** Days in the months of year `y` before month `m`, accumulated month by month. */
  function DaysBeforeMonth(y: int, m: int): int
    requires 1 <= m <= 12
  {
    if m == 1 then 0 else DaysBeforeMonth(y, m - 1) + DaysInMonth(y, m - 1)
  }

  /** `date.toordinal()`: 0001-01-01 is day 1, 9999-12-31 (`date.max`) is day 3652059. */
  function Ordinal(d: Date): (n: int)
    ensures 1 <= n <= 3_652_059
  {
    DayOfYearBounds(d);
    YearsBefore(d.year, 10000);
    assert DaysBeforeYear(10000) == 3_652_059;
    DaysBeforeYear(d.year) + DaysBeforeMonth(d.year, d.month) + d.day
  }

  /** Python's leap-year rule is what makes consecutive year starts differ by the year length. */
  lemma YearStep(y: int)
    requires y >= 1
    ensures DaysBeforeYear(y + 1) == DaysBeforeYear(y) + DaysInYear(y)
  {
    var n := y - 1;
    DivStep(n, 4);
    DivStep(n, 100);
    DivStep(n, 400);
    Chain400(y);
    Chain100(y);
    var a := if y % 4 == 0 then 1 else 0;
    var b := if y % 100 == 0 then 1 else 0;
    var c := if y % 400 == 0 then 1 else 0;
    assert DaysBeforeYear(y + 1) == DaysBeforeYear(y) + 365 + a - b + c;
  }

  lemma Chain400(y: int)
    ensures y % 400 == 0 ==> y % 100 == 0
  {
    if y % 400 == 0 {
      var q := y / 400;
      assert y == 100 * (4 * q);
    }
  }

  lemma Chain100(y: int)
    ensures y % 100 == 0 ==> y % 4 == 0
  {
    if y % 100 == 0 {
      var q := y / 100;
      assert y == 4 * (25 * q);
    }
  }

  lemma DivStep(n: nat, k: int)
    requires k == 4 || k == 100 || k == 400
    ensures (n + 1) / k == n / k + (if (n + 1) % k == 0 then 1 else 0)
  {
    var q, r := n / k, n % k;
    assert n == k * q + r && 0 <= r < k;
    if r == k - 1 {
      assert n + 1 == k * (q + 1);
    } else {
      assert n + 1 == k * q + (r + 1);
    }
  }

  lemma {:induction false} MonthsBefore(y: int, m1: int, m2: int)
    requires 1 <= m1 < m2 <= 12
    ensures DaysBeforeMonth(y, m1) + DaysInMonth(y, m1) <= DaysBeforeMonth(y, m2)
  {
    if m2 > m1 + 1 {
      MonthsBefore(y, m1, m2 - 1);
    }
  }

  lemma DaysBeforeDecember(y: int)
    ensures DaysBeforeMonth(y, 12) + DaysInMonth(y, 12) == DaysInYear(y)
  {
    var leap := if IsLeapYear(y) then 1 else 0;
    assert DaysBeforeMonth(y, 2) == 31;
    assert DaysBeforeMonth(y, 3) == 59 + leap;
    assert DaysBeforeMonth(y, 4) == 90 + leap;
    assert DaysBeforeMonth(y, 5) == 120 + leap;
    assert DaysBeforeMonth(y, 6) == 151 + leap;
    assert DaysBeforeMonth(y, 7) == 181 + leap;
    assert DaysBeforeMonth(y, 8) == 212 + leap;
    assert DaysBeforeMonth(y, 9) == 243 + leap;
    assert DaysBeforeMonth(y, 10) == 273 + leap;
    assert DaysBeforeMonth(y, 11) == 304 + leap;
    assert DaysBeforeMonth(y, 12) == 334 + leap;
  }

  /** The day of the year lies between 1 and the length of the year. */
  lemma DayOfYearBounds(d: Date)
    ensures 1 <= DaysBeforeMonth(d.year, d.month) + d.day <= DaysInYear(d.year)
  {
    DaysBeforeDecember(d.year);
    if d.month < 12 {
      MonthsBefore(d.year, d.month, 12);
    }
    MonthsNonNegative(d.year, d.month);
  }

  lemma {:induction false} MonthsNonNegative(y: int, m: int)
    requires 1 <= m <= 12
    ensures DaysBeforeMonth(y, m) >= 0
  {
    if m > 1 {
      MonthsNonNegative(y, m - 1);
    }
  }

  lemma {:induction false} YearsBefore(y1: int, y2: int)
    requires 1 <= y1 < y2
    ensures DaysBeforeYear(y1) + DaysInYear(y1) <= DaysBeforeYear(y2)
    decreases y2 - y1
  {
    YearStep(y1);
    if y2 > y1 + 1 {
      YearsBefore(y1 + 1, y2);
    }
  }

  /** The ordinal numbering is strictly increasing along the calendar order. */
  lemma OrdinalIncreasing(a: Date, b: Date)
    requires DateLe(a, b) && a != b
    ensures Ordinal(a) < Ordinal(b)
  {
    DayOfYearBounds(a);
    DayOfYearBounds(b);
    if a.year < b.year {
      YearsBefore(a.year, b.year);
    } else if a.month < b.month {
      MonthsBefore(a.year, a.month, b.month);
    }
  }

  /** Comparing dates is comparing their ordinals. */
  lemma OrdinalOrder(a: Date, b: Date)
    ensures DateLe(a, b) <==> Ordinal(a) <= Ordinal(b)
  {
    if DateLe(a, b) && a != b {
      OrdinalIncreasing(a, b);
    } else if !DateLe(a, b) {
      OrdinalIncreasing(b, a);
    }
  }

  /** The day before `d`; 0001-01-01 has none. */
  function PrevDay(d: Date): (r: Date)
    requires Ordinal(d) > 1
    ensures Ordinal(r) == Ordinal(d) - 1
  {
    if d.day > 1 then
      CalendarDate(d.year, d.month, d.day - 1)
    else if d.month > 1 then
      CalendarDate(d.year, d.month - 1, DaysInMonth(d.year, d.month - 1))
    else
      assert d.year > 1;
      YearStep(d.year - 1);
      DaysBeforeDecember(d.year - 1);
      CalendarDate(d.year - 1, 12, 31)
  }

  /**
   * `d - timedelta(days=n)`: Python computes `date.fromordinal(d.toordinal() - n)` and
   * raises OverflowError when that ordinal falls before 0001-01-01.
   */
  function DaysBefore(d: Date, n: nat): (r: Date)
    requires Ordinal(d) > n
    ensures Ordinal(r) == Ordinal(d) - n
    decreases n
  {
    if n == 0 then d else DaysBefore(PrevDay(d), n - 1)
  }

  // ---- Text renderings, as Python's str() gives them ----

  function DigitChar(k: int): char
    requires 0 <= k < 10
  {
    "0123456789"[k]
  }

  /** The numeric value of a string of decimal digits. */
  function DecimalValue(s: string): int
    requires forall i :: 0 <= i < |s| ==> '0' <= s[i] <= '9'
  {
    if s == [] then 0 else DecimalValue(s[..|s| - 1]) * 10 + (s[|s| - 1] as int - '0' as int)
  }

  /** `str(n)` for a non-negative integer. */
  function NatText(n: nat): (s: string)
    ensures 1 <= |s|
    ensures forall i :: 0 <= i < |s| ==> '0' <= s[i] <= '9'
  {
    (if n < 10 then "" else NatText(n / 10)) + [DigitChar(n % 10)]
  }

  lemma {:induction false} NatTextValue(n: nat)
    ensures DecimalValue(NatText(n)) == n
  {
    var prefix := if n < 10 then "" else NatText(n / 10);
    var s := prefix + [DigitChar(n % 10)];
    assert NatText(n) == s;
    assert s[..|s| - 1] == prefix;
    assert s[|s| - 1] as int - '0' as int == n % 10;
    if n >= 10 {
      NatTextValue(n / 10);
    }
  }

  /** `str(n)` has no leading zero: it starts with '0' only for 0 itself. */
  lemma {:induction false} NatTextNoLeadingZero(n: nat)
    ensures NatText(n)[0] == '0' <==> n == 0
  {
    if n < 10 {
      assert NatText(n) == [DigitChar(n)];
      assert "0123456789"[0] == '0';
    } else {
      NatTextNoLeadingZero(n / 10);
      assert NatText(n)[0] == NatText(n / 10)[0];
    }
  }

  function Zeros(k: nat): (s: string)
    ensures |s| == k && forall i :: 0 <= i < k ==> s[i] == '0'
  {
    if k == 0 then "" else "0" + Zeros(k - 1)
  }

  function Power10(w: nat): nat {
    if w == 0 then 1 else 10 * Power10(w - 1)
  }

  lemma {:induction false} NatTextWidth(n: nat, w: nat)
    requires 1 <= w && n < Power10(w)
    ensures |NatText(n)| <= w
    decreases w
  {
    if n >= 10 {
      NatTextWidth(n / 10, w - 1);
    }
  }

  /** `"%0wd" % n` for a number that fits: its decimal digits, left-padded with zeros to width `w`. */
  function Padded(n: nat, w: nat): (s: string)
    requires 1 <= w && n < Power10(w)
    ensures |s| == w && |NatText(n)| <= w
    ensures s[w - |NatText(n)|..] == NatText(n)
    ensures forall i :: 0 <= i < w - |NatText(n)| ==> s[i] == '0'
    ensures forall i :: 0 <= i < w ==> '0' <= s[i] <= '9'
  {
    NatTextWidth(n, w);
    Zeros(w - |NatText(n)|) + NatText(n)
  }

  /** `str(date)`: the ISO form YYYY-MM-DD. */
  function DateText(d: Date): (s: string)
    ensures |s| == 10 && s[4] == '-' && s[7] == '-'
    ensures forall i :: 0 <= i < 10 && i != 4 && i != 7 ==> '0' <= s[i] <= '9'
  {
    assert Power10(4) == 10000;
    assert Power10(2) == 100;
    Padded(d.year, 4) + "-" + Padded(d.month, 2) + "-" + Padded(d.day, 2)
  }

  /** The hour, minute, second and microsecond of a time of day. */
  lemma TimeFields(t: TimeOfDay)
    ensures 0 <= t / MicrosPerHour < 24
    ensures 0 <= t / MicrosPerMinute % 60 < 60
    ensures 0 <= t / MicrosPerSecond % 60 < 60
    ensures 0 <= t % MicrosPerSecond < 1_000_000
  {
  }

  /** `str(time)`: HH:MM:SS, followed by .ffffff when the microseconds are not zero. */
  function TimeText(t: TimeOfDay): (s: string)
    ensures |s| == if t % MicrosPerSecond == 0 then 8 else 15
    ensures s[2] == ':' && s[5] == ':'
    ensures forall i :: 0 <= i < |s| && i != 2 && i != 5 && i != 8 ==> '0' <= s[i] <= '9'
  {
    TimeFields(t);
    assert Power10(2) == 100;
    assert Power10(6) == 1_000_000;
    var hh := Padded(t / MicrosPerHour, 2);
    var mm := Padded(t / MicrosPerMinute % 60, 2);
    var ss := Padded(t / MicrosPerSecond % 60, 2);
    var hms := hh + ":" + mm + ":" + ss;
    if t % MicrosPerSecond == 0 then hms else hms + "." + Padded(t % MicrosPerSecond, 6)
  }

  lemma {:induction false} ZerosValue(k: nat)
    ensures DecimalValue(Zeros(k)) == 0
  {
    if k > 0 {
      var z := Zeros(k);
      assert z[..k - 1] == Zeros(k - 1);
      ZerosValue(k - 1);
    }
  }

  /** Leading zeros do not change the value of a digit string. */
  lemma {:induction false} LeadingZeros(k: nat, t: string)
    requires forall i :: 0 <= i < |t| ==> '0' <= t[i] <= '9'
    ensures DecimalValue(Zeros(k) + t) == DecimalValue(t)
    decreases |t|
  {
    var z := Zeros(k);
    if t == [] {
      assert z + t == z;
      ZerosValue(k);
    } else {
      var u := z + t;
      assert u[..|u| - 1] == z + t[..|t| - 1];
      assert u[|u| - 1] == t[|t| - 1];
      LeadingZeros(k, t[..|t| - 1]);
    }
  }

  /** Reading a zero-padded field back gives the number. */
  lemma PaddedValue(n: nat, w: nat)
    requires 1 <= w && n < Power10(w)
    ensures DecimalValue(Padded(n, w)) == n
  {
    NatTextWidth(n, w);
    var k := w - |NatText(n)|;
    assert Padded(n, w) == Zeros(k) + NatText(n);
    LeadingZeros(k, NatText(n));
    NatTextValue(n);
  }

  /** The year, month and day can be read back from `str(date)`. */
  lemma DateTextFields(d: Date)
    ensures var s := DateText(d);
      DecimalValue(s[0..4]) == d.year && DecimalValue(s[5..7]) == d.month && DecimalValue(s[8..10]) == d.day
  {
    assert Power10(4) == 10000;
    assert Power10(2) == 100;
    var y, m, dd := Padded(d.year, 4), Padded(d.month, 2), Padded(d.day, 2);
    var s := DateText(d);
    assert s == y + "-" + m + "-" + dd;
    assert s[0..4] == y;
    assert s[5..7] == m;
    assert s[8..10] == dd;
    PaddedValue(d.year, 4);
    PaddedValue(d.month, 2);
    PaddedValue(d.day, 2);
  }

  lemma TimeSplit(t: TimeOfDay)
    ensures t / MicrosPerHour * MicrosPerHour + t / MicrosPerMinute % 60 * MicrosPerMinute +
      t / MicrosPerSecond % 60 * MicrosPerSecond + t % MicrosPerSecond == t
  {
    var us := t % MicrosPerSecond;
    var secs := t / MicrosPerSecond;
    var mins := secs / 60;
    assert t == secs * MicrosPerSecond + us;
    assert secs == mins * 60 + secs % 60;
    assert t / MicrosPerMinute == mins;
    assert mins == t / MicrosPerHour * 60 + mins % 60;
  }

  lemma ColonFields(a: string, b: string, c: string, rest: string)
    requires |a| == 2 && |b| == 2 && |c| == 2
    ensures var s := a + ":" + b + ":" + c + rest;
      s[0..2] == a && s[3..5] == b && s[6..8] == c && s[8..] == rest
  {
  }

  /** The hour, minute and second fields of `str(time)`. */
  lemma TimeTextClock(t: TimeOfDay)
    ensures var s := TimeText(t);
      DecimalValue(s[0..2]) == t / MicrosPerHour &&
      DecimalValue(s[3..5]) == t / MicrosPerMinute % 60 &&
      DecimalValue(s[6..8]) == t / MicrosPerSecond % 60
  {
    TimeFields(t);
    assert Power10(2) == 100;
    assert Power10(6) == 1_000_000;
    var h, m, sec, us := t / MicrosPerHour, t / MicrosPerMinute % 60, t / MicrosPerSecond % 60, t % MicrosPerSecond;
    var rest := if us == 0 then "" else "." + Padded(us, 6);
    assert TimeText(t) == Padded(h, 2) + ":" + Padded(m, 2) + ":" + Padded(sec, 2) + rest;
    ColonFields(Padded(h, 2), Padded(m, 2), Padded(sec, 2), rest);
    PaddedValue(h, 2);
    PaddedValue(m, 2);
    PaddedValue(sec, 2);
  }

  /** The fraction field of `str(time)`, present when the microseconds are not zero. */
  lemma TimeTextFraction(t: TimeOfDay)
    requires t % MicrosPerSecond != 0
    ensures var s := TimeText(t);
      s[8] == '.' && DecimalValue(s[9..15]) == t % MicrosPerSecond
  {
    TimeFields(t);
    assert Power10(2) == 100;
    assert Power10(6) == 1_000_000;
    var hms := Padded(t / MicrosPerHour, 2) + ":" + Padded(t / MicrosPerMinute % 60, 2) + ":" +
      Padded(t / MicrosPerSecond % 60, 2);
    var us := Padded(t % MicrosPerSecond, 6);
    assert TimeText(t) == hms + "." + us;
    assert (hms + "." + us)[9..15] == us;
    PaddedValue(t % MicrosPerSecond, 6);
  }

  /** The time of day can be read back from `str(time)`. */
  lemma TimeTextFields(t: TimeOfDay)
    ensures var s := TimeText(t);
      var hms := DecimalValue(s[0..2]) * MicrosPerHour + DecimalValue(s[3..5]) * MicrosPerMinute +
        DecimalValue(s[6..8]) * MicrosPerSecond;
      if t % MicrosPerSecond == 0 then hms == t else s[8] == '.' && hms + DecimalValue(s[9..15]) == t
  {
    TimeSplit(t);
    TimeTextClock(t);
    if t % MicrosPerSecond != 0 {
      TimeTextFraction(t);
    }
  }
}
