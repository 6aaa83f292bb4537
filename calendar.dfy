/** Proleptic Gregorian dates, day arithmetic and the `%Y%m%d` / `%H` formats used for ids and tags. */
module Calendar {
  import opened Wrappers
  import opened PyStr

  datatype Date = Date(year: int, month: int, day: int)

  /** A date and an hour of the day; minutes and seconds play no part in the modelled code. */
  datatype DateHour = DateHour(date: Date, hour: int)

  predicate IsLeap(y: int) {
    (y % 4 == 0 && y % 100 != 0) || y % 400 == 0
  }

  function DaysInMonth(y: int, m: int): int
    requires 1 <= m <= 12
  {
    if m == 2 then (if IsLeap(y) then 29 else 28)
    else if m == 4 || m == 6 || m == 9 || m == 11 then 30
    else 31
  }

  predicate Valid(d: Date) {
    1 <= d.month <= 12 && 1 <= d.day <= DaysInMonth(d.year, d.month)
  }

  predicate ValidDateHour(t: DateHour) {
    Valid(t.date) && 0 <= t.hour < 24
  }

  function NextDay(d: Date): (r: Date)
    requires Valid(d)
    ensures Valid(r)
  {
    if d.day < DaysInMonth(d.year, d.month) then Date(d.year, d.month, d.day + 1)
    else if d.month < 12 then Date(d.year, d.month + 1, 1)
    else Date(d.year + 1, 1, 1)
  }

  function PrevDay(d: Date): (r: Date)
    requires Valid(d)
    ensures Valid(r)
  {
    if d.day > 1 then Date(d.year, d.month, d.day - 1)
    else if d.month > 1 then Date(d.year, d.month - 1, DaysInMonth(d.year, d.month - 1))
    else Date(d.year - 1, 12, 31)
  }

  lemma NextOfPrev(d: Date)
    requires Valid(d)
    ensures NextDay(PrevDay(d)) == d
  {
  }

  lemma PrevOfNext(d: Date)
    requires Valid(d)
    ensures PrevDay(NextDay(d)) == d
  {
  }

  /** Strict chronological order. */
  predicate Before(a: Date, b: Date) {
    a.year < b.year || (a.year == b.year && (a.month < b.month || (a.month == b.month && a.day < b.day)))
  }

  lemma NextDayAfter(d: Date)
    requires Valid(d)
    ensures Before(d, NextDay(d))
  {
  }

  /** `d + timedelta(days=k)`. */
  function AddDays(d: Date, k: int): (r: Date)
    requires Valid(d)
    ensures Valid(r)
    decreases if k >= 0 then k else -k
  {
    if k == 0 then d
    else if k > 0 then NextDay(AddDays(d, k - 1))
    else PrevDay(AddDays(d, k + 1))
  }

  /** Adding one more day is taking the next day, for negative offsets too. */
  lemma AddDaysSucc(d: Date, k: int)
    requires Valid(d)
    ensures AddDays(d, k + 1) == NextDay(AddDays(d, k))
  {
    if k < 0 {
      NextOfPrev(AddDays(d, k + 1));
    }
  }

  lemma {:induction false} AddDaysMonotone(d: Date, j: int, k: int)
    requires Valid(d) && j < k
    ensures Before(AddDays(d, j), AddDays(d, k))
    decreases k - j
  {
    AddDaysSucc(d, k - 1);
    NextDayAfter(AddDays(d, k - 1));
    if j < k - 1 {
      AddDaysMonotone(d, j, k - 1);
    }
  }

  /** Different offsets from one date give different dates. */
  lemma AddDaysInjective(d: Date, j: int, k: int)
    requires Valid(d) && AddDays(d, j) == AddDays(d, k)
    ensures j == k
  {
    if j < k {
      AddDaysMonotone(d, j, k);
    } else if k < j {
      AddDaysMonotone(d, k, j);
    }
  }

  /** `n` in decimal, zero-padded on the left to at least `width` characters. */
  function Pad(n: nat, width: nat): (r: string)
    ensures |r| >= width
    ensures IsDigits(r)
  {
    var s := NatToStr(n);
    if |s| >= width then s else Zeros(width - |s|) + s
  }

  function Zeros(k: nat): (r: string)
    ensures |r| == k && forall i :: 0 <= i < k ==> r[i] == '0'
  {
    if k == 0 then "" else "0" + Zeros(k - 1)
  }

  /** `strftime('%Y%m%d')` for years 0 to 9999. */
  function FormatYmd(d: Date): (r: string)
    requires Valid(d) && 0 <= d.year
    ensures IsDigits(r)
  {
    Pad(d.year, 4) + Pad(d.month, 2) + Pad(d.day, 2)
  }

  /** `strftime('%Y%m%d%H')`. */
  function FormatYmdH(t: DateHour): (r: string)
    requires ValidDateHour(t) && 0 <= t.date.year
    ensures IsDigits(r)
  {
    FormatYmd(t.date) + Pad(t.hour, 2)
  }

  /** `t - timedelta(hours=h)` for 0 <= h < 24. */
  function SubHours(t: DateHour, h: int): (r: DateHour)
    requires ValidDateHour(t) && 0 <= h < 24
    ensures ValidDateHour(r)
    ensures t.hour >= h ==> r == DateHour(t.date, t.hour - h)
    ensures t.hour < h ==> r == DateHour(PrevDay(t.date), t.hour + 24 - h)
  {
    if t.hour >= h then DateHour(t.date, t.hour - h) else DateHour(PrevDay(t.date), t.hour + 24 - h)
  }

  /** `t + timedelta(hours=h)` for any number of hours. */
  function AddHours(t: DateHour, h: int): (r: DateHour)
    requires ValidDateHour(t)
    ensures ValidDateHour(r)
  {
    var total := t.hour + h;
    DateHour(AddDays(t.date, total / 24), total % 24)
  }

  /** Different hour offsets from one instant give different instants. */
  lemma AddHoursInjective(t: DateHour, h1: int, h2: int)
    requires ValidDateHour(t) && AddHours(t, h1) == AddHours(t, h2)
    ensures h1 == h2
  {
    var a, b := t.hour + h1, t.hour + h2;
    AddDaysInjective(t.date, a / 24, b / 24);
    assert a == (a / 24) * 24 + a % 24;
    assert b == (b / 24) * 24 + b % 24;
  }

  function DigitVal(c: char): nat
    requires IsDigit(c)
  {
    c as int - '0' as int
  }

  /**
   * `%d` at `i`, the regular expression `3[01]|[12]\d|0[1-9]|[1-9]| [1-9]`: nothing follows it in
   * the pattern, so the first alternative that matches is taken. The day and the width read.
   */
  function DayAt(s: string, i: nat): (r: Option<(int, nat)>)
    requires i <= |s|
    ensures r.Some? ==> 1 <= r.value.0 <= 31 && 1 <= r.value.1 <= 2 && i + r.value.1 <= |s|
  {
    if i + 2 <= |s| && s[i] == '3' && (s[i + 1] == '0' || s[i + 1] == '1') then Some((30 + DigitVal(s[i + 1]), 2))
    else if i + 2 <= |s| && (s[i] == '1' || s[i] == '2') && IsDigit(s[i + 1]) then Some((DigitVal(s[i]) * 10 + DigitVal(s[i + 1]), 2))
    else if i + 2 <= |s| && s[i] == '0' && '1' <= s[i + 1] <= '9' then Some((DigitVal(s[i + 1]), 2))
    else if i + 1 <= |s| && '1' <= s[i] <= '9' then Some((DigitVal(s[i]), 1))
    else if i + 2 <= |s| && s[i] == ' ' && '1' <= s[i + 1] <= '9' then Some((DigitVal(s[i + 1]), 2))
    else None
  }

  /**
   * `%m%d` at `i`: the month is `1[0-2]|0[1-9]|[1-9]`, and the regular expression falls back to
   * the one-digit month only when no day can follow the two-digit one. The month, the day and
   * where the match ends.
   */
  function MonthDayAt(s: string, i: nat): (r: Option<(int, int, nat)>)
    requires i <= |s|
    ensures r.Some? ==> 1 <= r.value.0 <= 12 && 1 <= r.value.1 <= 31 && i + 2 <= r.value.2 <= i + 4 && r.value.2 <= |s|
  {
    var two := i + 2 <= |s| && ((s[i] == '1' && '0' <= s[i + 1] <= '2') || (s[i] == '0' && '1' <= s[i + 1] <= '9'));
    if two && DayAt(s, i + 2).Some? then
      var (d, w) := DayAt(s, i + 2).value;
      Some((DigitVal(s[i]) * 10 + DigitVal(s[i + 1]), d, i + 2 + w))
    else if i + 1 <= |s| && '1' <= s[i] <= '9' && DayAt(s, i + 1).Some? then
      var (d, w) := DayAt(s, i + 1).value;
      Some((DigitVal(s[i]), d, i + 1 + w))
    else None
  }

  /** The four digits `%Y` reads. */
  function Year4(s: string): (y: nat)
    requires |s| >= 4 && IsDigits(s[..4])
    ensures y <= 9999
  {
    assert forall k :: 0 <= k < 4 ==> s[..4][k] == s[k];
    ((DigitVal(s[0]) * 10 + DigitVal(s[1])) * 10 + DigitVal(s[2])) * 10 + DigitVal(s[3])
  }

  /**
   * `datetime.strptime(s, '%Y%m%d')`: `%Y` is four digits, the month and day as above; the match
   * must reach the end of `s` and be a date `datetime` accepts (year 1 or later, a day of the
   * month). None where it raises ValueError. Widths vary, so `2024111` reads as 1 November 2024.
   */
  function ParseYmd(s: string): (r: Option<Date>)
    ensures r.Some? ==> Valid(r.value) && 1 <= r.value.year <= 9999
    ensures r.Some? ==> 6 <= |s| <= 8 && IsDigits(s[..4]) && r.value.year == Year4(s)
  {
    if |s| < 4 || !IsDigits(s[..4]) then None
    else
      var y := Year4(s);
      match MonthDayAt(s, 4)
      case None => None
      case Some((m, d, end)) =>
        if end == |s| && 1 <= y && d <= DaysInMonth(y, m) then Some(Date(y, m, d)) else None
  }

  /** The fixed-width reading of eight digits as year, month and day; None when not a valid date. */
  function FixedYmd(s: string): (r: Option<Date>)
    requires |s| == 8 && IsDigits(s)
    ensures r.Some? ==> Valid(r.value) && 1 <= r.value.year <= 9999
  {
    var y := ((DigitVal(s[0]) * 10 + DigitVal(s[1])) * 10 + DigitVal(s[2])) * 10 + DigitVal(s[3]);
    var m := DigitVal(s[4]) * 10 + DigitVal(s[5]);
    var d := DigitVal(s[6]) * 10 + DigitVal(s[7]);
    if 1 <= y && 1 <= m <= 12 && 1 <= d <= DaysInMonth(y, m) then Some(Date(y, m, d)) else None
  }

  /** On eight digits the variable-width match is the fixed-width reading. */
  lemma ParseYmdEightDigits(s: string)
    requires |s| == 8 && IsDigits(s)
    ensures ParseYmd(s) == FixedYmd(s)
  {
    assert IsDigits(s[..4]) by {
      forall k | 0 <= k < 4 ensures IsDigit(s[..4][k]) {
        assert s[..4][k] == s[k];
      }
    }
    assert forall k :: 0 <= k < 8 ==> IsDigit(s[k]);
  }

  lemma Pad2Digits(n: nat)
    requires n < 100
    ensures Pad(n, 2) == [DigitChar(n / 10), DigitChar(n % 10)]
  {
    if n >= 10 {
      assert NatToStr(n / 10) == [DigitChar(n / 10)];
    } else {
      assert Pad(n, 2) == Zeros(1) + [DigitChar(n)];
    }
  }

  lemma Pad4Digits(n: nat)
    requires n < 10000
    ensures var n1 := n / 10; var n2 := n1 / 10; var n3 := n2 / 10;
      n3 < 10 && Pad(n, 4) == [DigitChar(n3), DigitChar(n2 % 10), DigitChar(n1 % 10), DigitChar(n % 10)]
  {
    var n1 := n / 10;
    var n2 := n1 / 10;
    var n3 := n2 / 10;
    if n >= 1000 {
      assert NatToStr(n3) == [DigitChar(n3)];
      assert NatToStr(n2) == NatToStr(n3) + [DigitChar(n2 % 10)];
      assert NatToStr(n1) == NatToStr(n2) + [DigitChar(n1 % 10)];
    } else if n >= 100 {
      assert n3 == 0;
      assert NatToStr(n2) == [DigitChar(n2)];
      assert NatToStr(n1) == NatToStr(n2) + [DigitChar(n1 % 10)];
      assert Pad(n, 4) == Zeros(1) + NatToStr(n);
    } else if n >= 10 {
      assert n3 == 0 && n2 == 0;
      assert NatToStr(n1) == [DigitChar(n1)];
      assert Pad(n, 4) == Zeros(2) + NatToStr(n);
    } else {
      assert n3 == 0 && n2 == 0 && n1 == 0;
      assert Pad(n, 4) == Zeros(3) + NatToStr(n);
    }
  }

  /** Reading back a formatted date gives the date again, for the years `datetime` supports. */
  lemma ParseOfFormat(d: Date)
    requires Valid(d) && 1 <= d.year <= 9999
    ensures ParseYmd(FormatYmd(d)) == Some(d)
  {
    Pad4Digits(d.year);
    Pad2Digits(d.month);
    Pad2Digits(d.day);
    var s := FormatYmd(d);
    ParseYmdEightDigits(s);
    var n1 := d.year / 10;
    var n2 := n1 / 10;
    var n3 := n2 / 10;
    assert s[0] == DigitChar(n3) && s[1] == DigitChar(n2 % 10) && s[2] == DigitChar(n1 % 10) && s[3] == DigitChar(d.year % 10);
    assert ((n3 * 10 + n2 % 10) * 10 + n1 % 10) * 10 + d.year % 10 == d.year;
    assert s[4] == DigitChar(d.month / 10) && s[5] == DigitChar(d.month % 10);
    assert s[6] == DigitChar(d.day / 10) && s[7] == DigitChar(d.day % 10);
  }

  /** Formatting tells dates apart. */
  lemma FormatInjective(a: Date, b: Date)
    requires Valid(a) && Valid(b) && 1 <= a.year <= 9999 && 1 <= b.year <= 9999
    requires FormatYmd(a) == FormatYmd(b)
    ensures a == b
  {
    ParseOfFormat(a);
    ParseOfFormat(b);
  }

  /** `%Y%m%d%H` tells instants apart, for the years `datetime` supports. */
  lemma FormatYmdHInjective(a: DateHour, b: DateHour)
    requires ValidDateHour(a) && ValidDateHour(b) && 1 <= a.date.year <= 9999 && 1 <= b.date.year <= 9999
    requires FormatYmdH(a) == FormatYmdH(b)
    ensures a == b
  {
    FormatYmdLength(a.date);
    FormatYmdLength(b.date);
    var fa, fb := FormatYmd(a.date), FormatYmd(b.date);
    assert fa == FormatYmdH(a)[..8] && fb == FormatYmdH(b)[..8];
    FormatInjective(a.date, b.date);
    Pad2Digits(a.hour);
    Pad2Digits(b.hour);
    assert Pad(a.hour, 2) == FormatYmdH(a)[8..] && Pad(b.hour, 2) == FormatYmdH(b)[8..];
    assert a.hour == (a.hour / 10) * 10 + a.hour % 10;
    assert b.hour == (b.hour / 10) * 10 + b.hour % 10;
  }

  lemma FormatYmdLength(d: Date)
    requires Valid(d) && 0 <= d.year <= 9999
    ensures |FormatYmd(d)| == 8
  {
    Pad4Digits(d.year);
    Pad2Digits(d.month);
    Pad2Digits(d.day);
  }
}
