/** The texts of IsoTime read back with the Gregorian calendar: a closed count of days over years that start
    in March, and the month lengths of section 5.7 of RFC 3339. */
module Gregorian {
  import opened IsoTime

  /** January to December of a common year. */
  const LENGTHS: seq<int> := [31, 28, 31, 30, 31, 30, 31, 31, 30, 31, 30, 31]

  /** A date of the Gregorian calendar. */
  predicate IsDate(d: Date) {
    && d.year >= 1 && 1 <= d.month <= 12 && 1 <= d.day
    && (d.day <= LENGTHS[d.month - 1]
        || (d.month == 2 && d.day == 29 && d.year % 4 == 0 && (d.year % 100 == 0 ==> d.year % 400 == 0)))
  }

  /** The number of a day, 1 for 1 January of year 1, without a table: years count from March, so that the leap
      day comes last and five months always have 153 days. */
  function CivilDay(d: Date): int {
    var y := if d.month <= 2 then d.year - 1 else d.year;
    var m := (d.month + 9) % 12;
    365 * y + y / 4 - y / 100 + y / 400 + (153 * m + 2) / 5 + d.day - 306
  }

  lemma MonthStart(year: int, month: int)
    requires 1 <= month <= 12
    ensures DaysBeforeMonth(year, month)
            == if month <= 2 then 31 * (month - 1)
               else YearLength(year) + (153 * ((month + 9) % 12) + 2) / 5 - 306
  {
    assert DaysBeforeMonth(year, 3) == 31 + DaysIn(year, 2);
    assert DaysBeforeMonth(year, 6) == DaysBeforeMonth(year, 3) + 92;
    assert DaysBeforeMonth(year, 9) == DaysBeforeMonth(year, 6) + 92;
  }

  /** The day number that the calendar adds up month by month is the closed count. */
  lemma DayCountsAgree(d: Date)
    requires ValidDate(d)
    ensures Ordinal(d) == CivilDay(d)
  {
    MonthStart(d.year, d.month);
    YearsAddUp(d.year);
    hide DaysBeforeMonth, DaysIn, YearLength, Leap;
    if d.month <= 2 {
      assert (d.month + 9) % 12 == d.month + 9;
      assert (153 * (d.month + 9) + 2) / 5 == 306 + 31 * (d.month - 1);
    } else {
      assert DaysBeforeYear(d.year + 1) == 365 * d.year + d.year / 4 - d.year / 100 + d.year / 400;
    }
  }

  lemma ValidIsDate(d: Date)
    ensures ValidDate(d) <==> IsDate(d)
  {
  }

  /** The date of a day number is the one Gregorian date with that number. */
  lemma DateOfIsGregorian(n: nat, d: Date)
    requires n >= 1
    ensures IsDate(DateOf(n)) && CivilDay(DateOf(n)) == n
    ensures IsDate(d) && CivilDay(d) == n ==> d == DateOf(n)
  {
    DateOfOrdinal(n);
    ValidIsDate(DateOf(n));
    ValidIsDate(d);
    DayCountsAgree(DateOf(n));
    if IsDate(d) && CivilDay(d) == n {
      DayCountsAgree(d);
      DateOrderIsDayOrder(d, DateOf(n));
    }
  }

  // ---- Reading a text back ---------------------------------------------------------------------

  predicate IsDigit(c: char) { '0' <= c <= '9' }

  /** A number in decimal digits. */
  function Number(s: string): int {
    if s == "" then 0 else 10 * Number(s[..|s| - 1]) + (s[|s| - 1] as int - '0' as int)
  }

  /** YYYY-MM-DDTHH:MM:SSZ, as section 5.6 of RFC 3339 writes it. */
  predicate IsStamp(s: string) {
    && |s| == 20 && s[4] == '-' && s[7] == '-' && s[10] == 'T' && s[13] == ':' && s[16] == ':' && s[19] == 'Z'
    && (forall i :: 0 <= i < 20 && i !in {4, 7, 10, 13, 16, 19} ==> IsDigit(s[i]))
    && IsDate(DateIn(s)) && Number(s[11..13]) < 24 && Number(s[14..16]) < 60 && Number(s[17..19]) < 60
  }

  function DateIn(s: string): Date
    requires |s| == 20
  {
    Date(Number(s[0..4]), Number(s[5..7]), Number(s[8..10]))
  }

  /** The instant a text stands for, in seconds since the start of year 1. */
  function InstantOf(s: string): int
    requires |s| == 20
  {
    (CivilDay(DateIn(s)) - 1) * 86_400 + Number(s[11..13]) * 3_600 + Number(s[14..16]) * 60 + Number(s[17..19])
  }

  lemma {:induction false} DigitsReadBack(n: nat, width: nat)
    requires n < Power10(width)
    ensures Number(Digits(n, width)) == n && forall i :: 0 <= i < width ==> IsDigit(Digits(n, width)[i])
    decreases width
  {
    if width > 0 {
      DigitsReadBack(n / 10, width - 1);
      var s := Digits(n, width);
      assert s[..width - 1] == Digits(n / 10, width - 1);
    }
  }

  lemma DateTextReadsBack(d: Date)
    requires ValidDate(d) && d.year <= 9999
    ensures var s := DateText(d);
            && s[4] == '-' && s[7] == '-'
            && Number(s[0..4]) == d.year && Number(s[5..7]) == d.month && Number(s[8..10]) == d.day
            && forall i :: 0 <= i < 10 && i !in {4, 7} ==> IsDigit(s[i])
  {
    assert Power10(2) == 100 && Power10(4) == 10000;
    DigitsReadBack(d.year, 4);
    DigitsReadBack(d.month, 2);
    DigitsReadBack(d.day, 2);
    var y, m, n := Digits(d.year, 4), Digits(d.month, 2), Digits(d.day, 2);
    hide Digits, Number;
    var s := DateText(d);
    assert s[0..4] == y && s[5..7] == m && s[8..10] == n;
    forall i | 0 <= i < 10 && i !in {4, 7}
      ensures IsDigit(s[i])
    {
      if i < 4 {
        assert s[i] == y[i];
      } else if i < 7 {
        assert s[i] == m[i - 5];
      } else {
        assert s[i] == n[i - 8];
      }
    }
  }

  lemma ClockTextReadsBack(h: nat, m: nat, s: nat)
    requires h < 100 && m < 100 && s < 100
    ensures var c := ClockText(h, m, s);
            && c[0] == 'T' && c[3] == ':' && c[6] == ':' && c[9] == 'Z'
            && Number(c[1..3]) == h && Number(c[4..6]) == m && Number(c[7..9]) == s
            && forall i :: 0 <= i < 10 && i !in {0, 3, 6, 9} ==> IsDigit(c[i])
  {
    assert Power10(2) == 100;
    DigitsReadBack(h, 2);
    DigitsReadBack(m, 2);
    DigitsReadBack(s, 2);
    var x, y, z := Digits(h, 2), Digits(m, 2), Digits(s, 2);
    hide Digits, Number;
    var c := ClockText(h, m, s);
    assert c[1..3] == x && c[4..6] == y && c[7..9] == z;
    forall i | 0 <= i < 10 && i !in {0, 3, 6, 9}
      ensures IsDigit(c[i])
    {
      if i < 3 {
        assert c[i] == x[i - 1];
      } else if i < 6 {
        assert c[i] == y[i - 4];
      } else {
        assert c[i] == z[i - 7];
      }
    }
  }

  /** A date half and a time half of a text, with what they say. */
  predicate ReadsDate(a: string, d: Date) {
    && |a| == 10 && a[4] == '-' && a[7] == '-'
    && Number(a[0..4]) == d.year && Number(a[5..7]) == d.month && Number(a[8..10]) == d.day
    && forall i :: 0 <= i < 10 && i !in {4, 7} ==> IsDigit(a[i])
  }

  predicate ReadsTime(b: string, h: int, m: int, s: int) {
    && |b| == 10 && b[0] == 'T' && b[3] == ':' && b[6] == ':' && b[9] == 'Z'
    && Number(b[1..3]) == h && Number(b[4..6]) == m && Number(b[7..9]) == s
    && forall i :: 0 <= i < 10 && i !in {0, 3, 6, 9} ==> IsDigit(b[i])
  }

  lemma StampParts(a: string, b: string, d: Date, h: int, m: int, s: int)
    requires ReadsDate(a, d) && ReadsTime(b, h, m, s)
    requires IsDate(d) && h < 24 && m < 60 && s < 60
    ensures IsStamp(a + b) && InstantOf(a + b) == (CivilDay(d) - 1) * 86_400 + h * 3_600 + m * 60 + s
  {
    hide IsDate, CivilDay, Number, IsDigit;
    var text := a + b;
    assert text[0..4] == a[0..4] && text[5..7] == a[5..7] && text[8..10] == a[8..10];
    assert text[11..13] == b[1..3] && text[14..16] == b[4..6] && text[17..19] == b[7..9];
    assert DateIn(text) == d;
    forall i | 0 <= i < 20 && i !in {4, 7, 10, 13, 16, 19}
      ensures IsDigit(text[i])
    {
      if i < 10 {
        assert text[i] == a[i];
      } else {
        assert text[i] == b[i - 10];
      }
    }
  }

  lemma DateHalf(d: Date)
    requires ValidDate(d) && d.year <= 9999
    ensures ReadsDate(DateText(d), d)
  {
    DateTextReadsBack(d);
  }

  lemma TimeHalf(s: nat)
    requires s < 86_400
    ensures ReadsTime(TimeText(s), s / 3600, s / 60 % 60, s % 60)
    ensures s / 3600 < 24 && s == s / 3600 * 3600 + s / 60 % 60 * 60 + s % 60
  {
    ClockTextReadsBack(s / 3600, s / 60 % 60, s % 60);
    ClockParts(s);
  }

  lemma StampReadsBack(n: nat, s: nat)
    requires 1 <= n <= END_OF_TIME / DAY && s < 86_400 && ValidDate(DateOf(n))
    ensures IsStamp(DateText(DateOf(n)) + TimeText(s))
    ensures InstantOf(DateText(DateOf(n)) + TimeText(s)) == (n - 1) * 86_400 + s
  {
    DateOfIsGregorian(n, DateOf(n));
    FourDigitYear(n);
    DateHalf(DateOf(n));
    TimeHalf(s);
    hide DateText, TimeText, ReadsDate, ReadsTime, IsStamp, InstantOf, CivilDay, IsDate, DateOf, ValidDate;
    StampParts(DateText(DateOf(n)), TimeText(s), DateOf(n), s / 3600, s / 60 % 60, s % 60);
  }

  /** Every stored text is a well-formed one, and it reads back to its instant. */
  lemma TextReadsBack(t: nat)
    requires t < END_OF_TIME
    ensures IsStamp(IsoOf(t)) && InstantOf(IsoOf(t)) == t
  {
    DateOfOrdinal(t / DAY + 1);
    StampReadsBack(t / DAY + 1, t % DAY);
    hide IsStamp, InstantOf, DateText, TimeText, DateOf, ValidDate, Ordinal;
  }

  /** The years that fit are 1 to 9999. */
  lemma TimeEndsWithYear9999()
    ensures (CivilDay(Date(9999, 12, 31)) - 1) * 86_400 + 86_399 == END_OF_TIME - 1
    ensures CivilDay(Date(1, 1, 1)) == 1
  {
  }

  /** What the scheduler stores: the current, an earlier, a later and a requested instant, in microseconds, rounded
      down to whole seconds. A requested time is local to the offset it was given with. */
  lemma StampsAreWholeSeconds(now: int, seconds: int, requested: Parsed)
    requires Representable(now) && Representable(now + seconds * 1_000_000) && Representable(now - seconds * 1_000_000)
    requires Representable(UtcOf(requested))
    ensures IsStamp(NowIso(now)) && 0 <= now - InstantOf(NowIso(now)) * 1_000_000 < 1_000_000
    ensures var later := now + seconds * 1_000_000;
            IsStamp(FutureIso(now, seconds)) && 0 <= later - InstantOf(FutureIso(now, seconds)) * 1_000_000 < 1_000_000
    ensures var earlier := now - seconds * 1_000_000;
            IsStamp(PastIso(now, seconds)) && 0 <= earlier - InstantOf(PastIso(now, seconds)) * 1_000_000 < 1_000_000
    ensures var offset := if requested.offset.Some? then requested.offset.value else 0;
            var utc := requested.local - offset;
            IsStamp(ScheduleIso(requested)) && 0 <= utc - InstantOf(ScheduleIso(requested)) * 1_000_000 < 1_000_000
  {
    TextReadsBack(now / 1_000_000);
    TextReadsBack((now + seconds * 1_000_000) / 1_000_000);
    TextReadsBack((now - seconds * 1_000_000) / 1_000_000);
    TextReadsBack(UtcOf(requested) / 1_000_000);
    hide IsoOf, IsStamp, InstantOf;
  }
}
