/** The UTC texts of services/draft_service.py: `_now_iso`, `_past_iso`, `_future_iso`, `_schedule_iso`.
    They are compared as text in SQL, so text order has to be time order (section 5.1 of RFC 3339). */
module IsoTime {
  import opened Common

  // ---- The calendar --------------------------------------------------------------------------

  datatype Date = Date(year: int, month: int, day: int)

  predicate Leap(year: int) { year % 4 == 0 && (year % 100 != 0 || year % 400 == 0) }

  function DaysIn(year: int, month: int): int {
    if month == 2 then (if Leap(year) then 29 else 28)
    else if month in {4, 6, 9, 11} then 30 else 31
  }

  predicate ValidDate(d: Date) {
    1 <= d.year && 1 <= d.month <= 12 && 1 <= d.day <= DaysIn(d.year, d.month)
  }

  /** Days before 1 January of the year, from 1 January of year 1. */
  function DaysBeforeYear(year: int): int { (year - 1) * 365 + (year - 1) / 4 - (year - 1) / 100 + (year - 1) / 400 }

  function DaysBeforeMonth(year: int, month: int): int
    decreases month
  {
    if month <= 1 then 0 else DaysBeforeMonth(year, month - 1) + DaysIn(year, month - 1)
  }

  /** The day number of a date; 1 January of year 1 is day 1. */
  function Ordinal(d: Date): int { DaysBeforeYear(d.year) + DaysBeforeMonth(d.year, d.month) + d.day }

  function NextDay(d: Date): Date {
    if d.day < DaysIn(d.year, d.month) then Date(d.year, d.month, d.day + 1)
    else if d.month < 12 then Date(d.year, d.month + 1, 1)
    else Date(d.year + 1, 1, 1)
  }

  function YearLength(year: int): int { if Leap(year) then 366 else 365 }

  /** Dividing by `n` steps up exactly at the multiples of `n`. */
  lemma DivisionStep(x: int, n: int)
    requires n > 0
    ensures x / n - (x - 1) / n == if x % n == 0 then 1 else 0
  {
    var q, r := x / n, x % n;
    assert x == q * n + r && 0 <= r < n;
    if r == 0 {
      assert x - 1 == (q - 1) * n + (n - 1);
      QuotientIs(x - 1, n, q - 1, n - 1);
    } else {
      assert x - 1 == q * n + (r - 1);
      QuotientIs(x - 1, n, q, r - 1);
    }
  }

  lemma QuotientIs(x: int, n: int, q: int, r: int)
    requires n > 0 && x == q * n + r && 0 <= r < n
    ensures x / n == q && x % n == r
  {
    var d := x / n - q;
    assert x == (x / n) * n + x % n;
    assert d * n == r - x % n;
    assert d >= 1 ==> d * n >= n;
    assert d <= -1 ==> d * n <= -n;
  }

  lemma YearsAddUp(year: int)
    ensures DaysBeforeYear(year + 1) == DaysBeforeYear(year) + YearLength(year)
  {
    DivisionStep(year, 4);
    DivisionStep(year, 100);
    DivisionStep(year, 400);
  }

  lemma MonthsAddUp(year: int)
    ensures DaysBeforeMonth(year, 12) + DaysIn(year, 12) == YearLength(year)
  {
    assert DaysBeforeMonth(year, 3) == 31 + DaysIn(year, 2);
    assert DaysBeforeMonth(year, 6) == DaysBeforeMonth(year, 3) + 92;
    assert DaysBeforeMonth(year, 9) == DaysBeforeMonth(year, 6) + 92;
    assert DaysBeforeMonth(year, 12) == DaysBeforeMonth(year, 9) + 91;
  }

  lemma NextDayIsNext(d: Date)
    requires ValidDate(d)
    ensures ValidDate(NextDay(d)) && Ordinal(NextDay(d)) == Ordinal(d) + 1
  {
    if d.day == DaysIn(d.year, d.month) && d.month == 12 {
      YearsAddUp(d.year);
      MonthsAddUp(d.year);
    }
  }

  /** The date of a day number, counting up from day 1. */
  function DateOf(n: nat): (d: Date)
    requires n >= 1
  {
    if n == 1 then Date(1, 1, 1) else NextDay(DateOf(n - 1))
  }

  lemma {:induction false} DateOfOrdinal(n: nat)
    requires n >= 1
    ensures ValidDate(DateOf(n)) && Ordinal(DateOf(n)) == n
  {
    if n > 1 {
      DateOfOrdinal(n - 1);
      NextDayIsNext(DateOf(n - 1));
    }
  }

  predicate DateLess(a: Date, b: Date) {
    a.year < b.year || (a.year == b.year && (a.month < b.month || (a.month == b.month && a.day < b.day)))
  }

  lemma {:induction false} MonthsGrow(year: int, a: int, b: int)
    requires 1 <= a < b
    ensures DaysBeforeMonth(year, a) + DaysIn(year, a) <= DaysBeforeMonth(year, b)
    decreases b
  {
    if a < b - 1 {
      MonthsGrow(year, a, b - 1);
    }
  }

  lemma {:induction false} YearsGrow(a: int, b: int)
    requires 1 <= a < b
    ensures DaysBeforeYear(a) + YearLength(a) <= DaysBeforeYear(b)
    decreases b
  {
    YearsAddUp(b - 1);
    if a < b - 1 {
      YearsGrow(a, b - 1);
    }
  }

  lemma DaysOfYear(d: Date)
    requires ValidDate(d)
    ensures 1 <= DaysBeforeMonth(d.year, d.month) + d.day <= YearLength(d.year)
  {
    MonthsAddUp(d.year);
    if d.month < 12 {
      MonthsGrow(d.year, d.month, 12);
    }
    if 1 < d.month {
      MonthsGrow(d.year, 1, d.month);
    }
  }

  /** Dates compare as their day numbers do, across months of any length and leap years. */
  lemma DateOrderIsDayOrder(a: Date, b: Date)
    requires ValidDate(a) && ValidDate(b)
    ensures DateLess(a, b) <==> Ordinal(a) < Ordinal(b)
    ensures a == b <==> Ordinal(a) == Ordinal(b)
  {
    if DateLess(a, b) {
      DateLessMeansEarlier(a, b);
    } else if DateLess(b, a) {
      DateLessMeansEarlier(b, a);
    }
  }

  lemma DateLessMeansEarlier(a: Date, b: Date)
    requires ValidDate(a) && ValidDate(b) && DateLess(a, b)
    ensures Ordinal(a) < Ordinal(b)
  {
    if a.year < b.year {
      DaysOfYear(a);
      DaysOfYear(b);
      YearsGrow(a.year, b.year);
    } else if a.month < b.month {
      MonthsGrow(a.year, a.month, b.month);
    }
  }

  // ---- The text ------------------------------------------------------------------------------

  /** The order in which Python and SQL compare texts. */
  predicate TextLess(a: string, b: string) {
    if a == "" then b != ""
    else if b == "" then false
    else a[0] < b[0] || (a[0] == b[0] && TextLess(a[1..], b[1..]))
  }

  /** `n` in decimal, padded with zeros to `width` digits. */
  function Digits(n: nat, width: nat): (r: string)
    ensures |r| == width
    decreases width
  {
    if width == 0 then "" else Digits(n / 10, width - 1) + [('0' as int + n % 10) as char]
  }

  function ClockText(hour: nat, minute: nat, second: nat): (r: string)
    ensures |r| == 10
  {
    "T" + (Digits(hour, 2) + (":" + (Digits(minute, 2) + (":" + (Digits(second, 2) + "Z")))))
  }

  /** Seconds since midnight as the text of a time. */
  function TimeText(s: nat): (r: string)
    ensures |r| == 10
  {
    ClockText(s / 3600, s / 60 % 60, s % 60)
  }

  function DateText(d: Date): (r: string)
    requires ValidDate(d)
    ensures |r| == 10
  {
    Digits(d.year, 4) + ("-" + (Digits(d.month, 2) + ("-" + Digits(d.day, 2))))
  }

  const DAY := 86400

  /** The first instant whose year needs five digits. */
  const END_OF_TIME := 315537897600

  /** The text of an instant, in seconds since the start of year 1:
      `datetime.replace(microsecond=0).isoformat()` with Z for the zero offset. */
  function IsoOf(t: nat): string {
    DateOfOrdinal(t / DAY + 1);
    DateText(DateOf(t / DAY + 1)) + TimeText(t % DAY)
  }

  lemma {:induction false} FirstPartDecides(a: string, b: string, c: string, d: string)
    requires |a| == |c|
    ensures TextLess(a + b, c + d) <==> TextLess(a, c) || (a == c && TextLess(b, d))
    ensures a + b == c + d <==> a == c && b == d
  {
    if a == "" {
      assert a + b == b && c + d == d;
    } else {
      assert (a + b)[1..] == a[1..] + b && (c + d)[1..] == c[1..] + d;
      FirstPartDecides(a[1..], b, c[1..], d);
      assert a == [a[0]] + a[1..] && c == [c[0]] + c[1..];
    }
  }

  ghost function Power10(width: nat): nat { if width == 0 then 1 else 10 * Power10(width - 1) }

  /** Padded numbers of one width compare as text exactly as they compare as numbers. */
  lemma {:induction false} DigitsOrder(n: nat, m: nat, width: nat)
    requires n < Power10(width) && m < Power10(width)
    ensures TextLess(Digits(n, width), Digits(m, width)) <==> n < m
    ensures Digits(n, width) == Digits(m, width) <==> n == m
    decreases width
  {
    if width > 0 {
      DigitsOrder(n / 10, m / 10, width - 1);
      var x, y := [('0' as int + n % 10) as char], [('0' as int + m % 10) as char];
      FirstPartDecides(Digits(n / 10, width - 1), x, Digits(m / 10, width - 1), y);
      assert TextLess(x[1..], y[1..]) == false;
    }
  }

  /** A common first part does not matter. */
  lemma SameStart(a: string, b: string, d: string)
    ensures TextLess(a + b, a + d) <==> TextLess(b, d)
    ensures a + b == a + d <==> b == d
  {
    NotLess(a);
    FirstPartDecides(a, b, a, d);
  }

  lemma {:induction false} NotLess(a: string)
    ensures !TextLess(a, a)
  {
    if a != "" {
      NotLess(a[1..]);
    }
  }

  /** A padded number decides, and what follows it only when it is the same. */
  lemma NumberDecides(n: nat, m: nat, width: nat, b: string, d: string)
    requires n < Power10(width) && m < Power10(width)
    ensures TextLess(Digits(n, width) + b, Digits(m, width) + d) <==> n < m || (n == m && TextLess(b, d))
    ensures Digits(n, width) + b == Digits(m, width) + d <==> n == m && b == d
  {
    DigitsOrder(n, m, width);
    FirstPartDecides(Digits(n, width), b, Digits(m, width), d);
  }

  lemma ClockTextOrder(h: nat, m: nat, s: nat, h': nat, m': nat, s': nat)
    requires h < 100 && m < 100 && s < 100 && h' < 100 && m' < 100 && s' < 100
    ensures TextLess(ClockText(h, m, s), ClockText(h', m', s'))
            <==> h < h' || (h == h' && (m < m' || (m == m' && s < s')))
    ensures ClockText(h, m, s) == ClockText(h', m', s') <==> h == h' && m == m' && s == s'
  {
    assert Power10(2) == 100;
    var s3, u3 := Digits(s, 2) + "Z", Digits(s', 2) + "Z";
    var s2, u2 := Digits(m, 2) + (":" + s3), Digits(m', 2) + (":" + u3);
    var s1, u1 := Digits(h, 2) + (":" + s2), Digits(h', 2) + (":" + u2);
    NotLess("Z");
    NumberDecides(s, s', 2, "Z", "Z");
    SameStart(":", s3, u3);
    NumberDecides(m, m', 2, ":" + s3, ":" + u3);
    SameStart(":", s2, u2);
    NumberDecides(h, h', 2, ":" + s2, ":" + u2);
    SameStart("T", s1, u1);
  }

  lemma TimeTextOrder(s: nat, u: nat)
    requires s < DAY && u < DAY
    ensures TextLess(TimeText(s), TimeText(u)) <==> s < u
    ensures TimeText(s) == TimeText(u) <==> s == u
  {
    ClockTextOrder(s / 3600, s / 60 % 60, s % 60, u / 3600, u / 60 % 60, u % 60);
    ClockOrder(s, u);
    ClockOrder(u, s);
  }

  /** Hours, minutes and seconds compare as the seconds they stand for. */
  lemma ClockOrder(s: nat, u: nat)
    ensures s < u <==> s / 3600 < u / 3600
                       || (s / 3600 == u / 3600 && (s / 60 % 60 < u / 60 % 60
                           || (s / 60 % 60 == u / 60 % 60 && s % 60 < u % 60)))
  {
    ClockParts(s);
    ClockParts(u);
  }

  lemma ClockParts(s: nat)
    ensures s == s / 3600 * 3600 + s / 60 % 60 * 60 + s % 60
  {
    var minutes := s / 60;
    assert s == minutes * 60 + s % 60;
    assert minutes == minutes / 60 * 60 + minutes % 60;
    assert s / 3600 == minutes / 60 by {
      QuotientIs(s, 3600, minutes / 60, minutes % 60 * 60 + s % 60);
    }
  }

  lemma DateTextOrder(a: Date, b: Date)
    requires ValidDate(a) && ValidDate(b) && a.year <= 9999 && b.year <= 9999
    ensures TextLess(DateText(a), DateText(b)) <==> DateLess(a, b)
    ensures DateText(a) == DateText(b) <==> a == b
  {
    assert Power10(2) == 100 && Power10(4) == 10000;
    var a2, b2 := Digits(a.month, 2) + ("-" + Digits(a.day, 2)), Digits(b.month, 2) + ("-" + Digits(b.day, 2));
    DigitsOrder(a.day, b.day, 2);
    SameStart("-", Digits(a.day, 2), Digits(b.day, 2));
    NumberDecides(a.month, b.month, 2, "-" + Digits(a.day, 2), "-" + Digits(b.day, 2));
    SameStart("-", a2, b2);
    NumberDecides(a.year, b.year, 4, "-" + a2, "-" + b2);
  }

  /** Instants before the end of time have a four-digit year. */
  lemma FourDigitYear(n: nat)
    requires 1 <= n <= END_OF_TIME / DAY
    ensures DateOf(n).year <= 9999
  {
    DateOfOrdinal(n);
    var last := Date(10000, 1, 1);
    assert Ordinal(last) == END_OF_TIME / DAY + 1;
    DateOrderIsDayOrder(DateOf(n), last);
  }

  lemma StampOrder(n: nat, m: nat, s: nat, u: nat)
    requires 1 <= n <= END_OF_TIME / DAY && 1 <= m <= END_OF_TIME / DAY && s < DAY && u < DAY
    requires ValidDate(DateOf(n)) && ValidDate(DateOf(m))
    ensures TextLess(DateText(DateOf(n)) + TimeText(s), DateText(DateOf(m)) + TimeText(u)) <==> n < m || (n == m && s < u)
    ensures DateText(DateOf(n)) + TimeText(s) == DateText(DateOf(m)) + TimeText(u) <==> n == m && s == u
  {
    var a, b := DateOf(n), DateOf(m);
    assert Ordinal(a) == n && Ordinal(b) == m by {
      DateOfOrdinal(n);
      DateOfOrdinal(m);
    }
    FourDigitYear(n);
    FourDigitYear(m);
    DateOrderIsDayOrder(a, b);
    DateTextOrder(a, b);
    TimeTextOrder(s, u);
    FirstPartDecides(DateText(a), TimeText(s), DateText(b), TimeText(u));
  }

  lemma DayAndTimeOrder(t: nat, u: nat)
    ensures t < u <==> t / DAY < u / DAY || (t / DAY == u / DAY && t % DAY < u % DAY)
    ensures t == u <==> t / DAY == u / DAY && t % DAY == u % DAY
  {
  }

  /** Text order is time order: two instants compare as text exactly as they compare in time. */
  lemma TextOrderIsTimeOrder(t: nat, u: nat)
    requires t < END_OF_TIME && u < END_OF_TIME
    ensures TextLess(IsoOf(t), IsoOf(u)) <==> t < u
    ensures IsoOf(t) == IsoOf(u) <==> t == u
  {
    DateOfOrdinal(t / DAY + 1);
    DateOfOrdinal(u / DAY + 1);
    StampOrder(t / DAY + 1, u / DAY + 1, t % DAY, u % DAY);
    DayAndTimeOrder(t, u);
  }

  // ---- The texts the scheduler stores and compares ---------------------------------------------

  const MICROS := 1_000_000

  /** An instant in microseconds whose text has a four-digit year. */
  predicate Representable(instant: int) { 0 <= instant < END_OF_TIME * MICROS }

  function NowIso(now: int): string
    requires Representable(now)
  {
    IsoOf(now / MICROS)
  }

  function FutureIso(now: int, seconds: int): string
    requires Representable(now + seconds * MICROS)
  {
    IsoOf((now + seconds * MICROS) / MICROS)
  }

  function PastIso(now: int, seconds: int): string
    requires Representable(now - seconds * MICROS)
  {
    IsoOf((now - seconds * MICROS) / MICROS)
  }

  /** A parsed schedule text: the local time and, if one was given, the offset from UTC. */
  datatype Parsed = Parsed(local: int, offset: Option<int>)

  /** A time without an offset is taken as UTC. */
  function UtcOf(parsed: Parsed): int { parsed.local - (if parsed.offset.Some? then parsed.offset.value else 0) }

  function ScheduleIso(parsed: Parsed): string
    requires Representable(UtcOf(parsed))
  {
    IsoOf(UtcOf(parsed) / MICROS)
  }

  /** SQL's `a <= b` on texts. */
  predicate TextAtMost(a: string, b: string) { TextLess(a, b) || a == b }

  lemma WholeSecondsShift(now: int, seconds: nat)
    requires Representable(now + seconds * MICROS)
    ensures (now + seconds * MICROS) / MICROS == now / MICROS + seconds < END_OF_TIME
  {
    QuotientIs(now + seconds * MICROS, MICROS, now / MICROS + seconds, now % MICROS);
  }

  /** The claim filter `scheduled_send_at <= now` never takes a draft before its stored instant, which is
      the requested one rounded down to a second; it takes one before the requested instant exactly when
      that lies later within the current second. */
  lemma ClaimFilterIsTimely(now: int, requested: Parsed)
    requires Representable(now) && Representable(UtcOf(requested))
    ensures TextAtMost(ScheduleIso(requested), NowIso(now)) <==> UtcOf(requested) / MICROS * MICROS <= now
    ensures TextAtMost(ScheduleIso(requested), NowIso(now)) && now < UtcOf(requested)
            <==> now < UtcOf(requested) && now / MICROS == UtcOf(requested) / MICROS
  {
    TextOrderIsTimeOrder(UtcOf(requested) / MICROS, now / MICROS);
  }

  /** The reclaim filter `scheduled_claimed_at <= cutoff`: exactly the claims whose stored second is at
      least the timeout before the current second. */
  lemma ReclaimFilterIsAge(claimed: int, now: int, timeout: nat)
    requires Representable(claimed) && Representable(now) && Representable(now - timeout * MICROS)
    ensures TextAtMost(NowIso(claimed), PastIso(now, timeout)) <==> claimed / MICROS + timeout <= now / MICROS
  {
    assert (now - timeout * MICROS) / MICROS == now / MICROS - timeout by {
      QuotientIs(now - timeout * MICROS, MICROS, now / MICROS - timeout, now % MICROS);
    }
    TextOrderIsTimeOrder(claimed / MICROS, (now - timeout * MICROS) / MICROS);
  }

  /** A retry is stored for exactly the retry delay after the current second, and its text comes later
      than every text up to then. */
  lemma RetryIsDelayed(now: int, seconds: nat, t: nat)
    requires Representable(now) && Representable(now + seconds * MICROS) && t < END_OF_TIME
    ensures TextLess(IsoOf(t), FutureIso(now, seconds)) <==> t < now / MICROS + seconds
  {
    var later: nat := (now + seconds * MICROS) / MICROS;
    assert later == now / MICROS + seconds < END_OF_TIME by {
      WholeSecondsShift(now, seconds);
    }
    TextOrderIsTimeOrder(t, later);
  }
}
