/**
 UTC instants as microseconds since 1970, from the year 1 to the year 9999, and their text as
 `isoformat()` prints it.
 */
module Instants {
  import opened Uuids

  const DAY_MICROSECONDS := 86_400_000_000
  const FIRST_INSTANT := -62_135_596_800_000_000
  const DAYS_IN_ALL := 3_652_059

  type Instant = t: int | FIRST_INSTANT <= t < FIRST_INSTANT + DAYS_IN_ALL * DAY_MICROSECONDS witness 0

  // The Gregorian calendar

  predicate IsLeap(year: nat) {
    year % 4 == 0 && (year % 100 != 0 || year % 400 == 0)
  }

  /** Days from the first day of the year 1 to the first day of this year. */
  function DaysBeforeYear(year: nat): int
    requires year >= 1
  {
    365 * (year - 1) + (year - 1) / 4 - (year - 1) / 100 + (year - 1) / 400
  }

  function DaysInMonth(year: nat, month: nat): nat {
    if month == 2 then if IsLeap(year) then 29 else 28
    else if month == 4 || month == 6 || month == 9 || month == 11 then 30
    else 31
  }

  function DaysBeforeMonth(year: nat, month: nat): nat
    requires 1 <= month <= 13
  {
    if month == 1 then 0 else DaysBeforeMonth(year, month - 1) + DaysInMonth(year, month - 1)
  }

  lemma DividingNext(n: nat)
    ensures (n + 1) / 4 == n / 4 + (if (n + 1) % 4 == 0 then 1 else 0)
    ensures (n + 1) / 100 == n / 100 + (if (n + 1) % 100 == 0 then 1 else 0)
    ensures (n + 1) / 400 == n / 400 + (if (n + 1) % 400 == 0 then 1 else 0)
  {
  }

  /** A year has 366 days exactly when it is a leap year. */
  lemma YearLength(year: nat)
    requires year >= 1
    ensures DaysBeforeYear(year + 1) == DaysBeforeYear(year) + (if IsLeap(year) then 366 else 365)
    ensures DaysBeforeMonth(year, 13) == if IsLeap(year) then 366 else 365
  {
    DividingNext(year - 1);
    if year % 400 == 0 {
      MultipleOf100(year);
    }
    if year % 100 == 0 {
      MultipleOf4(year);
    }
    MonthsAddUp(year);
  }

  lemma TimesIsMultiple(m: nat)
    ensures (4 * m) % 4 == 0 && (100 * m) % 100 == 0
  {
  }

  lemma MultipleOf4(year: nat)
    requires year % 100 == 0
    ensures year % 4 == 0
  {
    var m := 25 * (year / 100);
    TimesIsMultiple(m);
    assert year == 4 * m;
  }

  lemma MultipleOf100(year: nat)
    requires year % 400 == 0
    ensures year % 100 == 0
  {
    var m := 4 * (year / 400);
    TimesIsMultiple(m);
    assert year == 100 * m;
  }

  lemma MonthsAddUp(year: nat)
    ensures DaysBeforeMonth(year, 13) == if IsLeap(year) then 366 else 365
  {
    hide IsLeap;
    assert DaysBeforeMonth(year, 2) == 31;
    assert DaysBeforeMonth(year, 3) == 31 + DaysInMonth(year, 2);
    assert DaysBeforeMonth(year, 4) == 62 + DaysInMonth(year, 2);
    assert DaysBeforeMonth(year, 5) == 92 + DaysInMonth(year, 2);
    assert DaysBeforeMonth(year, 6) == 123 + DaysInMonth(year, 2);
    assert DaysBeforeMonth(year, 7) == 153 + DaysInMonth(year, 2);
    assert DaysBeforeMonth(year, 8) == 184 + DaysInMonth(year, 2);
    assert DaysBeforeMonth(year, 9) == 215 + DaysInMonth(year, 2);
    assert DaysBeforeMonth(year, 10) == 245 + DaysInMonth(year, 2);
    assert DaysBeforeMonth(year, 11) == 276 + DaysInMonth(year, 2);
    assert DaysBeforeMonth(year, 12) == 306 + DaysInMonth(year, 2);
  }

  datatype Date = Date(year: nat, month: nat, day: nat) {
    predicate Valid() {
      1 <= year <= 9999 && 1 <= month <= 12 && 1 <= day <= DaysInMonth(year, month)
    }
  }

  function DaysOf(date: Date): int
    requires date.Valid()
  {
    DaysBeforeYear(date.year) + DaysBeforeMonth(date.year, date.month) + date.day - 1
  }

  /** The year, not before the given one, that a day number falls in. */
  function YearFrom(days: int, year: nat): (y: nat)
    requires year >= 1 && DaysBeforeYear(year) <= days
    ensures y >= year && DaysBeforeYear(y) <= days < DaysBeforeYear(y + 1)
    decreases days - DaysBeforeYear(year)
  {
    YearLength(year);
    if days < DaysBeforeYear(year + 1) then year else YearFrom(days, year + 1)
  }

  function MonthFrom(year: nat, days: nat, month: nat): (m: nat)
    requires 1 <= month <= 12 && DaysBeforeMonth(year, month) <= days < DaysBeforeMonth(year, 13)
    ensures month <= m <= 12 && DaysBeforeMonth(year, m) <= days < DaysBeforeMonth(year, m + 1)
    decreases 12 - month
  {
    if month == 12 || days < DaysBeforeMonth(year, month + 1) then month else MonthFrom(year, days, month + 1)
  }

  function DateOf(days: nat): (date: Date)
    requires days < DAYS_IN_ALL
    ensures date.Valid() && DaysOf(date) == days
  {
    var year := YearFrom(days, 1);
    YearLength(year);
    LastYear(days, year);
    hide DaysBeforeYear, IsLeap;
    var rest: nat := days - DaysBeforeYear(year);
    var month := MonthFrom(year, rest, 1);
    Date(year, month, rest - DaysBeforeMonth(year, month) + 1)
  }

  lemma LastYear(days: int, year: nat)
    requires year >= 1 && DaysBeforeYear(year) <= days < DAYS_IN_ALL
    ensures year <= 9999
  {
  }

  // The clock reading of an instant

  datatype Reading = Reading(date: Date, hour: nat, minute: nat, second: nat, micro: nat) {
    predicate Valid() {
      date.Valid() && hour < 24 && minute < 60 && second < 60 && micro < 1_000_000
    }
  }

  function InstantOf(r: Reading): int
    requires r.Valid()
  {
    FIRST_INSTANT + DaysOf(r.date) * DAY_MICROSECONDS
    + ((r.hour * 60 + r.minute) * 60 + r.second) * 1_000_000 + r.micro
  }

  lemma SplitDay(rest: nat)
    requires rest < DAY_MICROSECONDS
    ensures rest / 3_600_000_000 < 24 && rest / 60_000_000 % 60 < 60 && rest / 1_000_000 % 60 < 60
    ensures rest == ((rest / 3_600_000_000 * 60 + rest / 60_000_000 % 60) * 60 + rest / 1_000_000 % 60) * 1_000_000
                    + rest % 1_000_000
  {
    var seconds := rest / 1_000_000;
    var minutes := seconds / 60;
    assert rest / 60_000_000 == minutes && rest / 3_600_000_000 == minutes / 60;
  }

  function ReadingOf(t: Instant): (r: Reading)
    ensures r.Valid() && InstantOf(r) == t
  {
    var since: nat := t - FIRST_INSTANT;
    var days, rest := since / DAY_MICROSECONDS, since % DAY_MICROSECONDS;
    SplitDay(rest);
    hide DateOf, DaysOf;
    Reading(DateOf(days), rest / 3_600_000_000, rest / 60_000_000 % 60, rest / 1_000_000 % 60, rest % 1_000_000)
  }

  // `isoformat()`

  function DateText(d: Date): (s: string)
    ensures |s| == 10
  {
    FixedText(10, d.year, 4) + "-" + FixedText(10, d.month, 2) + "-" + FixedText(10, d.day, 2)
  }

  function TimeText(hour: nat, minute: nat, second: nat): (s: string)
    ensures |s| == 8
  {
    FixedText(10, hour, 2) + ":" + FixedText(10, minute, 2) + ":" + FixedText(10, second, 2)
  }

  /** The fraction is printed only when it is not zero. */
  function ReadingText(r: Reading): (s: string)
    ensures |s| == if r.micro == 0 then 25 else 32
  {
    DateText(r.date) + "T" + TimeText(r.hour, r.minute, r.second)
    + (if r.micro == 0 then "" else "." + FixedText(10, r.micro, 6)) + "+00:00"
  }

  function InstantText(t: Instant): (s: string)
    ensures |s| == 25 || |s| == 32
  {
    ReadingText(ReadingOf(t))
  }

  // Reading the text back

  function DateValue(s: string): Date
    requires |s| == 10
  {
    Date(NumberValue(10, s[..4]), NumberValue(10, s[5..7]), NumberValue(10, s[8..]))
  }

  function ReadingValue(s: string): Reading
    requires |s| >= 25
  {
    Reading(DateValue(s[..10]), NumberValue(10, s[11..13]), NumberValue(10, s[14..16]), NumberValue(10, s[17..19]),
            if |s| == 32 then NumberValue(10, s[20..26]) else 0)
  }

  function InstantValue(s: string): int {
    if |s| >= 25 && ReadingValue(s).Valid() then InstantOf(ReadingValue(s)) else FIRST_INSTANT
  }

  lemma TenPowers()
    ensures Power(10, 2) == 100 && Power(10, 4) == 10_000 && Power(10, 6) == 1_000_000
  {
    assert Power(10, 1) == 10;
    assert Power(10, 3) == 1_000 && Power(10, 5) == 100_000;
  }

  lemma DateTextRoundTrip(d: Date)
    requires d.Valid()
    ensures DateValue(DateText(d)) == d && Plain(DateText(d))
  {
    hide FixedText, NumberValue, Power, IsLeap;
    TenPowers();
    FixedTextRoundTrip(10, d.year, 4);
    FixedTextRoundTrip(10, d.month, 2);
    FixedTextRoundTrip(10, d.day, 2);
    var s := DateText(d);
    assert s[..4] == FixedText(10, d.year, 4) && s[5..7] == FixedText(10, d.month, 2) && s[8..] == FixedText(10, d.day, 2);
  }

  lemma TimeTextRoundTrip(hour: nat, minute: nat, second: nat)
    requires hour < 24 && minute < 60 && second < 60
    ensures var s := TimeText(hour, minute, second);
            && NumberValue(10, s[..2]) == hour && NumberValue(10, s[3..5]) == minute && NumberValue(10, s[6..]) == second
            && Plain(s)
  {
    hide FixedText, NumberValue, Power;
    TenPowers();
    FixedTextRoundTrip(10, hour, 2);
    FixedTextRoundTrip(10, minute, 2);
    FixedTextRoundTrip(10, second, 2);
    var s := TimeText(hour, minute, second);
    assert s[..2] == FixedText(10, hour, 2) && s[3..5] == FixedText(10, minute, 2) && s[6..] == FixedText(10, second, 2);
  }

  lemma PartsOfReadingText(r: Reading)
    ensures var s := ReadingText(r);
            && s[..10] == DateText(r.date)
            && s[11..13] == TimeText(r.hour, r.minute, r.second)[..2]
            && s[14..16] == TimeText(r.hour, r.minute, r.second)[3..5]
            && s[17..19] == TimeText(r.hour, r.minute, r.second)[6..]
            && (r.micro != 0 ==> s[20..26] == FixedText(10, r.micro, 6))
  {
    hide DateText, TimeText, FixedText;
    var fraction := if r.micro == 0 then "" else "." + FixedText(10, r.micro, 6);
    var time := TimeText(r.hour, r.minute, r.second);
    var s := DateText(r.date) + "T" + time + fraction + "+00:00";
    assert s == ReadingText(r);
    assert s[11..19] == time;
    assert s[11..13] == s[11..19][..2] && s[14..16] == s[11..19][3..5] && s[17..19] == s[11..19][6..];
    assert r.micro != 0 ==> s[19..26] == fraction;
    assert r.micro != 0 ==> s[20..26] == fraction[1..];
  }

  lemma ReadingTextRoundTrip(r: Reading)
    requires r.Valid()
    ensures ReadingValue(ReadingText(r)) == r
  {
    hide DateText, TimeText, FixedText, NumberValue, DateValue, Power, ReadingText;
    PartsOfReadingText(r);
    DateTextRoundTrip(r.date);
    TimeTextRoundTrip(r.hour, r.minute, r.second);
    TenPowers();
    FixedTextRoundTrip(10, r.micro, 6);
  }

  lemma ReadingTextIsPlain(r: Reading)
    requires r.Valid()
    ensures Plain(ReadingText(r)) && ReadingText(r) != ""
  {
    hide DateText, TimeText, FixedText, NumberValue, DateValue, Power;
    DateTextRoundTrip(r.date);
    TimeTextRoundTrip(r.hour, r.minute, r.second);
    TenPowers();
    FixedTextRoundTrip(10, r.micro, 6);
  }

  /** The text of an instant determines it, and is one plain line. */
  lemma InstantTextRoundTrip(t: Instant)
    ensures InstantValue(InstantText(t)) == t
    ensures InstantText(t) != "" && Plain(InstantText(t))
  {
    hide ReadingOf, ReadingText, ReadingValue, InstantOf;
    ReadingTextRoundTrip(ReadingOf(t));
    ReadingTextIsPlain(ReadingOf(t));
  }

  // Instants in other time zones

  /** An instant with the minutes by which a local clock is ahead of UTC. */
  datatype Moment = Moment(at: Instant, offset: int) {
    /** The local clock reads a year from 1 to 9999 too. */
    predicate Valid() {
      -1440 < offset < 1440 && FIRST_INSTANT <= at + offset * 60_000_000 < FIRST_INSTANT + DAYS_IN_ALL * DAY_MICROSECONDS
    }
  }

  function OffsetText(offset: int): (s: string)
    ensures |s| == 6
  {
    var minutes: nat := if offset < 0 then -offset else offset;
    (if offset < 0 then "-" else "+") + FixedText(10, minutes / 60, 2) + ":" + FixedText(10, minutes % 60, 2)
  }

  /** `isoformat()` of the local reading. */
  function MomentText(m: Moment): string
    requires m.Valid()
  {
    var s := InstantText(m.at + m.offset * 60_000_000);
    s[..|s| - 6] + OffsetText(m.offset)
  }

  function OffsetValue(s: string): int
    requires |s| == 6
  {
    var minutes := NumberValue(10, s[1..3]) * 60 + NumberValue(10, s[4..]);
    if s[0] == '-' then -minutes else minutes
  }

  lemma OffsetTextRoundTrip(offset: int)
    requires -1440 < offset < 1440
    ensures OffsetValue(OffsetText(offset)) == offset && Plain(OffsetText(offset))
  {
    hide FixedText, NumberValue, Power;
    var minutes := if offset < 0 then -offset else offset;
    TenPowers();
    FixedTextRoundTrip(10, minutes / 60, 2);
    FixedTextRoundTrip(10, minutes % 60, 2);
    var s := OffsetText(offset);
    assert s[1..3] == FixedText(10, minutes / 60, 2) && s[4..] == FixedText(10, minutes % 60, 2);
  }

  lemma MomentTextIsPlain(m: Moment)
    requires m.Valid()
    ensures MomentText(m) != "" && Plain(MomentText(m))
  {
    hide InstantText, OffsetText, Plain;
    var s := InstantText(m.at + m.offset * 60_000_000);
    InstantTextRoundTrip(m.at + m.offset * 60_000_000);
    OffsetTextRoundTrip(m.offset);
    PlainParts(s, |s| - 6, OffsetText(m.offset));
    assert |MomentText(m)| > 0;
  }

  lemma PlainParts(s: string, k: nat, t: string)
    requires Plain(s) && k <= |s| && Plain(t)
    ensures Plain(s[..k] + t)
  {
  }

  /** The same instant is printed the same way exactly in the same offset. */
  lemma SameInstantSameTextIff(at: Instant, a: int, b: int)
    requires Moment(at, a).Valid() && Moment(at, b).Valid()
    ensures MomentText(Moment(at, a)) == MomentText(Moment(at, b)) <==> a == b
  {
    hide InstantText, OffsetText, OffsetValue;
    var s, t := MomentText(Moment(at, a)), MomentText(Moment(at, b));
    assert s[|s| - 6..] == OffsetText(a) && t[|t| - 6..] == OffsetText(b);
    OffsetTextRoundTrip(a);
    OffsetTextRoundTrip(b);
  }

  /** In UTC the local text is the UTC text. */
  lemma UtcMomentText(at: Instant)
    ensures Moment(at, 0).Valid() && MomentText(Moment(at, 0)) == InstantText(at)
  {
    hide ReadingOf, DateText, TimeText, FixedText;
    var s := InstantText(at);
    assert OffsetText(0) == "+00:00" by {
      OffsetOfUtc();
    }
    assert s[|s| - 6..] == "+00:00";
    assert s == s[..|s| - 6] + s[|s| - 6..];
  }

  lemma OffsetOfUtc()
    ensures OffsetText(0) == "+00:00"
  {
  }
}
