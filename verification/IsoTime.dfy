/** Date-times with a UTC offset, in the form of ISO 8601 that Python's `isoformat` writes,
    and the instants they stand for. */
module IsoTime {
  import opened Text
  import opened DiffText

  /** Instants are counted in microseconds. */
  const MINUTE := 60_000_000
  const HOUR := 60 * MINUTE
  const DAY := 24 * HOUR

  function DigitValue(c: char): int requires IsDigit(c) { c as int - '0' as int }

  predicate TwoDigits(s: string, i: nat) {
    i + 2 <= |s| && IsDigit(s[i]) && IsDigit(s[i + 1])
  }

  function Two(s: string, i: nat): int requires TwoDigits(s, i) {
    10 * DigitValue(s[i]) + DigitValue(s[i + 1])
  }

  predicate LeapYear(y: int) {
    y % 4 == 0 && (y % 100 != 0 || y % 400 == 0)
  }

  function MonthLength(y: int, m: int): (n: int)
    ensures 28 <= n <= 31
  {
    if m == 2 then (if LeapYear(y) then 29 else 28) else if m in {4, 6, 9, 11} then 30 else 31
  }

  function DaysBeforeMonth(y: int, m: nat): int {
    if m <= 1 then 0 else DaysBeforeMonth(y, m - 1) + MonthLength(y, m - 1)
  }

  /** The proleptic Gregorian day number, 0001-01-01 being day 1. */
  function DayNumber(y: int, m: nat, d: int): int {
    365 * (y - 1) + (y - 1) / 4 - (y - 1) / 100 + (y - 1) / 400 + DaysBeforeMonth(y, m) + d
  }

  lemma MonthsAre(y: int, m: nat)
    requires 1 <= m <= 12
    ensures MonthLength(y, m) == [31, if LeapYear(y) then 29 else 28, 31, 30, 31, 30, 31, 31, 30, 31, 30, 31][m - 1]
    ensures DaysBeforeMonth(y, 13) == if LeapYear(y) then 366 else 365
  {
    assert DaysBeforeMonth(y, 2) == 31;
    assert DaysBeforeMonth(y, 3) == 31 + MonthLength(y, 2);
    assert DaysBeforeMonth(y, 5) == DaysBeforeMonth(y, 3) + 61;
    assert DaysBeforeMonth(y, 7) == DaysBeforeMonth(y, 5) + 61;
    assert DaysBeforeMonth(y, 9) == DaysBeforeMonth(y, 7) + 62;
    assert DaysBeforeMonth(y, 11) == DaysBeforeMonth(y, 9) + 61;
    assert DaysBeforeMonth(y, 13) == DaysBeforeMonth(y, 11) + 61;
  }

  /** Day numbers count the days of the calendar: the next day's is one more, also over the end of a
      month or a year, and 1970-01-01 is day 719163. */
  lemma NextDay(y: int, m: nat, d: int)
    requires 1 <= m <= 12 && 1 <= d <= MonthLength(y, m)
    ensures DayNumber(y, m, d) + 1 ==
            if d < MonthLength(y, m) then DayNumber(y, m, d + 1)
            else if m < 12 then DayNumber(y, m + 1, 1)
            else DayNumber(y + 1, 1, 1)
    ensures DayNumber(1970, 1, 1) == 719163
  {
    hide MonthLength, LeapYear;
    MonthsAre(y, m);
    YearEnds(y);
    assert DaysBeforeMonth(y, m + 1) == DaysBeforeMonth(y, m) + MonthLength(y, m);
    assert DaysBeforeMonth(y + 1, 1) == 0 == DaysBeforeMonth(1970, 1);
  }

  /** What the leap years before a year add. */
  lemma YearEnds(y: int)
    ensures y / 4 - y / 100 + y / 400 ==
            (y - 1) / 4 - (y - 1) / 100 + (y - 1) / 400 + if LeapYear(y) then 1 else 0
  {
    Fourths(y);
    Hundredths(y);
  }

  lemma Fourths(y: int)
    ensures y / 4 == (y - 1) / 4 + if y % 4 == 0 then 1 else 0
    ensures y % 100 == 0 ==> y % 4 == 0
  {
  }

  lemma Hundredths(y: int)
    ensures y / 100 == (y - 1) / 100 + if y % 100 == 0 then 1 else 0
    ensures y / 400 == (y - 1) / 400 + if y % 400 == 0 then 1 else 0
    ensures y % 400 == 0 ==> y % 100 == 0
  {
  }

  /** `YYYY-MM-DD` */
  function ReadDate(s: string): Option<int> {
    if |s| == 10 && TwoDigits(s, 0) && TwoDigits(s, 2) && s[4] == '-' && TwoDigits(s, 5) && s[7] == '-'
       && TwoDigits(s, 8) then
      var y, m, d := 100 * Two(s, 0) + Two(s, 2), Two(s, 5), Two(s, 8);
      if y >= 1 && 1 <= m <= 12 && 1 <= d <= MonthLength(y, m) then Some(DayNumber(y, m, d)) else None
    else None
  }

  /** `hh:mm:ss` */
  function ReadClock(s: string): Option<int> {
    if |s| == 8 && TwoDigits(s, 0) && s[2] == ':' && TwoDigits(s, 3) && s[5] == ':' && TwoDigits(s, 6)
       && Two(s, 0) < 24 && Two(s, 3) < 60 && Two(s, 6) < 60
    then Some(Two(s, 0) * HOUR + Two(s, 3) * MINUTE + Two(s, 6) * (MINUTE / 60)) else None
  }

  /** `+hh:mm` or `-hh:mm` */
  function ReadOffset(s: string): Option<int> {
    if |s| == 6 && (s[0] == '+' || s[0] == '-') && TwoDigits(s, 1) && s[3] == ':' && TwoDigits(s, 4) && Two(s, 1) < 24
       && Two(s, 4) < 60
    then
      var offset := Two(s, 1) * HOUR + Two(s, 4) * MINUTE;
      Some(if s[0] == '+' then offset else -offset)
    else None
  }

  /** The instant of `YYYY-MM-DDThh:mm:ss+hh:mm`, in microseconds. */
  function ReadIso(s: string): Option<int> {
    if |s| == 25 && s[10] == 'T' && ReadDate(s[..10]).Some? && ReadClock(s[11..19]).Some? && ReadOffset(s[19..]).Some?
    then Some(ReadDate(s[..10]).value * DAY + ReadClock(s[11..19]).value - ReadOffset(s[19..]).value)
    else None
  }

  lemma ReadParts(date: string, clock: string, offset: string)
    requires ReadDate(date).Some? && ReadClock(clock).Some? && ReadOffset(offset).Some?
    ensures ReadIso(date + ("T" + (clock + offset))) ==
            Some(ReadDate(date).value * DAY + ReadClock(clock).value - ReadOffset(offset).value)
  {
    hide ReadDate, ReadClock, ReadOffset;
    PartLengths(date, clock, offset);
    var s := date + ("T" + (clock + offset));
    assert s[..10] == date && s[11..19] == clock && s[19..] == offset;
  }

  lemma PartLengths(date: string, clock: string, offset: string)
    ensures ReadDate(date).Some? ==> |date| == 10
    ensures ReadClock(clock).Some? ==> |clock| == 8
    ensures ReadOffset(offset).Some? ==> |offset| == 6
  {
  }

  // ------------------------------------------------------------------ as written

  function Digit(n: int): char
    requires 0 <= n < 10
  {
    ('0' as int + n) as char
  }

  /** A number below 100 with two digits. */
  function Pair(n: int): string
    requires 0 <= n < 100
  {
    [Digit(n / 10), Digit(n % 10)]
  }

  predicate ValidDate(y: int, m: int, d: int) {
    1 <= y <= 9999 && 1 <= m <= 12 && 1 <= d <= MonthLength(y, m)
  }

  predicate ValidClock(h: int, m: int, s: int) { 0 <= h < 24 && 0 <= m < 60 && 0 <= s < 60 }

  /** `YYYY-MM-DD` */
  function DateText(y: int, m: int, d: int): string
    requires ValidDate(y, m, d)
  {
    Pair(y / 100) + Pair(y % 100) + "-" + Pair(m) + "-" + Pair(d)
  }

  lemma PairRead(n: int, s: string, i: nat)
    requires 0 <= n < 100 && i + 2 <= |s| && s[i] == Pair(n)[0] && s[i + 1] == Pair(n)[1]
    ensures TwoDigits(s, i) && Two(s, i) == n
  {
  }

  lemma DateRead(y: int, m: int, d: int)
    requires ValidDate(y, m, d)
    ensures ReadDate(DateText(y, m, d)) == Some(DayNumber(y, m, d))
  {
    hide DayNumber, MonthLength, TwoDigits, Two, Pair;
    var s := DateText(y, m, d);
    assert |Pair(y / 100)| == |Pair(y % 100)| == |Pair(m)| == |Pair(d)| == 2 by { PairLength(); }
    PairRead(y / 100, s, 0);
    PairRead(y % 100, s, 2);
    PairRead(m, s, 5);
    PairRead(d, s, 8);
  }

  lemma PairLength()
    ensures forall n | 0 <= n < 100 :: |Pair(n)| == 2
  {
  }

  /** The text of a valid date is read as its day, that of a time as its microseconds into the day,
      and that of an offset as its microseconds east; and no other text is read. */
  lemma DateIs(s: string)
    ensures forall y, m, d | ValidDate(y, m, d) && s == DateText(y, m, d) :: ReadDate(s) == Some(DayNumber(y, m, d))
    ensures ReadDate(s).Some? ==> exists y, m, d :: ValidDate(y, m, d) && s == DateText(y, m, d)
  {
    hide DayNumber, MonthLength, ReadDate, DateText;
    forall y, m, d | ValidDate(y, m, d) && s == DateText(y, m, d) ensures ReadDate(s) == Some(DayNumber(y, m, d)) {
      DateRead(y, m, d);
    }
    if ReadDate(s).Some? {
      var y, m, d := DateWritten(s);
    }
  }

  lemma PairWritten(s: string, i: nat)
    requires TwoDigits(s, i)
    ensures 0 <= Two(s, i) < 100 && s[i..i + 2] == Pair(Two(s, i))
  {
  }

  lemma DateWritten(s: string) returns (y: int, m: int, d: int)
    requires ReadDate(s).Some?
    ensures ValidDate(y, m, d) && s == DateText(y, m, d)
  {
    hide DayNumber, MonthLength, TwoDigits, Two, Pair;
    PairWritten(s, 0);
    PairWritten(s, 2);
    PairWritten(s, 5);
    PairWritten(s, 8);
    y, m, d := 100 * Two(s, 0) + Two(s, 2), Two(s, 5), Two(s, 8);
    assert s == s[0..2] + s[2..4] + "-" + s[5..7] + "-" + s[8..10];
  }

  function ClockText(h: int, m: int, s: int): string
    requires ValidClock(h, m, s)
  {
    Pair(h) + ":" + Pair(m) + ":" + Pair(s)
  }

  lemma ClockRead(h: int, m: int, s: int)
    requires ValidClock(h, m, s)
    ensures ReadClock(ClockText(h, m, s)) == Some(3_600_000_000 * h + 60_000_000 * m + 1_000_000 * s)
  {
    hide TwoDigits, Two, Pair;
    PairLength();
    var text := ClockText(h, m, s);
    PairRead(h, text, 0);
    PairRead(m, text, 3);
    PairRead(s, text, 6);
  }

  lemma ClockWritten(s: string) returns (h: int, m: int, sec: int)
    requires ReadClock(s).Some?
    ensures ValidClock(h, m, sec) && s == ClockText(h, m, sec)
  {
    hide TwoDigits, Two, Pair;
    PairWritten(s, 0);
    PairWritten(s, 3);
    PairWritten(s, 6);
    h, m, sec := Two(s, 0), Two(s, 3), Two(s, 6);
    assert s == s[0..2] + ":" + s[3..5] + ":" + s[6..8];
  }

  lemma ClockIs(s: string)
    ensures forall h, m, sec | ValidClock(h, m, sec) && s == ClockText(h, m, sec) ::
              ReadClock(s) == Some(3_600_000_000 * h + 60_000_000 * m + 1_000_000 * sec)
    ensures ReadClock(s).Some? ==> exists h, m, sec :: ValidClock(h, m, sec) && s == ClockText(h, m, sec)
  {
    hide ReadClock, ClockText;
    forall h, m, sec | ValidClock(h, m, sec) && s == ClockText(h, m, sec)
      ensures ReadClock(s) == Some(3_600_000_000 * h + 60_000_000 * m + 1_000_000 * sec)
    {
      ClockRead(h, m, sec);
    }
    if ReadClock(s).Some? {
      var h, m, sec := ClockWritten(s);
    }
  }

  function OffsetText(east: bool, h: int, m: int): string
    requires ValidClock(h, m, 0)
  {
    (if east then "+" else "-") + Pair(h) + ":" + Pair(m)
  }

  lemma OffsetRead(east: bool, h: int, m: int)
    requires ValidClock(h, m, 0)
    ensures var size := 3_600_000_000 * h + 60_000_000 * m;
            ReadOffset(OffsetText(east, h, m)) == Some(if east then size else -size)
  {
    hide TwoDigits, Two, Pair;
    PairLength();
    var text := OffsetText(east, h, m);
    PairRead(h, text, 1);
    PairRead(m, text, 4);
  }

  lemma OffsetWritten(s: string) returns (east: bool, h: int, m: int)
    requires ReadOffset(s).Some?
    ensures ValidClock(h, m, 0) && s == OffsetText(east, h, m)
  {
    hide TwoDigits, Two, Pair;
    PairWritten(s, 1);
    PairWritten(s, 4);
    east, h, m := s[0] == '+', Two(s, 1), Two(s, 4);
    assert s == s[0..1] + s[1..3] + ":" + s[4..6];
  }

  lemma OffsetIs(s: string)
    ensures forall east, h, m | ValidClock(h, m, 0) && s == OffsetText(east, h, m) ::
              var size := 3_600_000_000 * h + 60_000_000 * m;
              ReadOffset(s) == Some(if east then size else -size)
    ensures ReadOffset(s).Some? ==> exists east, h, m :: ValidClock(h, m, 0) && s == OffsetText(east, h, m)
  {
    hide ReadOffset, OffsetText;
    forall east, h, m | ValidClock(h, m, 0) && s == OffsetText(east, h, m)
      ensures var size := 3_600_000_000 * h + 60_000_000 * m; ReadOffset(s) == Some(if east then size else -size)
    {
      OffsetRead(east, h, m);
    }
    if ReadOffset(s).Some? {
      var east, h, m := OffsetWritten(s);
    }
  }

  const MAY_DAY := "2024-05-01"

  /** A time of that day. */
  function Stamp(clock: string, offset: string): string {
    MAY_DAY + ("T" + (clock + offset))
  }

  lemma MayDay()
    ensures ReadDate(MAY_DAY) == Some(DayNumber(2024, 5, 1))
  {
    hide DayNumber;
    assert MAY_DAY[0] == '2' && MAY_DAY[1] == '0' && MAY_DAY[2] == '2' && MAY_DAY[3] == '4';
    assert MAY_DAY[5] == '0' && MAY_DAY[6] == '5' && MAY_DAY[8] == '0' && MAY_DAY[9] == '1';
  }
}
