/** `LocalDateTime.now()` as a parameter: a calendar reading in UTC, its epoch second
    (`toEpochSecond(ZoneOffset.UTC)`) and the two date patterns the services format. */
module Clock {
  import opened Text

  datatype DateTime = DateTime(year: int, month: int, day: int, hour: int, minute: int, second: int)

  predicate IsLeapYear(y: int)
  {
    y % 4 == 0 && (y % 100 != 0 || y % 400 == 0)
  }

  function DaysInMonth(y: int, m: int): int
    requires 1 <= m <= 12
  {
    if m == 2 then (if IsLeapYear(y) then 29 else 28)
    else if m == 4 || m == 6 || m == 9 || m == 11 then 30
    else 31
  }

  /** A reading the clock can produce; years are the four-digit years `yyyy` prints without a sign. */
  predicate Valid(t: DateTime)
  {
    1 <= t.year <= 9999 && 1 <= t.month <= 12 && 1 <= t.day <= DaysInMonth(t.year, t.month)
    && 0 <= t.hour < 24 && 0 <= t.minute < 60 && 0 <= t.second < 60
  }

  /** Days from 1970-01-01 to the given proleptic Gregorian date (the days-from-civil algorithm). */
  function DaysFromCivil(y0: int, m: int, d: int): int
    requires 1 <= m <= 12
  {
    var y := if m <= 2 then y0 - 1 else y0;
    var era := y / 400;
    var yoe := y - era * 400;
    var mp := if m > 2 then m - 3 else m + 9;
    var doy := (153 * mp + 2) / 5 + d - 1;
    var doe := yoe * 365 + yoe / 4 - yoe / 100 + doy;
    era * 146097 + doe - 719468
  }

  function EpochSecond(t: DateTime): int
    requires Valid(t)
  {
    DaysFromCivil(t.year, t.month, t.day) * 86400 + t.hour * 3600 + t.minute * 60 + t.second
  }

  /** Pattern `yyyy:MM:dd`. */
  function DayStamp(t: DateTime): (s: string)
    requires Valid(t)
    ensures |s| == 10
  {
    NatToStringLength(t.year, 4);
    NatToStringLength(t.month, 2);
    NatToStringLength(t.day, 2);
    Pad(t.year, 4) + ":" + Pad(t.month, 2) + ":" + Pad(t.day, 2)
  }

  /** Pattern `yyyy/MM`. */
  function MonthStamp(t: DateTime): (s: string)
    requires Valid(t)
    ensures |s| == 7
  {
    NatToStringLength(t.year, 4);
    NatToStringLength(t.month, 2);
    Pad(t.year, 4) + "/" + Pad(t.month, 2)
  }

  /** The date fields fit their widths. */
  lemma FieldsFit(t: DateTime)
    requires Valid(t)
    ensures |NatToString(t.year)| <= 4 && |NatToString(t.month)| <= 2 && |NatToString(t.day)| <= 2
  {
    assert Pow10(2) == 100 && Pow10(4) == 10000;
    NatToStringLength(t.year, 4);
    NatToStringLength(t.month, 2);
    NatToStringLength(t.day, 2);
  }

  /** Two dates share a `yyyy:MM:dd` stamp exactly when they fall on the same day. */
  lemma DayStampInjective(t1: DateTime, t2: DateTime)
    requires Valid(t1) && Valid(t2)
    ensures DayStamp(t1) == DayStamp(t2) <==> t1.year == t2.year && t1.month == t2.month && t1.day == t2.day
  {
    if DayStamp(t1) == DayStamp(t2) {
      FieldsFit(t1);
      FieldsFit(t2);
      var s1, s2 := DayStamp(t1), DayStamp(t2);
      assert s1[..4] == Pad(t1.year, 4) && s2[..4] == Pad(t2.year, 4);
      assert s1[5..7] == Pad(t1.month, 2) && s2[5..7] == Pad(t2.month, 2);
      assert s1[8..] == Pad(t1.day, 2) && s2[8..] == Pad(t2.day, 2);
      PadInjective(t1.year, t2.year, 4);
      PadInjective(t1.month, t2.month, 2);
      PadInjective(t1.day, t2.day, 2);
    }
  }

  /** Two dates share a `yyyy/MM` stamp exactly when they fall in the same month. */
  lemma MonthStampInjective(t1: DateTime, t2: DateTime)
    requires Valid(t1) && Valid(t2)
    ensures MonthStamp(t1) == MonthStamp(t2) <==> t1.year == t2.year && t1.month == t2.month
  {
    if MonthStamp(t1) == MonthStamp(t2) {
      FieldsFit(t1);
      FieldsFit(t2);
      var s1, s2 := MonthStamp(t1), MonthStamp(t2);
      assert s1[..4] == Pad(t1.year, 4) && s2[..4] == Pad(t2.year, 4);
      assert s1[5..] == Pad(t1.month, 2) && s2[5..] == Pad(t2.month, 2);
      PadInjective(t1.year, t2.year, 4);
      PadInjective(t1.month, t2.month, 2);
    }
  }
}
