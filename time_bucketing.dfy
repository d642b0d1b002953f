/** Wall-clock times, the UTC to display-zone conversion, weekdays and time-of-day buckets. */
module TimeBucketing {
  import opened Config

  const MinutesPerDay: int := 1440

  type Hour = h: int | 0 <= h < 24
  type Minute = m: int | 0 <= m < 60
  type Second = s: int | 0 <= s < 60
  type Microsecond = u: int | 0 <= u < 1000000
  /** A time of day counted in minutes after midnight. */
  type ClockMinute = m: int | 0 <= m < 1440

  /** A naive date and time. `date` is the proleptic Gregorian ordinal
      (day 1 is Monday 1 January of year 1), as Python's `date.toordinal`. */
  datatype DateTime = DateTime(date: int, hour: Hour, minute: Minute, second: Second, micro: Microsecond)

  function MinuteOfDay(t: DateTime): ClockMinute
  {
    t.hour * 60 + t.minute
  }

  /** Whole minutes elapsed since midnight of ordinal day 0. */
  function Instant(t: DateTime): int
  {
    t.date * MinutesPerDay + MinuteOfDay(t)
  }

  /** Converts a UTC time to Asia/Kolkata wall-clock time. */
  function ToIst(t: DateTime): (r: DateTime)
    ensures Instant(r) == Instant(t) + IstOffsetMinutes
    ensures r.second == t.second && r.micro == t.micro
  {
    var m := MinuteOfDay(t) + IstOffsetMinutes;
    if m < MinutesPerDay then
      DateTime(t.date, m / 60, m % 60, t.second, t.micro)
    else
      DateTime(t.date + 1, (m - MinutesPerDay) / 60, (m - MinutesPerDay) % 60, t.second, t.micro)
  }

  /** Python's `date.weekday()`: Monday is 0, Sunday is 6. */
  function Weekday(date: int): (w: int)
    ensures 0 <= w < 7
  {
    (date + 6) % 7
  }

  /** Python's `is_weekend`: weekday 5 or 6. */
  predicate IsWeekend(date: int)
  {
    Weekday(date) == 5 || Weekday(date) == 6
  }

  /** The weekends are the Saturdays, the ordinals 6 above a multiple of 7 (ordinal 6 is
      Saturday 6 January of year 1), and the Sundays, the multiples of 7. */
  lemma WeekendOrdinals(date: int)
    ensures IsWeekend(date) <==> date % 7 == 6 || date % 7 == 0
  {
  }

  /** The numbering agrees with the calendar: 0001-01-01 and 2024-01-01 are Mondays,
      2024-01-05 is a Friday, 2024-01-06 and 2024-01-07 are a Saturday and a Sunday; and
      going back `Weekday(date)` days from any date reaches a Monday, an ordinal one above
      a multiple of 7. */
  lemma WeekdayNumbering(date: int)
    ensures Weekday(1) == 0 && Weekday(738886) == 0
    ensures !IsWeekend(738890) && IsWeekend(738891) && IsWeekend(738892)
    ensures (date - Weekday(date)) % 7 == 1
  {
  }

  /** The day before a Monday is a Sunday; otherwise the weekday number drops by one. */
  lemma WeekdayBefore(date: int)
    ensures Weekday(date - 1) == if Weekday(date) == 0 then 6 else Weekday(date) - 1
  {
  }

  function WeekdayCount(date: int): int
  {
    if IsWeekend(date) then 0 else 1
  }

  /** Any seven consecutive dates hold exactly five weekdays. */
  lemma FiveWeekdaysInSeven(date: int)
    ensures WeekdayCount(date) + WeekdayCount(date - 1) + WeekdayCount(date - 2) + WeekdayCount(date - 3)
          + WeekdayCount(date - 4) + WeekdayCount(date - 5) + WeekdayCount(date - 6) == 5
  {
    WeekdayBefore(date);
    WeekdayBefore(date - 1);
    WeekdayBefore(date - 2);
    WeekdayBefore(date - 3);
    WeekdayBefore(date - 4);
    WeekdayBefore(date - 5);
  }

  /** A bucket label: the start and the end of the bucket as times of day.
      The rendered "hh:mm AM–hh:mm PM" text is a one-to-one function of this pair. */
  datatype Label = Label(start: ClockMinute, end: ClockMinute)

  lemma MulGrows(d: int, w: int)
    requires w > 0 && d >= 1
    ensures d * w >= w
  {
  }

  /** `(m / w) * w` is the largest multiple of `w` not above `m`. */
  lemma FloorMultiple(m: int, w: int)
    requires 0 <= m && w > 0
    ensures 0 <= (m / w) * w <= m < (m / w) * w + w
  {
    var q, r := m / w, m % w;
    assert m == q * w + r;
  }

  /** Equal multiples of a positive `w` have equal factors. */
  lemma MulCancel(q1: int, q2: int, w: int)
    requires w > 0 && q1 * w == q2 * w
    ensures q1 == q2
  {
    var d := q1 - q2;
    assert d * w == q1 * w - q2 * w;
    if d >= 1 {
      MulGrows(d, w);
    } else if d <= -1 {
      MulGrows(-d, w);
    }
  }

  lemma MultipleMod(q: int, w: int)
    requires w > 0
    ensures (q * w) % w == 0
  {
    var a := q * w;
    var q', r' := a / w, a % w;
    assert a == q' * w + r';
    var d := q - q';
    assert d * w == r' by { assert d * w == q * w - q' * w; }
    if d >= 1 {
      MulGrows(d, w);
    } else if d <= -1 {
      MulGrows(-d, w);
    }
  }

  /** The bucket of a display-zone time: it ignores date, seconds and microseconds. */
  function GetTimeBucket(t: DateTime, w: int): (r: Label)
    requires w > 0
    ensures r.start / 60 == t.hour
    ensures (r.start % 60) % w == 0
    ensures r.start <= MinuteOfDay(t) < r.start + w
    ensures r.end == (r.start + w) % MinutesPerDay
  {
    FloorMultiple(t.minute, w);
    MultipleMod(t.minute / w, w);
    var start := t.hour * 60 + (t.minute / w) * w;
    Label(start, (start + w) % MinutesPerDay)
  }

  /** Two display-zone times share a bucket exactly when they have the same hour and the
      same `minute / w`, whatever their dates, seconds and microseconds. */
  lemma SameBucketIff(t1: DateTime, t2: DateTime, w: int)
    requires w > 0
    ensures GetTimeBucket(t1, w) == GetTimeBucket(t2, w)
        <==> t1.hour == t2.hour && t1.minute / w == t2.minute / w
  {
    var b1, b2 := GetTimeBucket(t1, w), GetTimeBucket(t2, w);
    if b1 == b2 {
      FloorMultiple(t1.minute, w);
      FloorMultiple(t2.minute, w);
      assert t1.hour == t2.hour;
      MulCancel(t1.minute / w, t2.minute / w, w);
    }
  }
}
