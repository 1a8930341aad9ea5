/** Naive (zone-less) proleptic Gregorian date-times at whole-second
    precision, as Python's datetime holds them, and the one piece of
    datetime arithmetic the simulator performs: adding a whole number of
    seconds (current_time += timedelta(seconds=...)). */
module Calendar {

  datatype DateTime = DateTime(year: int, month: int, day: int, hour: int, minute: int, second: int)

  const SECONDS_PER_DAY: nat := 86400

  predicate IsLeapYear(y: int) {
    y % 4 == 0 && (y % 100 != 0 || y % 400 == 0)
  }

  function DaysInMonth(y: int, m: int): (n: int)
    requires 1 <= m <= 12
    ensures 28 <= n <= 31
  {
    if m == 2 then (if IsLeapYear(y) then 29 else 28)
    else if m == 4 || m == 6 || m == 9 || m == 11 then 30
    else 31
  }

  /** The fields a datetime object can hold (year from 1, as datetime.MINYEAR). */
  ghost predicate IsValid(d: DateTime) {
    && d.year >= 1
    && 1 <= d.month <= 12
    && 1 <= d.day <= DaysInMonth(d.year, d.month)
    && 0 <= d.hour < 24
    && 0 <= d.minute < 60
    && 0 <= d.second < 60
  }

  type Timestamp = d: DateTime | IsValid(d) witness DateTime(1, 1, 1, 0, 0, 0)

  function SecondOfDay(d: DateTime): int {
    d.hour * 3600 + d.minute * 60 + d.second
  }

  /** The first day of the month after d's, same time of day. */
  function NextMonth(d: Timestamp): (r: Timestamp)
    ensures r.day == 1 && SecondOfDay(r) == SecondOfDay(d)
  {
    if d.month == 12 then d.(year := d.year + 1, month := 1, day := 1)
    else d.(month := d.month + 1, day := 1)
  }

  /** d moved k calendar days forward, a month at a time; the time of day is kept. */
  function AddDays(d: Timestamp, k: nat): (r: Timestamp)
    ensures r.hour == d.hour && r.minute == d.minute && r.second == d.second
    decreases k
  {
    var left := DaysInMonth(d.year, d.month) - d.day;
    if k <= left then d.(day := d.day + k)
    else AddDays(NextMonth(d), k - left - 1)
  }

  /** d + timedelta(seconds=n). */
  function AddSeconds(d: Timestamp, n: nat): Timestamp {
    var total := SecondOfDay(d) + n;
    var s := total % SECONDS_PER_DAY;
    AddDays(d, total / SECONDS_PER_DAY).(hour := s / 3600, minute := s % 3600 / 60, second := s % 60)
  }

  lemma {:induction false} AddDaysAdditive(d: Timestamp, a: nat, b: nat)
    ensures AddDays(AddDays(d, a), b) == AddDays(d, a + b)
    decreases a
  {
    var left := DaysInMonth(d.year, d.month) - d.day;
    if a > left {
      AddDaysAdditive(NextMonth(d), a - left - 1, b);
    }
  }

  /** Splitting a second of the day into hour, minute and second fields and
      recombining them gives it back. */
  lemma SplitSecondOfDay(s: int)
    requires 0 <= s < SECONDS_PER_DAY
    ensures 0 <= s / 3600 < 24 && 0 <= s % 3600 / 60 < 60 && 0 <= s % 60 < 60
    ensures s / 3600 * 3600 + s % 3600 / 60 * 60 + s % 60 == s
  {
    assert s % 3600 == s % 3600 / 60 * 60 + s % 3600 % 60;
    assert s % 3600 % 60 == s % 60 by {
      assert s == s / 3600 * 3600 + s % 3600;
      assert s / 3600 * 3600 == (s / 3600 * 60) * 60;
    }
  }

  lemma AddSecondsTimeOfDay(d: Timestamp, n: nat)
    ensures SecondOfDay(AddSeconds(d, n)) == (SecondOfDay(d) + n) % SECONDS_PER_DAY
  {
    SplitSecondOfDay((SecondOfDay(d) + n) % SECONDS_PER_DAY);
  }

  lemma AddSecondsZero(d: Timestamp)
    ensures AddSeconds(d, 0) == d
  {
    var s := SecondOfDay(d);
    assert 0 <= s < SECONDS_PER_DAY;
    assert s / 3600 == d.hour;
    assert s % 3600 == d.minute * 60 + d.second;
    assert s % 3600 / 60 == d.minute;
    assert s % 60 == d.second;
  }

  /** AddDays only moves the date: changing the time of day before or after is the same. */
  lemma {:induction false} AddDaysRetime(d: Timestamp, k: nat, h: int, mi: int, se: int)
    requires 0 <= h < 24 && 0 <= mi < 60 && 0 <= se < 60
    ensures AddDays(d.(hour := h, minute := mi, second := se), k) == AddDays(d, k).(hour := h, minute := mi, second := se)
    decreases k
  {
    var left := DaysInMonth(d.year, d.month) - d.day;
    if k > left {
      var e: Timestamp := d.(hour := h, minute := mi, second := se);
      assert NextMonth(e) == NextMonth(d).(hour := h, minute := mi, second := se);
      AddDaysRetime(NextMonth(d), k - left - 1, h, mi, se);
    }
  }

  /** Adding a seconds and then b seconds is adding a + b seconds: the
      repeated `current_time += interval` walk equals one addition from the start. */
  lemma AddSecondsAdditive(d: Timestamp, a: nat, b: nat)
    ensures AddSeconds(AddSeconds(d, a), b) == AddSeconds(d, a + b)
  {
    var t1 := SecondOfDay(d) + a;
    var s1 := t1 % SECONDS_PER_DAY;
    SplitSecondOfDay(s1);
    var mid := AddDays(d, t1 / SECONDS_PER_DAY);
    var e := AddSeconds(d, a);
    assert e == mid.(hour := s1 / 3600, minute := s1 % 3600 / 60, second := s1 % 60);
    assert SecondOfDay(e) == s1;
    var t2 := s1 + b;
    var t := SecondOfDay(d) + a + b;
    DayCarry(t1 / SECONDS_PER_DAY, t2);
    assert t == t1 / SECONDS_PER_DAY * SECONDS_PER_DAY + t2;
    AddDaysRetime(mid, t2 / SECONDS_PER_DAY, s1 / 3600, s1 % 3600 / 60, s1 % 60);
    AddDaysAdditive(d, t1 / SECONDS_PER_DAY, t2 / SECONDS_PER_DAY);
  }

  lemma DayCarry(q: nat, r: nat)
    ensures (q * SECONDS_PER_DAY + r) / SECONDS_PER_DAY == q + r / SECONDS_PER_DAY
    ensures (q * SECONDS_PER_DAY + r) % SECONDS_PER_DAY == r % SECONDS_PER_DAY
  {
  }
}
