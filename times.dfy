/** `System.DateTime` in UTC, as the core uses it: adding hours, the "o" text form that
    goes into token claims, and the whole seconds since the Unix epoch that go into a
    token's expiry. */
module Times {
  import opened Wrappers

  const TicksPerSecond: int := 10_000_000
  const TicksPerHour: int := 36_000_000_000
  const TicksPerDay: int := 864_000_000_000
  /** The ticks of `DateTime.MaxValue`, 9999-12-31T23:59:59.9999999. */
  const MaxTicks: int := 3_155_378_975_999_999_999
  /** The ticks of 1970-01-01T00:00:00Z. */
  const UnixEpochTicks: int := 621_355_968_000_000_000

  /** A UTC `DateTime`: 100-nanosecond ticks since 0001-01-01T00:00:00. */
  type DateTime = t: int | 0 <= t <= MaxTicks

  /** `DateTime.AddHours`: throws `ArgumentOutOfRangeException` when the result would leave
      the range of `DateTime`. */
  function AddHours(t: DateTime, hours: int): (r: Result<DateTime>)
    ensures r.Success? <==> 0 <= t + hours * TicksPerHour <= MaxTicks
    ensures r.Success? ==> r.value - t == hours * TicksPerHour
    ensures r.Failure? ==> r.error == ArgumentOutOfRangeException
  {
    var ticks := t + hours * TicksPerHour;
    if 0 <= ticks <= MaxTicks then Success(ticks) else Failure(ArgumentOutOfRangeException)
  }

  /** `EpochTime.GetIntDate`, the JWT "exp" value: 0 for an instant at or before the Unix epoch,
      otherwise the whole seconds elapsed since it. */
  function ToUnixSeconds(t: DateTime): (r: nat)
    ensures t <= UnixEpochTicks ==> r == 0
    ensures t > UnixEpochTicks ==>
      UnixEpochTicks + r * TicksPerSecond <= t < UnixEpochTicks + (r + 1) * TicksPerSecond
  {
    if t <= UnixEpochTicks then 0 else (t - UnixEpochTicks) / TicksPerSecond
  }

  /** The last `width` decimal digits of `n`, zero-padded. */
  function Digits(n: int, width: nat): (r: string)
    decreases width
    ensures |r| == width
  {
    if width == 0 then "" else Digits(n / 10, width - 1) + [('0' as int + n % 10) as char]
  }

  /** The proleptic Gregorian (year, month, day) of the day `days` after 0001-01-01,
      counted in 400-year eras that start on 1 March. */
  function CivilFromDays(days: nat): (int, int, int)
  {
    var z := days + 306;
    var era := z / 146097;
    var dayOfEra := z - era * 146097;
    var yearOfEra := (dayOfEra - dayOfEra / 1460 + dayOfEra / 36524 - dayOfEra / 146096) / 365;
    var dayOfYear := dayOfEra - (365 * yearOfEra + yearOfEra / 4 - yearOfEra / 100);
    var shiftedMonth := (5 * dayOfYear + 2) / 153;
    var day := dayOfYear - (153 * shiftedMonth + 2) / 5 + 1;
    var month := if shiftedMonth < 10 then shiftedMonth + 3 else shiftedMonth - 9;
    (yearOfEra + era * 400 + (if month <= 2 then 1 else 0), month, day)
  }

  /** `DateTime.ToString("o")` for a UTC instant: yyyy-MM-ddTHH:mm:ss.fffffffZ. The text is
      given position by position, so that its digits are worked out only where a proof reads them. */
  function FormatRoundTrip(t: DateTime): (r: string)
    ensures |r| == 28
  {
    seq(28, i requires 0 <= i < 28 => RoundTripText(t)[i])
  }

  /** The fields of the "o" form, each zero-padded to its width, with their separators. */
  function RoundTripText(t: DateTime): (r: string)
    ensures |r| == 28
  {
    var (year, month, day) := CivilFromDays(t / TicksPerDay);
    var timeOfDay := t % TicksPerDay;
    var seconds := timeOfDay / TicksPerSecond;
    Digits(year, 4) + "-" + Digits(month, 2) + "-" + Digits(day, 2) + "T"
      + Digits(seconds / 3600, 2) + ":" + Digits(seconds / 60 % 60, 2) + ":" + Digits(seconds % 60, 2)
      + "." + Digits(timeOfDay % TicksPerSecond, 7) + "Z"
  }

  /** 10 to the power `k`. */
  function Pow10(k: nat): (r: nat)
    ensures r >= 1
  {
    if k == 0 then 1 else 10 * Pow10(k - 1)
  }

  /** The number a string of decimal digits denotes. */
  function DecimalValue(s: string): int
  {
    if |s| == 0 then 0 else 10 * DecimalValue(s[..|s| - 1]) + (s[|s| - 1] as int - '0' as int)
  }

  /** A number that fits in `width` digits is printed as exactly its decimal digits, so the
      zero-padded fields of the "o" form read back as the year, month, day and time. */
  lemma {:induction false} DigitsValue(n: nat, width: nat)
    requires n < Pow10(width)
    ensures forall i :: 0 <= i < width ==> '0' <= Digits(n, width)[i] <= '9'
    ensures DecimalValue(Digits(n, width)) == n
    decreases width
  {
    if width > 0 {
      assert n / 10 < Pow10(width - 1);
      DigitsValue(n / 10, width - 1);
      assert Digits(n, width)[..width - 1] == Digits(n / 10, width - 1);
    }
  }

  /** The day of the Unix epoch is 1970-01-01. */
  lemma CivilOfEpochDay()
    ensures CivilFromDays(UnixEpochTicks / TicksPerDay) == (1970, 1, 1)
  {
    assert UnixEpochTicks / TicksPerDay == 719162;
    var z := 719162 + 306;
    assert z / 146097 == 4;
    var doe := z - 4 * 146097;
    assert doe == 135080;
    assert (doe - doe / 1460 + doe / 36524 - doe / 146096) / 365 == 369;
    assert doe - (365 * 369 + 369 / 4 - 369 / 100) == 306;
    assert (5 * 306 + 2) / 153 == 10;
    assert 306 - (153 * 10 + 2) / 5 + 1 == 1;
  }

  /** The day of `DateTime.MinValue` is 0001-01-01. */
  lemma CivilOfFirstDay()
    ensures CivilFromDays(0) == (1, 1, 1)
  {
    assert 306 / 146097 == 0;
    assert 306 - 0 * 146097 == 306;
    assert 306 - (365 * 0 + 0 / 4 - 0 / 100) == 306;
    assert (306 - 306 / 1460 + 306 / 36524 - 306 / 146096) / 365 == 0;
    assert (5 * 306 + 2) / 153 == 10;
    assert 306 - (153 * 10 + 2) / 5 + 1 == 1;
  }

  /** The day of `DateTime.MaxValue` is 9999-12-31. */
  lemma CivilOfLastDay()
    ensures CivilFromDays(MaxTicks / TicksPerDay) == (9999, 12, 31)
  {
    assert MaxTicks / TicksPerDay == 3652058;
    var z := 3652058 + 306;
    assert z / 146097 == 24;
    var doe := z - 24 * 146097;
    assert doe == 146036;
    assert (doe - doe / 1460 + doe / 36524 - doe / 146096) / 365 == 399;
    assert doe - (365 * 399 + 399 / 4 - 399 / 100) == 305;
    assert (5 * 305 + 2) / 153 == 9;
    assert 305 - (153 * 9 + 2) / 5 + 1 == 31;
  }
}
