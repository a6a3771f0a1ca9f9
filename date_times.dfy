/**
 * Python `datetime` on the proleptic Gregorian calendar, with times as whole
 * seconds since 0001-01-01T00:00:00 (`datetime.min`), and the one timestamp
 * shape the script ever parses: `YYYYMMDD` + `T` + `HH:MM:SS`.
 */
module DateTimes {
  import opened Wrappers
  import opened Errors
  import opened PyStrings

  datatype DateTime = DateTime(year: int, month: int, day: int, hour: int, minute: int, second: int)

  const SecondsPerDay := 86400

  /** Days from 0001-01-01 to 10000-01-01, one past `date.max.toordinal()`. */
  const DaysBeforeYear10000 := 3652059

  /** 9999-12-31T23:59:59, the latest whole second a `datetime` can hold. */
  const MaxSeconds := DaysBeforeYear10000 * SecondsPerDay - 1

  predicate IsLeap(year: int) {
    year % 4 == 0 && (year % 100 != 0 || year % 400 == 0)
  }

  function DaysInYear(year: int): int {
    if IsLeap(year) then 366 else 365
  }

  function DaysInMonth(year: int, month: int): int
    requires 1 <= month <= 12
  {
    if month == 2 then (if IsLeap(year) then 29 else 28)
    else if month == 4 || month == 6 || month == 9 || month == 11 then 30
    else 31
  }

  /** Days in the months of `year` before `month`. */
  function DaysBeforeMonth(year: int, month: int): int
    requires 1 <= month <= 12
  {
    [0, 31, 59, 90, 120, 151, 181, 212, 243, 273, 304, 334][month - 1]
      + (if month > 2 && IsLeap(year) then 1 else 0)
  }

  /** Days from 0001-01-01 to January 1 of `year`. */
  function DaysBeforeYear(year: int): int
    requires year >= 1
  {
    var y := year - 1;
    365 * y + y / 4 - y / 100 + y / 400
  }

  predicate Valid(dt: DateTime) {
    && 1 <= dt.year <= 9999
    && 1 <= dt.month <= 12
    && 1 <= dt.day <= DaysInMonth(dt.year, dt.month)
    && 0 <= dt.hour < 24
    && 0 <= dt.minute < 60
    && 0 <= dt.second < 60
  }

  /** Days from 0001-01-01 to the date of `dt`. */
  function Ordinal(dt: DateTime): int
    requires Valid(dt)
  {
    DaysBeforeYear(dt.year) + DaysBeforeMonth(dt.year, dt.month) + dt.day - 1
  }

  function ToSeconds(dt: DateTime): int
    requires Valid(dt)
  {
    Ordinal(dt) * SecondsPerDay + dt.hour * 3600 + dt.minute * 60 + dt.second
  }

  predicate InRange(t: int) {
    0 <= t <= MaxSeconds
  }

  /** `datetime + timedelta(seconds=delta)`, which raises OverflowError outside the range. */
  function AddSeconds(t: int, delta: int): (r: Result<int, Error>)
    ensures r.Success? <==> InRange(t + delta)
    ensures r.Success? ==> r.value == t + delta
    ensures r.Failure? ==> r.error == DateOverflow
  {
    if InRange(t + delta) then Success(t + delta) else Failure(DateOverflow)
  }

  lemma DaysBeforeYearStep(year: int)
    requires year >= 1
    ensures DaysBeforeYear(year + 1) == DaysBeforeYear(year) + DaysInYear(year)
  {
    var y := year - 1;
    assert (y + 1) / 4 == y / 4 + (if year % 4 == 0 then 1 else 0);
    assert (y + 1) / 100 == y / 100 + (if year % 100 == 0 then 1 else 0);
    assert (y + 1) / 400 == y / 400 + (if year % 400 == 0 then 1 else 0);
  }

  lemma {:induction false} DaysBeforeYearMonotone(year: int, later: int)
    requires 1 <= year <= later
    ensures DaysBeforeYear(year) <= DaysBeforeYear(later)
    decreases later - year
  {
    if year < later {
      DaysBeforeYearStep(year);
      DaysBeforeYearMonotone(year + 1, later);
    }
  }

  lemma DaysBeforeYear10000Value()
    ensures DaysBeforeYear(10000) == DaysBeforeYear10000
  {
  }

  lemma MonthFitsYear(year: int, month: int)
    requires 1 <= month <= 12
    ensures DaysBeforeMonth(year, month) + DaysInMonth(year, month) <= DaysInYear(year)
    ensures month < 12 ==> DaysBeforeMonth(year, month + 1) == DaysBeforeMonth(year, month) + DaysInMonth(year, month)
    ensures month == 12 ==> DaysBeforeMonth(year, month) + DaysInMonth(year, month) == DaysInYear(year)
  {
  }

  /** The ends of the range are `datetime.min`, 0001-01-01T00:00:00, and `datetime.max`, 9999-12-31T23:59:59. */
  lemma RangeEnds()
    ensures Valid(DateTime(1, 1, 1, 0, 0, 0)) && ToSeconds(DateTime(1, 1, 1, 0, 0, 0)) == 0
    ensures Valid(DateTime(9999, 12, 31, 23, 59, 59)) && ToSeconds(DateTime(9999, 12, 31, 23, 59, 59)) == MaxSeconds
  {
    DaysBeforeYear10000Value();
    DaysBeforeYearStep(9999);
  }

  /** Every valid date and time lies within `datetime.min` .. `datetime.max`. */
  lemma {:induction false} ToSecondsInRange(dt: DateTime)
    requires Valid(dt)
    ensures InRange(ToSeconds(dt))
  {
    MonthFitsYear(dt.year, dt.month);
    DaysBeforeYearStep(dt.year);
    DaysBeforeYearMonotone(dt.year + 1, 10000);
    DaysBeforeYear10000Value();
    assert 0 <= Ordinal(dt) < DaysBeforeYear10000;
  }

  /** The calendar day after the date of `dt`, at the same time of day. */
  function NextDay(dt: DateTime): DateTime
    requires Valid(dt)
  {
    if dt.day < DaysInMonth(dt.year, dt.month) then dt.(day := dt.day + 1)
    else if dt.month < 12 then dt.(month := dt.month + 1, day := 1)
    else dt.(year := dt.year + 1, month := 1, day := 1)
  }

  /** Consecutive calendar days are consecutive ordinals. */
  lemma OrdinalOfNextDay(dt: DateTime)
    requires Valid(dt) && Valid(NextDay(dt))
    ensures Ordinal(NextDay(dt)) == Ordinal(dt) + 1
  {
    MonthFitsYear(dt.year, dt.month);
    if dt.day == DaysInMonth(dt.year, dt.month) && dt.month == 12 {
      DaysBeforeYearStep(dt.year);
    }
  }

  /** The first 15 characters `YYYYMMDDTHH:MM:` of a timestamp; each field must fit its width. */
  function FormatMinute(dt: DateTime): (s: string)
    requires 0 <= dt.year < 10000 && 0 <= dt.month < 100 && 0 <= dt.day < 100
    requires 0 <= dt.hour < 100 && 0 <= dt.minute < 100
    ensures |s| == 15
  {
    Pad(dt.year, 4) + Pad(dt.month, 2) + Pad(dt.day, 2) + "T"
      + Pad(dt.hour, 2) + ":" + Pad(dt.minute, 2) + ":"
  }

  /** The 17 characters `YYYYMMDDTHH:MM:SS`. */
  function Format(dt: DateTime): (s: string)
    requires Fits(dt)
    ensures |s| == 17
  {
    FormatMinute(dt) + Pad(dt.second, 2)
  }

  predicate Fits(dt: DateTime) {
    0 <= dt.year < 10000 && 0 <= dt.month < 100 && 0 <= dt.day < 100
    && 0 <= dt.hour < 100 && 0 <= dt.minute < 100 && 0 <= dt.second < 100
  }

  /** `s` has the shape `DDDDDDDDTDD:DD:DD`, each `D` an ASCII digit. */
  predicate Shaped(s: string) {
    && |s| == 17
    && AllDigits(s[0..4]) && AllDigits(s[4..6]) && AllDigits(s[6..8]) && s[8] == 'T'
    && AllDigits(s[9..11]) && s[11] == ':' && AllDigits(s[12..14]) && s[14] == ':'
    && AllDigits(s[15..17])
  }

  /** Reads the fields of `YYYYMMDDTHH:MM:SS`, without checking the calendar. */
  function ParseFields(s: string): Option<DateTime>
  {
    if Shaped(s) then
      Some(DateTime(DecimalValue(s[0..4]), DecimalValue(s[4..6]), DecimalValue(s[6..8]),
                    DecimalValue(s[9..11]), DecimalValue(s[12..14]), DecimalValue(s[15..17])))
    else None
  }

  /**
   * The role dateutil's `parser.parse` plays for this shape: a valid date and
   * time gives its instant; anything else raises ValueError.
   */
  function ParseTimestamp(s: string): Result<int, Error>
  {
    match ParseFields(s)
    case Some(dt) => if Valid(dt) then Success(ToSeconds(dt)) else Failure(BadTimestamp(s))
    case None => Failure(BadTimestamp(s))
  }

  lemma FormatSlices(dt: DateTime)
    requires Fits(dt)
    ensures var s := Format(dt);
      && s[0..4] == Pad(dt.year, 4) && s[4..6] == Pad(dt.month, 2) && s[6..8] == Pad(dt.day, 2)
      && s[8] == 'T' && s[9..11] == Pad(dt.hour, 2) && s[11] == ':'
      && s[12..14] == Pad(dt.minute, 2) && s[14] == ':' && s[15..17] == Pad(dt.second, 2)
  {
    var date := Pad(dt.year, 4) + Pad(dt.month, 2) + Pad(dt.day, 2) + "T";
    var time := Pad(dt.hour, 2) + ":" + Pad(dt.minute, 2) + ":" + Pad(dt.second, 2);
    assert Format(dt) == date + time;
    assert time[0..2] == Pad(dt.hour, 2) && time[3..5] == Pad(dt.minute, 2) && time[6..8] == Pad(dt.second, 2);
  }

  /** Formatting then parsing gives back every field. */
  lemma ParseFieldsOfFormat(dt: DateTime)
    requires Fits(dt)
    ensures ParseFields(Format(dt)) == Some(dt)
  {
    FormatSlices(dt);
    DecimalValueOfPad(dt.year, 4);
    DecimalValueOfPad(dt.month, 2);
    DecimalValueOfPad(dt.day, 2);
    DecimalValueOfPad(dt.hour, 2);
    DecimalValueOfPad(dt.minute, 2);
    DecimalValueOfPad(dt.second, 2);
  }

  /** Parsing then formatting gives back the text: the parser accepts exactly this shape. */
  lemma FormatOfParseFields(s: string)
    requires ParseFields(s).Some?
    ensures Fits(ParseFields(s).value) && Format(ParseFields(s).value) == s
  {
    var dt := ParseFields(s).value;
    PadOfDecimalValue(s[0..4]);
    PadOfDecimalValue(s[4..6]);
    PadOfDecimalValue(s[6..8]);
    PadOfDecimalValue(s[9..11]);
    PadOfDecimalValue(s[12..14]);
    PadOfDecimalValue(s[15..17]);
    FormatSlices(dt);
    assert s == s[0..4] + s[4..6] + s[6..8] + [s[8]] + s[9..11] + [s[11]] + s[12..14] + [s[14]] + s[15..17];
  }

  /** A timestamp parses exactly when it is the text of a valid date and time, to that instant. */
  lemma ParseTimestampExactly(s: string)
    ensures ParseTimestamp(s).Success? <==> ParseFields(s).Some? && Valid(ParseFields(s).value)
    ensures ParseTimestamp(s).Success? ==>
      Format(ParseFields(s).value) == s && ParseTimestamp(s).value == ToSeconds(ParseFields(s).value)
    ensures ParseTimestamp(s).Failure? ==> ParseTimestamp(s).error == BadTimestamp(s)
  {
    if ParseFields(s).Some? {
      FormatOfParseFields(s);
    }
  }

  lemma ParseTimestampOfFormat(dt: DateTime)
    requires Valid(dt)
    ensures ParseTimestamp(Format(dt)) == Success(ToSeconds(dt))
    ensures InRange(ToSeconds(dt))
  {
    ParseFieldsOfFormat(dt);
    ToSecondsInRange(dt);
  }
}
