/**
 * The study-session entity: its start and end are local date-times, exchanged as text in
 * the pattern `yyyy-MM-dd'T'HH:mm:ss` (the extended format of ISO 8601 without an offset),
 * and its duration is recomputed whenever the end time is set.
 */
module StudySession {
  import opened Wrappers
  import opened Text

  /** A local date-time as the JSON layer reads and writes it. */
  datatype DateTime = DateTime(year: nat, month: nat, day: nat, hour: nat, minute: nat, second: nat)

  /** A leap year of the proleptic Gregorian calendar. */
  predicate LeapYear(year: nat) {
    year % 4 == 0 && (year % 100 != 0 || year % 400 == 0)
  }

  function DaysInMonth(year: nat, month: nat): (n: nat)
    requires 1 <= month <= 12
    ensures 28 <= n <= 31
    ensures n == 29 <==> month == 2 && LeapYear(year)
  {
    if month == 2 then (if LeapYear(year) then 29 else 28)
    else if month == 4 || month == 6 || month == 9 || month == 11 then 30
    else 31
  }

  /** The ranges each field of the pattern accepts on its own: a day up to 31 in any month. */
  predicate FieldsInRange(t: DateTime) {
    1 <= t.year <= 9999 && 1 <= t.month <= 12 && 1 <= t.day <= 31
    && t.hour < 24 && t.minute < 60 && t.second < 60
  }

  /** A real local date-time: the fields in range and the day within its month. */
  predicate ValidDateTime(t: DateTime) {
    FieldsInRange(t) && t.day <= DaysInMonth(t.year, t.month)
  }

  /** The smart resolver's treatment of a day past the end of its month: it becomes the
      month's last day. */
  function ClampDay(t: DateTime): (r: DateTime)
    requires FieldsInRange(t)
    ensures ValidDateTime(r)
    ensures r.year == t.year && r.month == t.month && r.hour == t.hour
            && r.minute == t.minute && r.second == t.second
    ensures ValidDateTime(t) ==> r == t
    ensures !ValidDateTime(t) ==> r.day == DaysInMonth(t.year, t.month) < t.day
  {
    var last := DaysInMonth(t.year, t.month);
    if t.day <= last then t else t.(day := last)
  }

  /** The pattern's separators around its six numeric fields. */
  function Layout(y: string, mo: string, d: string, h: string, mi: string, se: string): string {
    y + "-" + mo + "-" + d + "T" + h + ":" + mi + ":" + se
  }

  /** Fields of the pattern's widths sit at the pattern's positions. */
  lemma LayoutSlices(y: string, mo: string, d: string, h: string, mi: string, se: string)
    requires |y| == 4 && |mo| == 2 && |d| == 2 && |h| == 2 && |mi| == 2 && |se| == 2
    ensures var s := Layout(y, mo, d, h, mi, se);
            |s| == 19 && s[4] == '-' && s[7] == '-' && s[10] == 'T' && s[13] == ':' && s[16] == ':'
            && s[0..4] == y && s[5..7] == mo && s[8..10] == d && s[11..13] == h && s[14..16] == mi
            && s[17..19] == se
  {
    var s := Layout(y, mo, d, h, mi, se);
    assert s[0..4] == y;
    assert s[5..7] == mo;
    assert s[8..10] == d;
    assert s[11..13] == h;
    assert s[14..16] == mi;
    assert s[17..19] == se;
  }

  /** Writing a date-time with the pattern: a four-digit year and two-digit fields. */
  function Format(t: DateTime): string {
    Layout(PadLeft(Decimal(t.year), 4), TwoDigits(t.month), TwoDigits(t.day),
           TwoDigits(t.hour), TwoDigits(t.minute), TwoDigits(t.second))
  }

  /** Reading a date-time with the pattern; None is the parse error that rejects the request.
      A day past the end of its month is clamped to the month's last day. */
  function ParseLocal(s: string): (r: Option<DateTime>)
    ensures r.Some? ==> |s| == 19 && ValidDateTime(r.value)
  {
    if |s| != 19 || s[4] != '-' || s[7] != '-' || s[10] != 'T' || s[13] != ':' || s[16] != ':'
       || !AllDigits(s[0..4]) || !AllDigits(s[5..7]) || !AllDigits(s[8..10])
       || !AllDigits(s[11..13]) || !AllDigits(s[14..16]) || !AllDigits(s[17..19])
    then None
    else
      var t := DateTime(DigitsValue(s[0..4]), DigitsValue(s[5..7]), DigitsValue(s[8..10]),
                        DigitsValue(s[11..13]), DigitsValue(s[14..16]), DigitsValue(s[17..19]));
      if FieldsInRange(t) then Some(ClampDay(t)) else None
  }

  /** Text whose fields are each in range is read as that date-time, with the day clamped to
      the month. */
  lemma FormatParseClamped(t: DateTime)
    requires FieldsInRange(t)
    ensures |Format(t)| == 19
    ensures ParseLocal(Format(t)) == Some(ClampDay(t))
  {
    var y := PadLeft(Decimal(t.year), 4);
    var mo, d := TwoDigits(t.month), TwoDigits(t.day);
    var h, mi, se := TwoDigits(t.hour), TwoDigits(t.minute), TwoDigits(t.second);
    PadLeftRoundTrip(t.year, 4);
    TwoDigitsRoundTrip(t.month);
    TwoDigitsRoundTrip(t.day);
    TwoDigitsRoundTrip(t.hour);
    TwoDigitsRoundTrip(t.minute);
    TwoDigitsRoundTrip(t.second);
    LayoutSlices(y, mo, d, h, mi, se);
  }

  /** Every real date-time is read back from its own text. */
  lemma FormatParseRoundTrip(t: DateTime)
    requires ValidDateTime(t)
    ensures |Format(t)| == 19
    ensures ParseLocal(Format(t)) == Some(t)
  {
    FormatParseClamped(t);
  }

  /** `2024-02-31T10:20:30` is read as the twenty-ninth, the last day of February in a leap
      year, and `2023-04-31T10:20:30` as the thirtieth. */
  lemma ParseClampsShortMonths()
    ensures ParseLocal(Format(DateTime(2024, 2, 31, 10, 20, 30))) == Some(DateTime(2024, 2, 29, 10, 20, 30))
    ensures ParseLocal(Format(DateTime(2023, 4, 31, 10, 20, 30))) == Some(DateTime(2023, 4, 30, 10, 20, 30))
  {
    FormatParseClamped(DateTime(2024, 2, 31, 10, 20, 30));
    FormatParseClamped(DateTime(2023, 4, 31, 10, 20, 30));
  }

  /** Distinct date-times are written as distinct texts. */
  lemma FormatInjective(t: DateTime, u: DateTime)
    requires ValidDateTime(t) && ValidDateTime(u) && Format(t) == Format(u)
    ensures t == u
  {
    FormatParseRoundTrip(t);
    FormatParseRoundTrip(u);
  }

  /** `Duration.between(start, end).toMinutes()` for instants in seconds: the whole minutes
      between them, truncated toward zero. */
  function WholeMinutes(start: int, end: int): int {
    if start <= end then (end - start) / 60 else -((start - end) / 60)
  }

  /** The whole minutes never exceed the elapsed time, and miss it by less than a minute. */
  lemma WholeMinutesBounds(start: int, end: int)
    ensures start <= end ==>
      (0 <= WholeMinutes(start, end)
       && WholeMinutes(start, end) * 60 <= end - start < WholeMinutes(start, end) * 60 + 60)
    ensures end < start ==>
      (WholeMinutes(start, end) <= 0
       && WholeMinutes(start, end) * 60 - 60 < end - start <= WholeMinutes(start, end) * 60)
    ensures WholeMinutes(end, start) == -WholeMinutes(start, end)
  {
  }

  /** The entity; times are local instants in seconds. */
  class Session {
    var startTime: Option<int>
    var endTime: Option<int>
    var durationInMinutes: Option<int>
    var courseId: Option<int>
    var topicId: Option<int>

    constructor (courseId: Option<int>, topicId: Option<int>)
      ensures startTime == None && endTime == None && durationInMinutes == None
      ensures this.courseId == courseId && this.topicId == topicId
    {
      startTime, endTime, durationInMinutes := None, None, None;
      this.courseId, this.topicId := courseId, topicId;
    }

    /** Sets the start only; the duration is not recomputed. */
    method SetStartTime(t: Option<int>)
      modifies this
      ensures startTime == t
      ensures endTime == old(endTime) && durationInMinutes == old(durationInMinutes)
      ensures courseId == old(courseId) && topicId == old(topicId)
    {
      startTime := t;
    }

    /** Sets the end and, when both ends are known, the duration in whole minutes. */
    method SetEndTime(t: Option<int>)
      modifies this
      ensures endTime == t && startTime == old(startTime)
      ensures durationInMinutes
              == if startTime.Some? && t.Some? then Some(WholeMinutes(startTime.value, t.value))
                 else old(durationInMinutes)
      ensures courseId == old(courseId) && topicId == old(topicId)
    {
      endTime := t;
      if startTime.Some? && t.Some? {
        durationInMinutes := Some(WholeMinutes(startTime.value, t.value));
      }
    }

    /** Overwrites the duration with no check against the times. */
    method SetDurationInMinutes(d: Option<int>)
      modifies this
      ensures durationInMinutes == d
      ensures startTime == old(startTime) && endTime == old(endTime)
      ensures courseId == old(courseId) && topicId == old(topicId)
    {
      durationInMinutes := d;
    }
  }

  /** Setting the start after the end keeps whatever duration the end computed, so a session
      whose start moves is left with a stale duration. */
  method StartAfterEndKeepsDuration(s0: int, e: int, s1: int) returns (d: Option<int>)
    ensures d == Some(WholeMinutes(s0, e))
  {
    var s := new Session(None, None);
    s.SetStartTime(Some(s0));
    s.SetEndTime(Some(e));
    s.SetStartTime(Some(s1));
    d := s.durationInMinutes;
  }
}
