/**
 * The insights page's derived values: the minute formatter, the completion gradient, the best
 * day of the week, the weekly and daily totals, the non-zero courses and the streak dots.
 * The fetched summaries are parameters.
 */
module InsightsPage {
  import opened Wrappers
  import opened Text
  import Seqs
  import SSS = StudySessionService

  /** `formatTime`: a missing or zero value is "0m", under an hour "<n>m", otherwise hours and
      the remaining minutes, the minutes left out when there are none. */
  function FormatTime(minutes: Option<int>): string {
    if minutes == None || minutes == Some(0) then "0m"
    else if minutes.value < 60 then IntDecimal(minutes.value) + "m"
    else
      var hours := minutes.value / 60;
      var mins := minutes.value % 60;
      if mins > 0 then Decimal(hours) + ("h " + Decimal(mins) + "m") else Decimal(hours) + "h"
  }

  /** Reads "<n>m", "<h>h" or "<h>h <m>m" back as a number of minutes. */
  function ReadTime(s: string): Option<nat> {
    var (d, rest) := SplitDigits(s);
    if d == [] then None else ReadUnit(DigitsValue(d), rest)
  }

  /** What follows the leading number `v`. */
  function ReadUnit(v: nat, rest: string): Option<nat> {
    if rest == "m" then Some(v)
    else if rest == "h" then Some(60 * v)
    else if |rest| >= 2 && rest[..2] == "h " then
      var (d2, r2) := SplitDigits(rest[2..]);
      if d2 != [] && r2 == "m" then Some(60 * v + DigitsValue(d2)) else None
    else None
  }

  /** A run of digits followed by a non-digit is read as the number the digits denote. */
  lemma ReadTimeOfDigits(d: string, rest: string)
    requires d != [] && AllDigits(d)
    requires rest == [] || !IsDigit(rest[0])
    ensures ReadTime(d + rest) == ReadUnit(DigitsValue(d), rest)
  {
    SplitDigitsOf(d, rest);
  }

  /** The hours-and-minutes tail "h <digits>m" adds the minutes to sixty times the hours. */
  lemma ReadUnitOfDigits(v: nat, d: string)
    requires d != [] && AllDigits(d)
    ensures ReadUnit(v, "h " + d + "m") == Some(60 * v + DigitsValue(d))
  {
    var rest := "h " + d + "m";
    assert rest[..2] == "h " && rest[2..] == d + "m";
    SplitDigitsOf(d, "m");
  }

  lemma ReadMinutes(n: nat)
    ensures ReadTime(Decimal(n) + "m") == Some(n)
  {
    ReadTimeOfDigits(Decimal(n), "m");
    DecimalRoundTrip(n);
  }

  lemma ReadHours(h: nat)
    ensures ReadTime(Decimal(h) + "h") == Some(60 * h)
  {
    ReadTimeOfDigits(Decimal(h), "h");
    DecimalRoundTrip(h);
  }

  /** "<dh>h <dm>m" is read as sixty times the hours plus the minutes the digits denote. */
  lemma ReadHoursMinutesDigits(dh: string, dm: string, h: nat, m: nat)
    requires dh != [] && AllDigits(dh) && dm != [] && AllDigits(dm)
    requires DigitsValue(dh) == h && DigitsValue(dm) == m
    ensures ReadTime(dh + ("h " + dm + "m")) == Some(60 * h + m)
  {
    ReadTimeOfDigits(dh, "h " + dm + "m");
    ReadUnitOfDigits(h, dm);
  }

  lemma ReadHoursMinutes(h: nat, m: nat)
    ensures ReadTime(Decimal(h) + ("h " + Decimal(m) + "m")) == Some(60 * h + m)
  {
    DecimalRoundTrip(h);
    DecimalRoundTrip(m);
    ReadHoursMinutesDigits(Decimal(h), Decimal(m), h, m);
  }

  /** Every non-negative minute count is shown in a form that reads back to it, and a missing
      value reads as zero. */
  lemma FormatTimeRoundTrip(n: nat)
    ensures ReadTime(FormatTime(Some(n))) == Some(n)
    ensures ReadTime(FormatTime(None)) == Some(0)
  {
    ReadMinutes(0);
    assert FormatTime(None) == Decimal(0) + "m";
    if n == 0 {
      assert FormatTime(Some(n)) == Decimal(0) + "m";
    } else if n < 60 {
      assert FormatTime(Some(n)) == Decimal(n) + "m";
      ReadMinutes(n);
    } else {
      var h, m := n / 60, n % 60;
      assert n == 60 * h + m;
      if m > 0 {
        assert FormatTime(Some(n)) == Decimal(h) + ("h " + Decimal(m) + "m");
        ReadHoursMinutes(h, m);
      } else {
        assert FormatTime(Some(n)) == Decimal(h) + "h";
        ReadHours(h);
      }
    }
  }

  const Gradients: seq<string> := [
    "from-purple-500 to-purple-300", "from-indigo-500 to-indigo-300", "from-blue-500 to-blue-300",
    "from-teal-500 to-teal-300", "from-green-500 to-green-300"]

  /** `getGradientColor`: the thresholds 80, 60, 40, 20 tried from the top, the first met wins. */
  function GradientColor(percentage: real): string {
    if percentage >= 80.0 then Gradients[4]
    else if percentage >= 60.0 then Gradients[3]
    else if percentage >= 40.0 then Gradients[2]
    else if percentage >= 20.0 then Gradients[1]
    else Gradients[0]
  }

  /** How many of the thresholds 20, 40, 60, 80 the percentage reaches. */
  function ThresholdsMet(percentage: real): (k: nat)
    ensures k <= 4
  {
    (if percentage >= 20.0 then 1 else 0) + (if percentage >= 40.0 then 1 else 0)
    + (if percentage >= 60.0 then 1 else 0) + (if percentage >= 80.0 then 1 else 0)
  }

  /** The colour is the one for the number of thresholds reached, so a higher percentage never
      gets a lower colour. */
  lemma GradientColorByThresholds(p: real, q: real)
    ensures GradientColor(p) == Gradients[ThresholdsMet(p)]
    ensures p <= q ==> ThresholdsMet(p) <= ThresholdsMet(q)
  {
  }

  /** `bestDay`: a left fold that replaces the best only on a strictly greater time, starting
      from no day with time 0. */
  function BestDay(entries: seq<(string, int)>): (string, int)
    decreases |entries|
  {
    if entries == [] then ("", 0)
    else
      var best := BestDay(entries[..|entries| - 1]);
      var e := entries[|entries| - 1];
      if e.1 > best.1 then e else best
  }

  /** The best time is the largest time, or 0; when it is positive the best day is the first
      entry with that time (ties keep the earlier day), otherwise there is no best day. */
  lemma {:induction false} BestDayIsFirstMaximum(entries: seq<(string, int)>)
    ensures BestDay(entries).1 >= 0
    ensures forall i :: 0 <= i < |entries| ==> entries[i].1 <= BestDay(entries).1
    ensures BestDay(entries).1 > 0 ==>
              exists i :: 0 <= i < |entries| && entries[i] == BestDay(entries)
                          && forall j :: 0 <= j < i ==> entries[j].1 < BestDay(entries).1
    ensures BestDay(entries).1 == 0 ==> BestDay(entries) == ("", 0)
    decreases |entries|
  {
    if entries != [] {
      var init := entries[..|entries| - 1];
      BestDayIsFirstMaximum(init);
      var best := BestDay(init);
      var e := entries[|entries| - 1];
      assert forall i :: 0 <= i < |init| ==> entries[i] == init[i];
      if e.1 > best.1 {
        assert entries[|entries| - 1] == BestDay(entries);
      } else if best.1 > 0 {
        var i :| 0 <= i < |init| && init[i] == best && forall j :: 0 <= j < i ==> init[j].1 < best.1;
        assert entries[i] == BestDay(entries);
      }
    }
  }

  /** `reduce((sum, t) => sum + (t || 0), 0)`: a left fold with missing values as 0. */
  function Total(values: seq<Option<int>>): int
    decreases |values|
  {
    if values == [] then 0 else Total(values[..|values| - 1]) + values[|values| - 1].GetOr(0)
  }

  function OrZero(values: seq<Option<int>>): seq<int> {
    seq(|values|, i requires 0 <= i < |values| => values[i].GetOr(0))
  }

  /** The fold is the sum of the values present. */
  lemma {:induction false} TotalIsSum(values: seq<Option<int>>)
    ensures Total(values) == Seqs.Sum(OrZero(values))
    decreases |values|
  {
    if values != [] {
      var init := values[..|values| - 1];
      TotalIsSum(init);
      assert OrZero(values) == OrZero(init) + [values[|values| - 1].GetOr(0)];
      Seqs.SumConcat(OrZero(init), [values[|values| - 1].GetOr(0)]);
    }
  }

  /** The week's total on the page is the sum of the seven buckets the service returned. */
  lemma WeeklyTotalOfSummary(buckets: seq<(string, int)>)
    ensures Total(seq(|buckets|, i requires 0 <= i < |buckets| => Some(buckets[i].1)))
            == Seqs.Sum(seq(|buckets|, i requires 0 <= i < |buckets| => buckets[i].1))
  {
    var values := seq(|buckets|, i requires 0 <= i < |buckets| => Some(buckets[i].1));
    TotalIsSum(values);
    assert OrZero(values) == seq(|buckets|, i requires 0 <= i < |buckets| => buckets[i].1);
  }

  /** `nonZeroCourses`: the completion entries whose percentage is positive. */
  function NonZeroCourses(completion: seq<(string, real)>): seq<(string, real)> {
    Seqs.Filter(completion, (e: (string, real)) => e.1 > 0.0)
  }

  lemma NonZeroCoursesExact(completion: seq<(string, real)>, e: (string, real))
    ensures e in NonZeroCourses(completion) <==> e in completion && e.1 > 0.0
    ensures Seqs.IsSubsequence(NonZeroCourses(completion), completion)
  {
    Seqs.FilterIsSubsequence(completion, (e: (string, real)) => e.1 > 0.0);
    if e in completion && e.1 > 0.0 {
      var i :| 0 <= i < |completion| && completion[i] == e;
    }
  }

  /** The streak card's dots: `min(streak, 7)` filled ones, then hollow ones up to seven. */
  function StreakDots(streak: nat): seq<bool> {
    var filled := if streak < 7 then streak else 7;
    seq(filled, i => true) + seq(7 - filled, i => false)
  }

  function CountFilled(dots: seq<bool>): nat
    decreases |dots|
  {
    if dots == [] then 0 else (if dots[0] then 1 else 0) + CountFilled(dots[1..])
  }

  lemma {:induction false} CountFilledRun(k: nat, m: nat)
    ensures CountFilled(seq(k, i => true) + seq(m, i => false)) == k
    decreases k + m
  {
    var d := seq(k, i => true) + seq(m, i => false);
    if k > 0 {
      CountFilledRun(k - 1, m);
      assert d[1..] == seq(k - 1, i => true) + seq(m, i => false);
    } else if m > 0 {
      CountFilledRun(0, m - 1);
      assert d[1..] == seq(0, i => true) + seq(m - 1, i => false);
    }
  }

  /** Always seven dots, as many filled as the streak up to a week, the filled ones first. */
  lemma StreakDotsShape(streak: nat)
    ensures |StreakDots(streak)| == 7
    ensures CountFilled(StreakDots(streak)) == if streak < 7 then streak else 7
    ensures forall i, j :: 0 <= i < j < 7 && StreakDots(streak)[j] ==> StreakDots(streak)[i]
  {
    var filled := if streak < 7 then streak else 7;
    CountFilledRun(filled, 7 - filled);
  }

  /** `getDayName`: `substring(0, 3)`. */
  function DayName(dayName: string): (r: string)
    ensures |r| == if |dayName| < 3 then |dayName| else 3
    ensures StartsWith(dayName, r)
  {
    if |dayName| < 3 then dayName else dayName[..3]
  }

  /** The seven weekday keys of the weekly summary keep seven different labels. */
  lemma DayNamesStayDistinct()
    ensures forall i, j :: 0 <= i < j < 7 ==> DayName(SSS.DayNames[i]) != DayName(SSS.DayNames[j])
  {
    assert DayName(SSS.DayNames[0]) == "MON" && DayName(SSS.DayNames[1]) == "TUE";
    assert DayName(SSS.DayNames[2]) == "WED" && DayName(SSS.DayNames[3]) == "THU";
    assert DayName(SSS.DayNames[4]) == "FRI" && DayName(SSS.DayNames[5]) == "SAT";
    assert DayName(SSS.DayNames[6]) == "SUN";
  }
}
