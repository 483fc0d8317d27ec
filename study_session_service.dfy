/**
 * The study-session service: saving a session (with its duration rule and the challenge
 * update it triggers), the daily and weekly summaries, the current streak and the per-course
 * and per-topic totals. The session repository is a sequence of saved rows; the current date
 * and the start of the current week are parameters.
 */
module StudySessionService {
  import opened Wrappers
  import Seqs
  import SS = StudySession
  import CS = ChallengeService

  /** The stand-in user every progress update is made for. */
  const DummyUserId := 1

  const SecondsPerDay := 86400

  /** A saved session row; instants are local times in seconds. */
  datatype SessionRecord = SessionRecord(id: int, startTime: Option<int>, endTime: Option<int>,
                                         durationInMinutes: Option<int>, courseId: Option<int>,
                                         topicId: Option<int>)

  // ---------------------------------------------------------------- daily summary

  /** One row of the per-day query: a date (day number) and a total, either possibly null. */
  datatype RawDay = RawDay(date: Option<int>, total: Option<int>)

  datatype DailySummary = DailySummary(date: int, total: int)

  predicate KeepsDay(r: RawDay) {
    r.date.Some? && r.total.Some? && r.total.value > 0
  }

  function Summaries(kept: seq<RawDay>): seq<DailySummary>
    requires forall i :: 0 <= i < |kept| ==> KeepsDay(kept[i])
  {
    seq(|kept|, i requires 0 <= i < |kept| && KeepsDay(kept[i]) => DailySummary(kept[i].date.value, kept[i].total.value))
  }

  /** The daily summary: the rows with a date and a positive total, in query order. */
  function DailyRows(raw: seq<RawDay>): seq<DailySummary> {
    Summaries(Seqs.Filter(raw, KeepsDay))
  }

  /** Every summary row has a positive total, and every query row with a date and a positive
      total is in the summary. */
  lemma DailyRowsExact(raw: seq<RawDay>)
    ensures forall k :: 0 <= k < |DailyRows(raw)| ==> DailyRows(raw)[k].total > 0
    ensures forall j :: 0 <= j < |raw| && KeepsDay(raw[j]) ==>
              DailySummary(raw[j].date.value, raw[j].total.value) in DailyRows(raw)
  {
    var kept := Seqs.Filter(raw, KeepsDay);
    forall j | 0 <= j < |raw| && KeepsDay(raw[j])
      ensures DailySummary(raw[j].date.value, raw[j].total.value) in DailyRows(raw)
    {
      var m :| 0 <= m < |kept| && kept[m] == raw[j];
      assert DailyRows(raw)[m] == DailySummary(raw[j].date.value, raw[j].total.value);
    }
  }

  /** Rows are kept in query order: the summary of a longer result extends the summary of its
      prefix. */
  lemma DailyRowsConcat(a: seq<RawDay>, b: seq<RawDay>)
    ensures DailyRows(a + b) == DailyRows(a) + DailyRows(b)
  {
    Seqs.FilterConcat(a, b, KeepsDay);
  }

  // ---------------------------------------------------------------- weekly summary

  const DayNames: seq<string> :=
    ["MONDAY", "TUESDAY", "WEDNESDAY", "THURSDAY", "FRIDAY", "SATURDAY", "SUNDAY"]

  /** The day of the week (0 for Monday to 6 for Sunday) of instant `t`, where `weekStart` is
      a Monday at 00:00. */
  function Weekday(t: int, weekStart: int): nat {
    ((t - weekStart) / SecondsPerDay) % 7
  }

  /** The filter of the weekly summary: a start time, not before Monday 00:00. */
  predicate InWeek(s: SessionRecord, weekStart: int) {
    s.startTime.Some? && s.startTime.value >= weekStart
  }

  /** The minutes of the counted sessions starting on weekday `d`, in order. */
  function BucketMinutes(ss: seq<SessionRecord>, weekStart: int, d: nat): seq<int> {
    if ss == [] then []
    else
      var last := ss[|ss| - 1];
      BucketMinutes(ss[..|ss| - 1], weekStart, d)
      + (if InWeek(last, weekStart) && Weekday(last.startTime.value, weekStart) == d
         then [last.durationInMinutes.GetOr(0)] else [])
  }

  /** The minutes of all counted sessions, in order. */
  function WeekMinutes(ss: seq<SessionRecord>, weekStart: int): seq<int> {
    if ss == [] then []
    else
      var last := ss[|ss| - 1];
      WeekMinutes(ss[..|ss| - 1], weekStart)
      + (if InWeek(last, weekStart) then [last.durationInMinutes.GetOr(0)] else [])
  }

  /** Unboxing a null duration of a counted session throws. */
  predicate WeekHasNullDuration(ss: seq<SessionRecord>, weekStart: int) {
    exists j :: 0 <= j < |ss| && InWeek(ss[j], weekStart) && ss[j].durationInMinutes.None?
  }

  function BucketTotal(ss: seq<SessionRecord>, weekStart: int): int {
    Seqs.Sum(BucketMinutes(ss, weekStart, 0)) + Seqs.Sum(BucketMinutes(ss, weekStart, 1))
    + Seqs.Sum(BucketMinutes(ss, weekStart, 2)) + Seqs.Sum(BucketMinutes(ss, weekStart, 3))
    + Seqs.Sum(BucketMinutes(ss, weekStart, 4)) + Seqs.Sum(BucketMinutes(ss, weekStart, 5))
    + Seqs.Sum(BucketMinutes(ss, weekStart, 6))
  }

  /** Each counted session lands in exactly one of the seven buckets: together they hold the
      minutes of all counted sessions. */
  lemma {:induction false} BucketsPartitionWeek(ss: seq<SessionRecord>, weekStart: int)
    ensures BucketTotal(ss, weekStart) == Seqs.Sum(WeekMinutes(ss, weekStart))
  {
    if ss != [] {
      var init, last := ss[..|ss| - 1], ss[|ss| - 1];
      BucketsPartitionWeek(init, weekStart);
      var x := last.durationInMinutes.GetOr(0);
      var inWeek := InWeek(last, weekStart);
      Seqs.SumConcat(WeekMinutes(init, weekStart), if inWeek then [x] else []);
      forall d: nat | d < 7
        ensures Seqs.Sum(BucketMinutes(ss, weekStart, d))
                == Seqs.Sum(BucketMinutes(init, weekStart, d))
                   + (if inWeek && Weekday(last.startTime.value, weekStart) == d then x else 0)
      {
        Seqs.SumConcat(BucketMinutes(init, weekStart, d),
                       if inWeek && Weekday(last.startTime.value, weekStart) == d then [x] else []);
      }
    }
  }

  // ---------------------------------------------------------------- streak

  /** The number of leading dates that are today, yesterday, and so on. */
  function StreakLength(dates: seq<int>, day: int): (n: nat)
    ensures n <= |dates|
    ensures dates != [] && dates[0] != day ==> n == 0
  {
    if dates == [] || dates[0] != day then 0 else 1 + StreakLength(dates[1..], day - 1)
  }

  /** The streak is the longest prefix of the dates in which date `i` is `today - i`. */
  lemma {:induction false} StreakLengthIsLongestPrefix(dates: seq<int>, today: int, n: nat)
    requires n <= |dates|
    ensures (n == StreakLength(dates, today)) <==>
      ((forall i :: 0 <= i < n ==> dates[i] == today - i) && (n < |dates| ==> dates[n] != today - n))
    decreases n
  {
    if n > 0 && dates[0] == today {
      StreakLengthIsLongestPrefix(dates[1..], today - 1, n - 1);
      assert forall i :: 1 <= i < n ==> dates[i] == dates[1..][i - 1];
    }
  }

  // ---------------------------------------------------------------- totals

  /** The minutes of the sessions `matches` selects; None when one of them has a null
      duration, which the unboxing sum throws on. */
  function TotalMinutes(ss: seq<SessionRecord>, matches: SessionRecord -> bool): Option<int> {
    if ss == [] then Some(0)
    else
      var rest := TotalMinutes(ss[1..], matches);
      if !matches(ss[0]) then rest
      else if ss[0].durationInMinutes.None? || rest.None? then None
      else Some(ss[0].durationInMinutes.value + rest.value)
  }

  function TotalMinutesByCourseId(ss: seq<SessionRecord>, courseId: int): Option<int> {
    TotalMinutes(ss, (s: SessionRecord) => s.courseId == Some(courseId))
  }

  function TotalMinutesByTopicId(ss: seq<SessionRecord>, topicId: int): Option<int> {
    TotalMinutes(ss, (s: SessionRecord) => s.topicId == Some(topicId))
  }

  /** Totals add up over any split of the sessions. */
  lemma {:induction false} TotalMinutesConcat(a: seq<SessionRecord>, b: seq<SessionRecord>,
                                              matches: SessionRecord -> bool)
    ensures TotalMinutes(a + b, matches).Some?
            <==> TotalMinutes(a, matches).Some? && TotalMinutes(b, matches).Some?
    ensures TotalMinutes(a + b, matches).Some? ==>
              TotalMinutes(a + b, matches).value
              == TotalMinutes(a, matches).value + TotalMinutes(b, matches).value
  {
    if a == [] {
      assert a + b == b;
    } else {
      assert (a + b)[1..] == a[1..] + b;
      TotalMinutesConcat(a[1..], b, matches);
    }
  }

  /** A session of another course changes no course total, and a new session of the course
      adds exactly its minutes. */
  lemma CourseTotalAfterSave(ss: seq<SessionRecord>, s: SessionRecord, courseId: int)
    requires TotalMinutesByCourseId(ss, courseId).Some?
    ensures s.courseId != Some(courseId) ==>
              TotalMinutesByCourseId(ss + [s], courseId) == TotalMinutesByCourseId(ss, courseId)
    ensures s.courseId == Some(courseId) && s.durationInMinutes.Some? ==>
              TotalMinutesByCourseId(ss + [s], courseId)
              == Some(TotalMinutesByCourseId(ss, courseId).value + s.durationInMinutes.value)
  {
    TotalMinutesConcat(ss, [s], (x: SessionRecord) => x.courseId == Some(courseId));
  }

  // ---------------------------------------------------------------- the service

  class Service {
    var sessions: seq<SessionRecord>
    var nextId: int
    const challenges: CS.ChallengeStore

    ghost predicate Valid()
      reads this, challenges
    {
      challenges.Valid()
    }

    constructor (store: CS.ChallengeStore)
      requires store.Valid()
      ensures Valid() && sessions == [] && challenges == store
    {
      sessions, nextId := [], 1;
      challenges := store;
    }

    /** `createSession`: when both ends are present, the duration becomes the whole minutes
        between them, replacing any the client sent; the session is saved; then, only if it
        has a duration, the challenges are updated. That update runs in its own transaction:
        when it throws, the progress table is unchanged but the session stays saved. */
    method CreateSession(s: SS.Session, today: int) returns (saved: SessionRecord, ok: bool)
      requires Valid()
      modifies this, s, challenges
      ensures Valid()
      ensures s.startTime == old(s.startTime) && s.endTime == old(s.endTime)
      ensures s.courseId == old(s.courseId) && s.topicId == old(s.topicId)
      ensures s.durationInMinutes
              == if s.startTime.Some? && s.endTime.Some?
                 then Some(SS.WholeMinutes(s.startTime.value, s.endTime.value))
                 else old(s.durationInMinutes)
      ensures saved == SessionRecord(old(nextId), s.startTime, s.endTime, s.durationInMinutes,
                                     s.courseId, s.topicId)
      ensures sessions == old(sessions) + [saved]
      ensures challenges.challenges == old(challenges.challenges)
      ensures saved.durationInMinutes.None? ==> ok && challenges.progress == old(challenges.progress)
      ensures saved.durationInMinutes.Some? ==>
                CS.AfterSession(challenges.challenges, old(challenges.progress),
                                saved.durationInMinutes.value, DummyUserId, today)
                == if ok then Some(challenges.progress) else None
      ensures !ok ==> challenges.progress == old(challenges.progress)
    {
      if s.startTime.Some? && s.endTime.Some? {
        s.SetDurationInMinutes(Some(SS.WholeMinutes(s.startTime.value, s.endTime.value)));
      }
      saved := SessionRecord(nextId, s.startTime, s.endTime, s.durationInMinutes, s.courseId, s.topicId);
      sessions := sessions + [saved];
      nextId := nextId + 1;
      ok := true;
      if saved.durationInMinutes.Some? {
        ok := challenges.UpdateProgressFromSession(saved.durationInMinutes.value, DummyUserId, today);
      }
    }

    /** `getDailySummary` over the rows of the per-day query. */
    method GetDailySummary(raw: seq<RawDay>) returns (out: seq<DailySummary>)
      ensures out == DailyRows(raw)
    {
      out := [];
      var i := 0;
      while i < |raw|
        invariant 0 <= i <= |raw|
        invariant out == DailyRows(raw[..i])
      {
        assert raw[..i + 1] == raw[..i] + [raw[i]];
        DailyRowsConcat(raw[..i], [raw[i]]);
        if raw[i].date.Some? && raw[i].total.Some? {
          if raw[i].total.value > 0 {
            out := out + [DailySummary(raw[i].date.value, raw[i].total.value)];
          }
        }
        i := i + 1;
      }
      assert raw[..i] == raw;
    }

    /** `getWeeklySummary`: the seven days, Monday first, each with the minutes (as a Java
        `int`) of the sessions starting that weekday, counting only sessions that start at
        or after `weekStart`, Monday 00:00 of the current week. None is the exception a
        counted session without a duration raises. */
    method GetWeeklySummary(weekStart: int) returns (r: Option<seq<(string, CS.Int32)>>)
      ensures r.None? <==> WeekHasNullDuration(sessions, weekStart)
      ensures r.Some? ==> |r.value| == 7 && forall d :: 0 <= d < 7 ==>
                r.value[d] == (DayNames[d], CS.ToInt32(Seqs.Sum(BucketMinutes(sessions, weekStart, d))))
    {
      var temp := AccumulateWeek(weekStart);
      if temp.None? {
        return None;
      }
      var result: seq<(string, CS.Int32)> := [];
      var d := 0;
      while d < 7
        invariant 0 <= d <= 7 && |result| == d
        invariant forall k :: 0 <= k < d ==> result[k] == (DayNames[k], temp.value[k])
      {
        result := result + [(DayNames[d], temp.value[d])];
        d := d + 1;
      }
      r := Some(result);
    }

    /** The seven per-weekday `put`s of the weekly summary. */
    method AccumulateWeek(weekStart: int) returns (r: Option<seq<CS.Int32>>)
      ensures r.None? <==> WeekHasNullDuration(sessions, weekStart)
      ensures r.Some? ==> |r.value| == 7 && forall d :: 0 <= d < 7 ==>
                r.value[d] == CS.ToInt32(Seqs.Sum(BucketMinutes(sessions, weekStart, d)))
    {
      var temp: seq<CS.Int32> := [0, 0, 0, 0, 0, 0, 0];
      var i := 0;
      while i < |sessions|
        invariant 0 <= i <= |sessions| && |temp| == 7
        invariant forall d :: 0 <= d < 7 ==>
                    temp[d] == CS.ToInt32(Seqs.Sum(BucketMinutes(sessions[..i], weekStart, d)))
        invariant !WeekHasNullDuration(sessions[..i], weekStart)
      {
        var s := sessions[i];
        if InWeek(s, weekStart) && s.durationInMinutes.None? {
          NullDurationAt(sessions, i, weekStart);
          return None;
        }
        ghost var before := temp;
        if InWeek(s, weekStart) {
          var dow := Weekday(s.startTime.value, weekStart);
          temp := temp[dow := CS.ToInt32(temp[dow] + CS.ToInt32(s.durationInMinutes.value))];
        }
        AccumulateStep(sessions, i, weekStart, before, temp);
        i := i + 1;
      }
      assert sessions[..i] == sessions;
      r := Some(temp);
    }

    /** `getCurrentStreak` over the distinct study dates, most recent first: no dates gives 0
        and leaves the challenges alone; otherwise the counting loop runs and the STREAK rows
        are overwritten with its result. */
    method GetCurrentStreak(dates: seq<int>, today: int) returns (streak: int)
      requires Valid()
      requires |dates| < 0x8000_0000
      modifies challenges
      ensures Valid()
      ensures streak == StreakLength(dates, today)
      ensures challenges.challenges == old(challenges.challenges)
      ensures dates == [] ==> challenges.progress == old(challenges.progress)
      ensures dates != [] ==>
                challenges.progress == CS.AfterStreak(challenges.challenges, old(challenges.progress), streak, DummyUserId, today)
    {
      if dates == [] {
        return 0;
      }
      streak := 0;
      while streak < |dates| && dates[streak] == today - streak
        invariant 0 <= streak <= |dates|
        invariant forall i :: 0 <= i < streak ==> dates[i] == today - i
      {
        streak := streak + 1;
      }
      StreakLengthIsLongestPrefix(dates, today, streak);
      challenges.UpdateProgressFromStreak(streak, DummyUserId, today);
    }
  }

  /** One iteration of the weekly loop keeps each day's value equal to the wrapped sum of
      its bucket. */
  lemma AccumulateStep(ss: seq<SessionRecord>, i: nat, weekStart: int, before: seq<CS.Int32>,
                       after: seq<CS.Int32>)
    requires i < |ss| && !WeekHasNullDuration(ss[..i], weekStart)
    requires InWeek(ss[i], weekStart) ==> ss[i].durationInMinutes.Some?
    requires |before| == 7 && forall d :: 0 <= d < 7 ==>
               before[d] == CS.ToInt32(Seqs.Sum(BucketMinutes(ss[..i], weekStart, d)))
    requires !InWeek(ss[i], weekStart) ==> after == before
    requires InWeek(ss[i], weekStart) ==>
               var dow := Weekday(ss[i].startTime.value, weekStart);
               after == before[dow := CS.ToInt32(before[dow] + CS.ToInt32(ss[i].durationInMinutes.value))]
    ensures !WeekHasNullDuration(ss[..i + 1], weekStart)
    ensures |after| == 7 && forall d :: 0 <= d < 7 ==>
              after[d] == CS.ToInt32(Seqs.Sum(BucketMinutes(ss[..i + 1], weekStart, d)))
  {
    BucketStep(ss, i, weekStart);
    if InWeek(ss[i], weekStart) {
      var dow := Weekday(ss[i].startTime.value, weekStart);
      CS.ToInt32Add(Seqs.Sum(BucketMinutes(ss[..i], weekStart, dow)), ss[i].durationInMinutes.value);
    }
  }

  lemma NullDurationAt(ss: seq<SessionRecord>, i: nat, weekStart: int)
    requires i < |ss| && InWeek(ss[i], weekStart) && ss[i].durationInMinutes.None?
    ensures WeekHasNullDuration(ss, weekStart)
  {
  }

  /** What session `i` adds to each bucket, and that it keeps the prefix free of null
      durations when it has one. */
  lemma BucketStep(ss: seq<SessionRecord>, i: nat, weekStart: int)
    requires i < |ss| && !WeekHasNullDuration(ss[..i], weekStart)
    requires InWeek(ss[i], weekStart) ==> ss[i].durationInMinutes.Some?
    ensures !WeekHasNullDuration(ss[..i + 1], weekStart)
    ensures forall d :: 0 <= d < 7 ==>
      Seqs.Sum(BucketMinutes(ss[..i + 1], weekStart, d))
      == Seqs.Sum(BucketMinutes(ss[..i], weekStart, d))
         + (if InWeek(ss[i], weekStart) && Weekday(ss[i].startTime.value, weekStart) == d
            then ss[i].durationInMinutes.value else 0)
  {
    assert ss[..i + 1][..i] == ss[..i];
    forall d | 0 <= d < 7
      ensures Seqs.Sum(BucketMinutes(ss[..i + 1], weekStart, d))
              == Seqs.Sum(BucketMinutes(ss[..i], weekStart, d))
                 + (if InWeek(ss[i], weekStart) && Weekday(ss[i].startTime.value, weekStart) == d
                    then ss[i].durationInMinutes.value else 0)
    {
      var inB := InWeek(ss[i], weekStart) && Weekday(ss[i].startTime.value, weekStart) == d;
      Seqs.SumConcat(BucketMinutes(ss[..i], weekStart, d),
                     if inB then [ss[i].durationInMinutes.GetOr(0)] else []);
    }
  }
}
