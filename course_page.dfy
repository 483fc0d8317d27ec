/**
 * The course page: course and topic selectors, manual topic completion and a single
 * 25-minute countdown counted in seconds. Its state is a class whose handlers follow
 * functions on a state snapshot; instants are seconds and the POST is a returned hand-off.
 */
module CoursePage {
  import opened Wrappers
  import opened Text
  import SS = StudySession

  /** The countdown length: 25 minutes, in seconds. */
  const FullTimer := 1500

  /** `formatLocal`: the local date-time with an unpadded year and two-digit fields. */
  function FormatLocal(t: SS.DateTime): string {
    Decimal(t.year) + "-" + TwoDigits(t.month) + "-" + TwoDigits(t.day) + "T"
    + TwoDigits(t.hour) + ":" + TwoDigits(t.minute) + ":" + TwoDigits(t.second)
  }

  /** For four-digit years the page writes exactly the backend's pattern, so the backend
      reads back the date-time the page meant. */
  lemma FormatLocalRoundTrip(t: SS.DateTime)
    requires SS.ValidDateTime(t) && t.year >= 1000
    ensures FormatLocal(t) == SS.Format(t)
    ensures SS.ParseLocal(FormatLocal(t)) == Some(t)
  {
    DecimalWidth(t.year, 4);
    assert |Decimal(t.year)| == 4 by {
      if |Decimal(t.year)| < 4 {
        DecimalRoundTrip(t.year);
        DigitsBelowPower(Decimal(t.year));
      }
    }
    SS.FormatParseRoundTrip(t);
  }

  /** `n` digits denote less than 10^n. */
  lemma {:induction false} DigitsBelowPower(s: string)
    requires AllDigits(s)
    ensures DigitsValue(s) < Pow10(|s|)
    decreases |s|
  {
    if s != [] {
      var init := s[..|s| - 1];
      DigitsBelowPower(init);
      var v := DigitsValue(init);
      assert v + 1 <= Pow10(|init|);
      assert v * 10 + 10 <= Pow10(|init|) * 10;
      assert IsDigit(s[|s| - 1]);
      assert DigitsValue(s) == v * 10 + (s[|s| - 1] as int - '0' as int);
      assert Pow10(|s|) == 10 * Pow10(|init|);
    }
  }

  /** `formatTime`: `MM:SS` of the countdown. */
  function FormatTime(timer: nat): string {
    TwoDigits(timer / 60) + ":" + TwoDigits(timer % 60)
  }

  /** Below 100 minutes the display is five characters whose fields read back as the
      countdown. */
  lemma FormatTimeRoundTrip(timer: nat)
    requires timer < 6000
    ensures |FormatTime(timer)| == 5 && FormatTime(timer)[2] == ':'
    ensures AllDigits(FormatTime(timer)[..2]) && AllDigits(FormatTime(timer)[3..])
    ensures DigitsValue(FormatTime(timer)[..2]) * 60 + DigitsValue(FormatTime(timer)[3..]) == timer
  {
    TwoDigitsRoundTrip(timer / 60);
    TwoDigitsRoundTrip(timer % 60);
    var f := FormatTime(timer);
    assert f[..2] == TwoDigits(timer / 60);
    assert f[3..] == TwoDigits(timer % 60);
  }

  /** The posted session: start and end instants, course and topic. */
  datatype Handoff = Handoff(start: int, end: int, courseId: int, topicId: int)

  datatype PageState = PageState(courseId: Option<int>, topicId: Option<int>, timer: int,
                                 isRunning: bool, startStamp: Option<int>, completedTopics: set<int>)

  /** The countdown stays within 0..1500, and a running countdown has a start stamp. */
  predicate ValidState(s: PageState) {
    0 <= s.timer <= FullTimer && (s.isRunning ==> s.startStamp.Some?)
  }

  function Initial(): PageState {
    PageState(None, None, FullTimer, false, None, {})
  }

  /** Start stamps the current time, every time (a resume too); Pause only stops. */
  function AfterStartPause(s: PageState, now: int): PageState {
    if !s.isRunning then s.(startStamp := Some(now), isRunning := true) else s.(isRunning := false)
  }

  /** `recordSession`, once its POST has settled: the countdown stops; without a course, a
      topic or a start stamp nothing is posted and nothing else changes; otherwise the
      interval that ends now and began `1500 - timer` seconds earlier is posted and the
      countdown is reset. */
  function AfterRecord(s: PageState, now: int): (PageState, Option<Handoff>) {
    if s.courseId.None? || s.topicId.None? || s.startStamp.None? then (s.(isRunning := false), None)
    else (s.(isRunning := false, timer := FullTimer, startStamp := None),
          Some(Handoff(now - (FullTimer - s.timer), now, s.courseId.value, s.topicId.value)))
  }

  /** One interval callback. The interval only exists while running with time left. At a
      previous value of 1 the callback calls the `recordSession` of the render that created
      it, which still sees `timer == 1`, and then sets the countdown to 0 (which the settled
      POST, if any, resets to 1500). */
  function AfterTick(s: PageState, now: int): (PageState, Option<Handoff>) {
    if !s.isRunning || s.timer <= 0 then (s, None)
    else if s.timer <= 1 then
      var (r, h) := AfterRecord(s, now);
      if h.Some? then (r, h) else (r.(timer := 0), None)
    else (s.(timer := s.timer - 1), None)
  }

  /** The same callback with the evidently intended interval: at 0:00 the whole 1500
      seconds have elapsed. */
  function AfterTickCorrected(s: PageState, now: int): (PageState, Option<Handoff>) {
    if !s.isRunning || s.timer <= 0 then (s, None)
    else if s.timer <= 1 then
      var (r, h) := AfterRecord(s.(timer := 0), now);
      if h.Some? then (r, h) else (r.(timer := 0), None)
    else (s.(timer := s.timer - 1), None)
  }

  /** Choosing a course clears the topic, resets and stops the countdown and clears the
      stamp. */
  function AfterSelectCourse(s: PageState, c: Option<int>): PageState {
    s.(courseId := c, topicId := None, timer := FullTimer, isRunning := false, startStamp := None)
  }

  /** Choosing a topic does the same but keeps the course. */
  function AfterSelectTopic(s: PageState, t: Option<int>): PageState {
    s.(topicId := t, timer := FullTimer, isRunning := false, startStamp := None)
  }

  /** `toggleTopicComplete`: flips the topic's membership; the PATCH carries the new one. */
  function AfterToggleTopic(s: PageState, id: int): (PageState, bool) {
    var next := if id in s.completedTopics then s.completedTopics - {id} else s.completedTopics + {id};
    (s.(completedTopics := next), id in next)
  }

  // ---------------------------------------------------------------- properties

  lemma HandlersKeepValid(s: PageState, now: int, c: Option<int>, t: Option<int>, id: int)
    requires ValidState(s)
    ensures ValidState(AfterStartPause(s, now)) && ValidState(AfterRecord(s, now).0)
    ensures ValidState(AfterTick(s, now).0) && ValidState(AfterTickCorrected(s, now).0)
    ensures ValidState(AfterSelectCourse(s, c)) && ValidState(AfterSelectTopic(s, t))
    ensures ValidState(AfterToggleTopic(s, id).0)
  {
  }

  /** A running tick above 1 takes one second off; at 1 it ends the countdown, stopped. */
  lemma TickCountsDown(s: PageState, now: int)
    requires ValidState(s) && s.isRunning && s.timer > 0
    ensures s.timer > 1 ==> AfterTick(s, now) == (s.(timer := s.timer - 1), None)
    ensures s.timer == 1 ==> !AfterTick(s, now).0.isRunning
    ensures s.timer == 1 ==> AfterTick(s, now).0.timer == if AfterTick(s, now).1.Some? then FullTimer else 0
  {
  }

  /** Every Start, a resume after a pause included, replaces the stamp. */
  lemma ResumeOverwritesStamp(s: PageState, t1: int, t2: int)
    requires !s.isRunning
    ensures AfterStartPause(AfterStartPause(AfterStartPause(s, t1), t1), t2).startStamp == Some(t2)
  {
  }

  /** Without a course, a topic or a stamp, recording only stops the countdown. */
  lemma RecordWithoutSelection(s: PageState, now: int)
    requires s.courseId.None? || s.topicId.None? || s.startStamp.None?
    ensures AfterRecord(s, now) == (s.(isRunning := false), None)
  {
  }

  /** A posted interval ends now and is exactly as long as the countdown has run. */
  lemma RecordedInterval(s: PageState, now: int)
    requires ValidState(s) && AfterRecord(s, now).1.Some?
    ensures AfterRecord(s, now).1.value.end == now
    ensures AfterRecord(s, now).1.value.end - AfterRecord(s, now).1.value.start == FullTimer - s.timer
    ensures 0 <= FullTimer - s.timer <= FullTimer
    ensures AfterRecord(s, now).0.timer == FullTimer && AfterRecord(s, now).0.startStamp.None?
  {
  }

  /** Toggling flips only that topic, and toggling twice restores the set. */
  lemma ToggleTopicFlips(s: PageState, id: int, other: int)
    requires other != id
    ensures (id in AfterToggleTopic(s, id).0.completedTopics) == (id !in s.completedTopics)
    ensures AfterToggleTopic(s, id).1 == (id !in s.completedTopics)
    ensures (other in AfterToggleTopic(s, id).0.completedTopics) == (other in s.completedTopics)
    ensures AfterToggleTopic(AfterToggleTopic(s, id).0, id).0 == s
  {
  }

  // ---------------------------------------------------------------- the page

  class Page {
    var courseId: Option<int>
    var topicId: Option<int>
    var timer: int
    var isRunning: bool
    var startStamp: Option<int>
    var completedTopics: set<int>

    function State(): PageState
      reads this
    {
      PageState(courseId, topicId, timer, isRunning, startStamp, completedTopics)
    }

    ghost predicate Valid()
      reads this
    {
      ValidState(State())
    }

    constructor ()
      ensures Valid() && State() == Initial()
    {
      courseId, topicId, timer, isRunning := None, None, FullTimer, false;
      startStamp, completedTopics := None, {};
    }

    method HandleStartPause(now: int)
      requires Valid()
      modifies this
      ensures Valid() && State() == AfterStartPause(old(State()), now)
    {
      if !isRunning {
        startStamp := Some(now);
        isRunning := true;
      } else {
        isRunning := false;
      }
    }

    /** The Stop button, and the end of the countdown. */
    method RecordSession(now: int) returns (h: Option<Handoff>)
      requires Valid()
      modifies this
      ensures Valid() && (State(), h) == AfterRecord(old(State()), now)
    {
      isRunning := false;
      if courseId.None? || topicId.None? || startStamp.None? {
        return None;
      }
      var elapsed := FullTimer - timer;
      h := Some(Handoff(now - elapsed, now, courseId.value, topicId.value));
      timer := FullTimer;
      startStamp := None;
    }

    method Tick(now: int) returns (h: Option<Handoff>)
      requires Valid()
      modifies this
      ensures Valid() && (State(), h) == AfterTick(old(State()), now)
    {
      h := None;
      if !isRunning || timer <= 0 {
        return;
      }
      if timer <= 1 {
        h := RecordSession(now);
        if h.None? {
          timer := 0;
        }
      } else {
        timer := timer - 1;
      }
    }

    method SelectCourse(c: Option<int>)
      requires Valid()
      modifies this
      ensures Valid() && State() == AfterSelectCourse(old(State()), c)
    {
      courseId := c;
      topicId := None;
      timer := FullTimer;
      isRunning := false;
      startStamp := None;
    }

    method SelectTopic(t: Option<int>)
      requires Valid()
      modifies this
      ensures Valid() && State() == AfterSelectTopic(old(State()), t)
    {
      topicId := t;
      timer := FullTimer;
      isRunning := false;
      startStamp := None;
    }

    method ToggleTopicComplete(id: int) returns (completed: bool)
      requires Valid()
      modifies this
      ensures Valid() && (State(), completed) == AfterToggleTopic(old(State()), id)
    {
      var next := completedTopics;
      if id in next {
        next := next - {id};
      } else {
        next := next + {id};
      }
      completedTopics := next;
      completed := id in next;
    }
  }

  /** A full countdown with a course and a topic, started at `t0`, left to run: the 1500th
      tick posts an interval one second short of 25 minutes, which the backend truncates to
      24 whole minutes. */
  method FullCountdown(t0: int, courseId: int, topicId: int) returns (h: Option<Handoff>)
    ensures h == Some(Handoff(t0 + 1, t0 + 1500, courseId, topicId))
    ensures SS.WholeMinutes(h.value.start, h.value.end) == 24
  {
    var page := new Page();
    page.SelectCourse(Some(courseId));
    page.SelectTopic(Some(topicId));
    page.HandleStartPause(t0);
    var k := 0;
    while k < 1499
      invariant 0 <= k <= 1499
      invariant page.Valid() && page.isRunning && page.timer == 1500 - k
      invariant page.courseId == Some(courseId) && page.topicId == Some(topicId)
    {
      var _ := page.Tick(t0 + k + 1);
      k := k + 1;
    }
    h := page.Tick(t0 + 1500);
  }

  /** The same countdown with the corrected callback posts the full 25 minutes. */
  lemma FullCountdownCorrected(t0: int, courseId: int, topicId: int)
    ensures var s := PageState(Some(courseId), Some(topicId), 1, true, Some(t0), {});
            var h := AfterTickCorrected(s, t0 + 1500).1;
            && h == Some(Handoff(t0, t0 + 1500, courseId, topicId))
            && SS.WholeMinutes(h.value.start, h.value.end) == 25
  {
  }
}
