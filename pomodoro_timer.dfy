/**
 * The Pomodoro timer component with three presets and a manual Stop. Its state is a class;
 * every handler is a method whose new state is a function of the old one, and the properties
 * of the component are lemmas about those functions. Time is a parameter in seconds; the
 * recording POST is the hand-off a method returns.
 */
module PomodoroTimer {
  import opened Wrappers

  datatype Mode = Work | Break

  datatype Preset = Preset(work: nat, brk: nat)

  /** 25/5, 50/10 and 100/20 minutes. */
  const Presets: seq<Preset> := [Preset(25, 5), Preset(50, 10), Preset(100, 20)]

  /** The session the component posts: start and end instants, course, topic and the
      duration in minutes it computes itself. */
  datatype Handoff = Handoff(start: int, end: int, courseId: int, topicId: int, durationInMinutes: int)

  datatype TimerState = TimerState(presetIndex: nat, mode: Mode, minutes: int, seconds: int,
                                   isRunning: bool, sessionCount: nat, startTime: Option<int>)

  function Remaining(s: TimerState): int {
    s.minutes * 60 + s.seconds
  }

  /** The length in minutes of the current period. */
  function PeriodMinutes(s: TimerState): nat
    requires s.presetIndex < |Presets|
  {
    if s.mode == Work then Presets[s.presetIndex].work else Presets[s.presetIndex].brk
  }

  predicate ValidState(s: TimerState) {
    && s.presetIndex < |Presets|
    && 0 <= s.seconds <= 59 && 0 <= s.minutes
    && Remaining(s) <= PeriodMinutes(s) * 60
    && (s.startTime.Some? ==> s.mode == Work)
  }

  /** `Math.ceil(a / 60)` for an integer `a`. */
  function CeilMinutes(a: int): int {
    -((-a) / 60)
  }

  /** The ceiling is the least whole number of minutes covering `a` seconds. */
  lemma CeilMinutesBounds(a: int)
    ensures (CeilMinutes(a) - 1) * 60 < a <= CeilMinutes(a) * 60
  {
    var q, r := (-a) / 60, (-a) % 60;
    assert -a == q * 60 + r && 0 <= r < 60;
  }

  /** The state the preset effect installs. */
  function Reset(i: nat): TimerState
    requires i < |Presets|
  {
    TimerState(i, Work, Presets[i].work, 0, false, 0, None)
  }

  /** Choosing a preset: the button of the current preset is disabled and the effect only runs
      when the index changes, so choosing it again changes nothing. */
  function AfterSelectPreset(s: TimerState, i: nat): TimerState
    requires i < |Presets|
  {
    if i == s.presetIndex then s else Reset(i)
  }

  function AfterStart(s: TimerState, now: int): TimerState {
    if s.isRunning then s
    else s.(isRunning := true,
            startTime := if s.mode == Work && s.startTime.None? then Some(now) else s.startTime)
  }

  function AfterPause(s: TimerState): TimerState {
    s.(isRunning := false)
  }

  /** The hand-off of `handleStop`: only a work period with a start time, a course and a
      topic is posted, with the elapsed part of the period rounded up to whole minutes. */
  function Recorded(s: TimerState, now: int, courseId: Option<int>, topicId: Option<int>): Option<Handoff>
    requires s.presetIndex < |Presets|
  {
    if s.mode == Work && s.startTime.Some? && courseId.Some? && topicId.Some? then
      Some(Handoff(s.startTime.value, now, courseId.value, topicId.value,
                   CeilMinutes(Presets[s.presetIndex].work * 60 - Remaining(s))))
    else None
  }

  /** The state after `handleStop`, whether or not the recording succeeded. */
  function AfterStop(s: TimerState): TimerState
    requires s.presetIndex < |Presets|
  {
    if s.mode == Work then
      s.(isRunning := false, sessionCount := s.sessionCount + 1, mode := Break,
         minutes := Presets[s.presetIndex].brk, seconds := 0, startTime := None)
    else
      s.(isRunning := false, mode := Work, minutes := Presets[s.presetIndex].work, seconds := 0,
         startTime := None)
  }

  /** One interval callback: a second off the clock, or Stop at 0:00. */
  function AfterTick(s: TimerState): TimerState
    requires s.presetIndex < |Presets|
  {
    if !s.isRunning then s
    else if s.seconds > 0 then s.(seconds := s.seconds - 1)
    else if s.minutes > 0 then s.(minutes := s.minutes - 1, seconds := 59)
    else AfterStop(s)
  }

  // ---------------------------------------------------------------- properties

  /** Every handler keeps the clock in range, within the current period, and keeps the start
      time to work periods. */
  lemma HandlersKeepValid(s: TimerState, now: int, i: nat)
    requires ValidState(s) && i < |Presets|
    ensures ValidState(AfterSelectPreset(s, i))
    ensures ValidState(AfterStart(s, now)) && ValidState(AfterPause(s))
    ensures ValidState(AfterStop(s)) && ValidState(AfterTick(s))
  {
  }

  /** While time is left, a tick of a running timer takes exactly one second off and changes
      nothing else that matters; at 0:00 it stops. */
  lemma TickCountsDown(s: TimerState)
    requires ValidState(s) && s.isRunning
    ensures Remaining(s) > 0 ==>
      && Remaining(AfterTick(s)) == Remaining(s) - 1
      && AfterTick(s).mode == s.mode && AfterTick(s).isRunning
      && AfterTick(s).startTime == s.startTime && AfterTick(s).sessionCount == s.sessionCount
    ensures Remaining(s) == 0 ==> AfterTick(s) == AfterStop(s)
  {
  }

  /** Start is ignored while running, and a resume after a pause keeps the first start time. */
  lemma StartKeepsFirstStartTime(s: TimerState, t1: int, t2: int)
    requires !s.isRunning && s.mode == Work && s.startTime.None?
    ensures AfterStart(AfterStart(s, t1), t2) == AfterStart(s, t1)
    ensures AfterStart(AfterPause(AfterStart(s, t1)), t2).startTime == Some(t1)
  {
  }

  /** Pause stops the clock and touches nothing else. */
  lemma PauseKeepsTime(s: TimerState)
    ensures !AfterPause(s).isRunning
    ensures Remaining(AfterPause(s)) == Remaining(s) && AfterPause(s).startTime == s.startTime
    ensures AfterPause(s).mode == s.mode && AfterPause(s).sessionCount == s.sessionCount
  {
  }

  /** The posted duration is the elapsed work time rounded up to whole minutes, so it lies
      between 0 and the preset's work minutes. */
  lemma RecordedDuration(s: TimerState, now: int, courseId: Option<int>, topicId: Option<int>)
    requires ValidState(s) && Recorded(s, now, courseId, topicId).Some?
    ensures var d := Recorded(s, now, courseId, topicId).value.durationInMinutes;
            var elapsed := Presets[s.presetIndex].work * 60 - Remaining(s);
            && 0 <= d <= Presets[s.presetIndex].work
            && (d - 1) * 60 < elapsed <= d * 60
  {
    CeilMinutesBounds(Presets[s.presetIndex].work * 60 - Remaining(s));
  }

  /** A work period is posted exactly when it has a start time, a course and a topic; a
      break is never posted. */
  lemma RecordedOnlyWork(s: TimerState, now: int, courseId: Option<int>, topicId: Option<int>)
    requires s.presetIndex < |Presets|
    ensures Recorded(s, now, courseId, topicId).Some?
            <==> s.mode == Work && s.startTime.Some? && courseId.Some? && topicId.Some?
  {
  }

  /** The break after a work period is always the preset's short break: the count of finished
      work periods plays no part, so there is never a long break. */
  lemma NoLongBreak(s: TimerState, count: nat)
    requires ValidState(s) && s.mode == Work
    ensures AfterStop(s).mode == Break && AfterStop(s).minutes == Presets[s.presetIndex].brk
    ensures AfterStop(s.(sessionCount := count)).minutes == AfterStop(s).minutes
  {
  }

  // ---------------------------------------------------------------- the component

  class Timer {
    const courseId: Option<int>
    const topicId: Option<int>
    var presetIndex: nat
    var mode: Mode
    var minutes: int
    var seconds: int
    var isRunning: bool
    var sessionCount: nat
    var startTime: Option<int>

    function State(): TimerState
      reads this
    {
      TimerState(presetIndex, mode, minutes, seconds, isRunning, sessionCount, startTime)
    }

    ghost predicate Valid()
      reads this
    {
      ValidState(State())
    }

    /** The first render: the first preset, ready to work. */
    constructor (courseId: Option<int>, topicId: Option<int>)
      ensures Valid() && State() == Reset(0)
      ensures this.courseId == courseId && this.topicId == topicId
    {
      this.courseId, this.topicId := courseId, topicId;
      presetIndex, mode, minutes, seconds := 0, Work, 25, 0;
      isRunning, sessionCount, startTime := false, 0, None;
    }

    method SelectPreset(i: nat)
      requires Valid() && i < |Presets|
      modifies this
      ensures Valid() && State() == AfterSelectPreset(old(State()), i)
    {
      if i != presetIndex {
        presetIndex := i;
        mode := Work;
        minutes := Presets[i].work;
        seconds := 0;
        isRunning := false;
        sessionCount := 0;
        startTime := None;
      }
    }

    method HandleStart(now: int)
      requires Valid()
      modifies this
      ensures Valid() && State() == AfterStart(old(State()), now)
    {
      if !isRunning {
        isRunning := true;
        if mode == Work && startTime.None? {
          startTime := Some(now);
        }
      }
    }

    method HandlePause()
      requires Valid()
      modifies this
      ensures Valid() && State() == AfterPause(old(State()))
    {
      isRunning := false;
    }

    method HandleStop(now: int) returns (h: Option<Handoff>)
      requires Valid()
      modifies this
      ensures Valid() && State() == AfterStop(old(State()))
      ensures h == Recorded(old(State()), now, courseId, topicId)
    {
      isRunning := false;
      h := None;
      if mode == Work && startTime.Some? && courseId.Some? && topicId.Some? {
        h := Some(Handoff(startTime.value, now, courseId.value, topicId.value,
                          CeilMinutes(Presets[presetIndex].work * 60 - (minutes * 60 + seconds))));
      }
      var nextMode, nextMin;
      if mode == Work {
        sessionCount := sessionCount + 1;
        nextMode, nextMin := Break, Presets[presetIndex].brk;
      } else {
        nextMode, nextMin := Work, Presets[presetIndex].work;
      }
      mode := nextMode;
      minutes := nextMin;
      seconds := 0;
      startTime := None;
    }

    /** The interval callback; it only exists while the timer runs. */
    method Tick(now: int) returns (h: Option<Handoff>)
      requires Valid()
      modifies this
      ensures Valid() && State() == AfterTick(old(State()))
      ensures h == if old(isRunning) && old(Remaining(State())) == 0
                   then Recorded(old(State()), now, courseId, topicId) else None
    {
      h := None;
      if !isRunning {
        return;
      }
      if seconds > 0 {
        seconds := seconds - 1;
      } else if minutes > 0 {
        minutes := minutes - 1;
        seconds := 59;
      } else {
        h := HandleStop(now);
      }
    }
  }

  /** A full 25-minute work period with course and topic set, started at `t0` and left to
      run: 1500 ticks bring the clock to 0:00 and the next one posts 25 minutes and moves to
      the 5-minute break. */
  method FullWorkPeriod(t0: int, courseId: int, topicId: int) returns (h: Option<Handoff>, next: TimerState)
    ensures h == Some(Handoff(t0, t0 + 1501, courseId, topicId, 25))
    ensures next == TimerState(0, Break, 5, 0, false, 1, None)
  {
    var timer := new Timer(Some(courseId), Some(topicId));
    timer.HandleStart(t0);
    var k := 0;
    while k < 1500
      invariant 0 <= k <= 1500
      invariant timer.Valid() && timer.isRunning && timer.mode == Work && timer.presetIndex == 0
      invariant timer.startTime == Some(t0) && timer.sessionCount == 0
      invariant Remaining(timer.State()) == 1500 - k
      invariant timer.courseId == Some(courseId) && timer.topicId == Some(topicId)
    {
      var _ := timer.Tick(t0 + k + 1);
      k := k + 1;
    }
    h := timer.Tick(t0 + 1501);
    next := timer.State();
  }
}
