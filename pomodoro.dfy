/**
 * The second Pomodoro component: a preset selector, a long break after every fourth work
 * period, and a recording POST without a duration. Same shape as `PomodoroTimer`: a class
 * whose handlers follow functions on a state snapshot.
 */
module Pomodoro {
  import opened Wrappers

  datatype Mode = Work | Break

  datatype Preset = Preset(work: nat, brk: nat)

  /** 25/5, 50/10 and 90/20 minutes. */
  const Presets: seq<Preset> := [Preset(25, 5), Preset(50, 10), Preset(90, 20)]

  /** The long break, in minutes. */
  const LongBreak := 15

  /** The session posted: start and end instants, course and topic; no duration is sent. */
  datatype Handoff = Handoff(start: int, end: int, courseId: int, topicId: int)

  datatype TimerState = TimerState(presetIndex: nat, mode: Mode, minutes: int, seconds: int,
                                   isRunning: bool, sessionCount: nat, startTime: Option<int>)

  function Remaining(s: TimerState): int {
    s.minutes * 60 + s.seconds
  }

  /** The break that follows the `count`-th finished work period. */
  function BreakMinutes(presetIndex: nat, count: nat): nat
    requires presetIndex < |Presets|
  {
    if count % 4 == 0 then LongBreak else Presets[presetIndex].brk
  }

  function PeriodMinutes(s: TimerState): nat
    requires s.presetIndex < |Presets|
  {
    if s.mode == Work then Presets[s.presetIndex].work else BreakMinutes(s.presetIndex, s.sessionCount)
  }

  predicate ValidState(s: TimerState) {
    && s.presetIndex < |Presets|
    && 0 <= s.seconds <= 59 && 0 <= s.minutes
    && Remaining(s) <= PeriodMinutes(s) * 60
    && (s.startTime.Some? ==> s.mode == Work)
    && (s.mode == Break ==> s.sessionCount >= 1)
  }

  function Reset(i: nat): TimerState
    requires i < |Presets|
  {
    TimerState(i, Work, Presets[i].work, 0, false, 0, None)
  }

  /** Choosing a preset in the selector; choosing the current one fires no change. */
  function AfterSelectPreset(s: TimerState, i: nat): TimerState
    requires i < |Presets|
  {
    if i == s.presetIndex then s else Reset(i)
  }

  function AfterStart(s: TimerState, now: int): TimerState {
    if s.isRunning then s
    else s.(isRunning := true,
            startTime := if s.startTime.None? && s.mode == Work then Some(now) else s.startTime)
  }

  function AfterPause(s: TimerState): TimerState {
    s.(isRunning := false)
  }

  function Recorded(s: TimerState, now: int, courseId: Option<int>, topicId: Option<int>): Option<Handoff> {
    if s.mode == Work && s.startTime.Some? && courseId.Some? && topicId.Some? then
      Some(Handoff(s.startTime.value, now, courseId.value, topicId.value))
    else None
  }

  /** `handleStop`: a finished work period counts and leads to a break, long on every fourth;
      a break leads back to work. */
  function AfterStop(s: TimerState): TimerState
    requires s.presetIndex < |Presets|
  {
    if s.mode == Work then
      var newCount := s.sessionCount + 1;
      s.(isRunning := false, sessionCount := newCount, mode := Break,
         minutes := BreakMinutes(s.presetIndex, newCount), seconds := 0, startTime := None)
    else
      s.(isRunning := false, mode := Work, minutes := Presets[s.presetIndex].work, seconds := 0,
         startTime := None)
  }

  function AfterTick(s: TimerState): TimerState
    requires s.presetIndex < |Presets|
  {
    if !s.isRunning then s
    else if s.seconds > 0 then s.(seconds := s.seconds - 1)
    else if s.minutes > 0 then s.(minutes := s.minutes - 1, seconds := 59)
    else AfterStop(s)
  }

  // ---------------------------------------------------------------- properties

  lemma HandlersKeepValid(s: TimerState, now: int, i: nat)
    requires ValidState(s) && i < |Presets|
    ensures ValidState(AfterSelectPreset(s, i))
    ensures ValidState(AfterStart(s, now)) && ValidState(AfterPause(s))
    ensures ValidState(AfterStop(s)) && ValidState(AfterTick(s))
  {
    StopKeepsValid(s);
    if s.isRunning && s.seconds == 0 && s.minutes == 0 {
      assert AfterTick(s) == AfterStop(s);
    }
  }

  lemma StopKeepsValid(s: TimerState)
    requires ValidState(s)
    ensures ValidState(AfterStop(s))
  {
    if s.mode == Work {
      assert AfterStop(s).minutes == BreakMinutes(s.presetIndex, s.sessionCount + 1);
    }
  }

  /** A running tick takes one second off while time is left, and at 0:00 it stops. */
  lemma TickCountsDown(s: TimerState)
    requires ValidState(s) && s.isRunning
    ensures Remaining(s) > 0 ==>
      && Remaining(AfterTick(s)) == Remaining(s) - 1
      && AfterTick(s).mode == s.mode && AfterTick(s).isRunning
      && AfterTick(s).startTime == s.startTime && AfterTick(s).sessionCount == s.sessionCount
    ensures Remaining(s) == 0 ==> AfterTick(s) == AfterStop(s)
  {
  }

  /** The break after a work period is the long one exactly when the new count is a multiple
      of four. */
  lemma LongBreakEveryFourth(s: TimerState)
    requires ValidState(s) && s.mode == Work
    ensures AfterStop(s).mode == Break && AfterStop(s).sessionCount == s.sessionCount + 1
    ensures AfterStop(s).minutes == LongBreak <==>
              (s.sessionCount + 1) % 4 == 0 || Presets[s.presetIndex].brk == LongBreak
    ensures (s.sessionCount + 1) % 4 != 0 ==> AfterStop(s).minutes == Presets[s.presetIndex].brk
  {
  }

  /** From a fresh preset, Stop after Stop gives three short breaks and then a long one. */
  lemma FourthBreakIsLong(i: nat)
    requires i < |Presets|
    ensures var s1 := AfterStop(Reset(i));
            var s3 := AfterStop(AfterStop(s1));
            var s5 := AfterStop(AfterStop(s3));
            var s7 := AfterStop(AfterStop(s5));
            && s1.mode == Break && s3.mode == Break && s5.mode == Break && s7.mode == Break
            && s1.minutes == Presets[i].brk && s3.minutes == Presets[i].brk
            && s5.minutes == Presets[i].brk && s7.minutes == LongBreak
            && AfterStop(s7).mode == Work && AfterStop(s7).minutes == Presets[i].work
  {
  }

  /** Stop never records a break, and always leaves the timer stopped at a whole minute with
      no start time. */
  lemma StopResets(s: TimerState, now: int, courseId: Option<int>, topicId: Option<int>)
    requires ValidState(s)
    ensures s.mode == Break ==> Recorded(s, now, courseId, topicId).None?
    ensures !AfterStop(s).isRunning && AfterStop(s).seconds == 0 && AfterStop(s).startTime.None?
    ensures s.mode == Break ==> AfterStop(s).minutes == Presets[s.presetIndex].work
  {
  }

  // ---------------------------------------------------------------- the component

  class Timer {
    const courseId: Option<int>
    const topicId: Option<int>
    var presetIndex: nat
    var mode: Mode
    var minutes: int
    var seconds: int
    var isRunning: bool
    var sessionCount: nat
    var startTime: Option<int>

    function State(): TimerState
      reads this
    {
      TimerState(presetIndex, mode, minutes, seconds, isRunning, sessionCount, startTime)
    }

    ghost predicate Valid()
      reads this
    {
      ValidState(State())
    }

    constructor (courseId: Option<int>, topicId: Option<int>)
      ensures Valid() && State() == Reset(0)
      ensures this.courseId == courseId && this.topicId == topicId
    {
      this.courseId, this.topicId := courseId, topicId;
      mode, minutes, seconds, isRunning := Work, 25, 0, false;
      sessionCount, startTime, presetIndex := 0, None, 0;
    }

    method SelectPreset(i: nat)
      requires Valid() && i < |Presets|
      modifies this
      ensures Valid() && State() == AfterSelectPreset(old(State()), i)
    {
      if i != presetIndex {
        presetIndex := i;
        mode := Work;
        minutes := Presets[i].work;
        seconds := 0;
        isRunning := false;
        sessionCount := 0;
        startTime := None;
      }
    }

    method HandleStart(now: int)
      requires Valid()
      modifies this
      ensures Valid() && State() == AfterStart(old(State()), now)
    {
      if !isRunning {
        isRunning := true;
        if startTime.None? && mode == Work {
          startTime := Some(now);
        }
      }
    }

    method HandlePause()
      requires Valid()
      modifies this
      ensures Valid() && State() == AfterPause(old(State()))
    {
      isRunning := false;
    }

    method HandleStop(now: int) returns (h: Option<Handoff>)
      requires Valid()
      modifies this
      ensures Valid() && State() == AfterStop(old(State()))
      ensures h == Recorded(old(State()), now, courseId, topicId)
    {
      isRunning := false;
      h := None;
      if mode == Work && startTime.Some? && courseId.Some? && topicId.Some? {
        h := Some(Handoff(startTime.value, now, courseId.value, topicId.value));
      }
      var nextMode, nextMin;
      if mode == Work {
        var newCount := sessionCount + 1;
        sessionCount := newCount;
        if newCount % 4 == 0 {
          nextMode, nextMin := Break, LongBreak;
        } else {
          nextMode, nextMin := Break, Presets[presetIndex].brk;
        }
      } else {
        nextMode, nextMin := Work, Presets[presetIndex].work;
      }
      mode := nextMode;
      minutes := nextMin;
      seconds := 0;
      startTime := None;
    }

    method Tick(now: int) returns (h: Option<Handoff>)
      requires Valid()
      modifies this
      ensures Valid() && State() == AfterTick(old(State()))
      ensures h == if old(isRunning) && old(Remaining(State())) == 0
                   then Recorded(old(State()), now, courseId, topicId) else None
    {
      h := None;
      if !isRunning {
        return;
      }
      if seconds > 0 {
        seconds := seconds - 1;
      } else if minutes > 0 {
        minutes := minutes - 1;
        seconds := 59;
      } else {
        h := HandleStop(now);
      }
    }
  }

  /** Four work periods, each started and stopped, with each of the first three breaks
      skipped by Stop: every period posts one session and the fourth break is the 15-minute
      one. */
  method FourWorkPeriods(t0: int, courseId: int, topicId: int) returns (posted: nat, breakMinutes: int)
    ensures posted == 4 && breakMinutes == LongBreak
  {
    var timer := new Timer(Some(courseId), Some(topicId));
    posted := 0;
    var round := 0;
    breakMinutes := 0;
    while round < 4
      invariant 0 <= round <= 4 && posted == round
      invariant timer.Valid() && timer.presetIndex == 0 && timer.sessionCount == round
      invariant round < 4 ==> timer.mode == Work && !timer.isRunning && timer.startTime.None?
      invariant round == 4 ==> timer.mode == Break && breakMinutes == LongBreak
      invariant timer.courseId == Some(courseId) && timer.topicId == Some(topicId)
    {
      timer.HandleStart(t0);
      var h := timer.HandleStop(t0 + 1);
      if h.Some? {
        posted := posted + 1;
      }
      breakMinutes := timer.minutes;
      if round < 3 {
        var _ := timer.HandleStop(t0 + 2);
      }
      round := round + 1;
    }
  }
}
