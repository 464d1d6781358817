/**
 The PomodoroTimer component as an object: the five pieces of component
 state are fields, and each handler (and each run of the tick/expiry effect)
 is a method that updates them in one atomic step.  Every method states the
 fields it sets and ties the new snapshot to the transition function of
 module TimerState, so the lemmas of TimerProperties apply to the object.
 */
module TimerComponent {
  import opened TimerState
  import TimerProperties

  class PomodoroTimer {
    var timeLeft: int
    var isRunning: bool
    var mode: Mode
    var completedSessions: nat
    var settings: Settings

    /** The View State snapshot of the component. */
    function View(): Snapshot
      reads this
    {
      Snapshot(timeLeft, isRunning, mode, completedSessions, settings)
    }

    /** The bounds every reachable state keeps (see TimerProperties.RunKeepsBounded). */
    predicate Valid()
      reads this
    {
      TimerProperties.Bounded(View())
    }

    /** The initial state: 25 minutes of paused work, default settings. */
    constructor ()
      ensures View() == Initial
      ensures timeLeft == 1500 && !isRunning && mode == Work && completedSessions == 0
      ensures settings == Settings(25, 5, 15)
      ensures Valid()
    {
      timeLeft := 25 * 60;
      isRunning := false;
      mode := Work;
      completedSessions := 0;
      settings := Settings(25, 5, 15);
      TimerProperties.InitialBounded();
    }

    /** One interval callback while the countdown runs. */
    method Tick()
      modifies this
      ensures View() == AfterTick(old(View()))
      ensures timeLeft == if old(isRunning && timeLeft > 0) then old(timeLeft) - 1 else old(timeLeft)
      ensures isRunning == old(isRunning) && mode == old(mode)
      ensures completedSessions == old(completedSessions) && settings == old(settings)
      ensures old(Valid()) ==> Valid()
    {
      if isRunning && timeLeft > 0 {
        timeLeft := timeLeft - 1;
      }
    }

    /**
     The expiry branch of the effect.  The long-break test reads the session
     count the effect captured, i.e. the count before this session's increment.
     */
    method Expire()
      modifies this
      ensures View() == AfterExpiry(old(View()))
      ensures old(timeLeft) != 0 ==> unchanged(this)
      ensures old(timeLeft) == 0 && old(mode) == Work ==>
        && completedSessions == old(completedSessions) + 1
        && mode == (if old(completedSessions) > 0 && old(completedSessions) % 4 == 0
                    then LongBreak else ShortBreak)
        && timeLeft == (if mode == LongBreak then settings.longBreakTime
                        else settings.shortBreakTime) * 60
      ensures old(timeLeft) == 0 && old(mode) != Work ==>
        && completedSessions == old(completedSessions)
        && mode == Work
        && timeLeft == settings.workTime * 60
      ensures isRunning == old(isRunning) && settings == old(settings)
      ensures old(Valid()) ==> Valid()
    {
      ghost var before := View();
      if timeLeft == 0 {
        if mode == Work {
          var captured := completedSessions;
          completedSessions := completedSessions + 1;
          var isLongBreak := captured > 0 && captured % 4 == 0;
          mode := if isLongBreak then LongBreak else ShortBreak;
          timeLeft := (if isLongBreak then settings.longBreakTime else settings.shortBreakTime) * 60;
        } else {
          mode := Work;
          timeLeft := settings.workTime * 60;
        }
      }
      if TimerProperties.Bounded(before) {
        TimerProperties.StepKeepsBounded(before, TimerState.Expire);
      }
    }

    /** The start/pause button. */
    method StartStop()
      modifies this
      ensures View() == AfterStartStop(old(View()))
      ensures isRunning == !old(isRunning)
      ensures timeLeft == old(timeLeft) && mode == old(mode)
      ensures completedSessions == old(completedSessions) && settings == old(settings)
      ensures old(Valid()) ==> Valid()
    {
      isRunning := !isRunning;
    }

    /** The reset button. */
    method Reset()
      modifies this
      ensures View() == AfterReset(old(View())) == Canonical(settings)
      ensures !isRunning && mode == Work && completedSessions == 0
      ensures timeLeft == settings.workTime * 60 && settings == old(settings)
      ensures old(Valid()) ==> Valid()
    {
      isRunning := false;
      mode := Work;
      completedSessions := 0;
      timeLeft := settings.workTime * 60;
      if SettingsInRange(settings) {
        DurationInSliderRange(settings, Work);
      }
    }

    /**
     A settings slider moved.  The value is stored as given; the countdown is
     reloaded only while paused and only for the current mode's own field.
     */
    method SettingsChange(field: SettingField, value: int)
      modifies this
      ensures View() == AfterSettingsChange(old(View()), field, value)
      ensures settings == Set(old(settings), field, value)
      ensures timeLeft == if !old(isRunning) && field == FieldOf(old(mode)) then value * 60 else old(timeLeft)
      ensures isRunning == old(isRunning) && mode == old(mode)
      ensures completedSessions == old(completedSessions)
      ensures old(Valid()) && InSliderRange(field, value) ==> Valid()
    {
      ghost var before := View();
      settings := match field
        case WorkTime => settings.(workTime := value)
        case ShortBreakTime => settings.(shortBreakTime := value)
        case LongBreakTime => settings.(longBreakTime := value);
      if !isRunning {
        if field == WorkTime && mode == Work {
          timeLeft := value * 60;
        } else if field == ShortBreakTime && mode == ShortBreak {
          timeLeft := value * 60;
        } else if field == LongBreakTime && mode == LongBreak {
          timeLeft := value * 60;
        }
      }
      if TimerProperties.Bounded(before) && InSliderRange(field, value) {
        TimerProperties.StepKeepsBounded(before, TimerState.SettingsChange(field, value));
      }
    }

    /** The mode toggle: ignored for a null selection or while running. */
    method ModeChange(newMode: Option<Mode>)
      modifies this
      ensures View() == AfterModeChange(old(View()), newMode)
      ensures newMode.None? || old(isRunning) ==> unchanged(this)
      ensures newMode.Some? && !old(isRunning) ==>
        && mode == newMode.value
        && timeLeft == Get(settings, FieldOf(newMode.value)) * 60
      ensures isRunning == old(isRunning) && completedSessions == old(completedSessions)
      ensures settings == old(settings)
      ensures old(Valid()) ==> Valid()
    {
      ghost var before := View();
      if newMode.Some? && !isRunning {
        mode := newMode.value;
        match newMode.value
        case Work => timeLeft := settings.workTime * 60;
        case ShortBreak => timeLeft := settings.shortBreakTime * 60;
        case LongBreak => timeLeft := settings.longBreakTime * 60;
      }
      if TimerProperties.Bounded(before) {
        TimerProperties.StepKeepsBounded(before, TimerState.ModeChange(newMode));
      }
    }
  }

  /**
   A session driven through the object: a fresh timer is started, its work
   countdown runs out, and the expiry moves it to a short break with one
   session counted; a reset then restores the initial state.
   */
  method FirstSessionThenReset() returns (sessions: nat, breakMode: Mode, breakLeft: int, resetView: Snapshot)
    ensures sessions == 1 && breakMode == ShortBreak && breakLeft == 300
    ensures resetView == Initial
  {
    var timer := new PomodoroTimer();
    timer.StartStop();
    var i := 0;
    while i < 1500
      invariant 0 <= i <= 1500
      invariant timer.timeLeft == 1500 - i && timer.isRunning && timer.mode == Work
      invariant timer.completedSessions == 0 && timer.settings == DefaultSettings
    {
      timer.Tick();
      i := i + 1;
    }
    timer.Expire();
    sessions, breakMode, breakLeft := timer.completedSessions, timer.mode, timer.timeLeft;
    timer.Reset();
    resetView := timer.View();
  }
}
