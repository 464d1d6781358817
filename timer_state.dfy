/**
 The session state machine of the Pomodoro timer component, as values.

 The component keeps five pieces of state (the seconds left, whether the
 countdown runs, the current mode, the number of completed work sessions and
 the three durations in minutes).  Each handler and each run of the tick/expiry
 effect updates them as one atomic step; this module gives every such step as a
 function from the state before to the state after.  The class in module
 TimerComponent is proved against these functions.
 */
module TimerState {

  datatype Option<T> = None | Some(value: T)

  /** The three timer modes ('work' | 'shortBreak' | 'longBreak'). */
  datatype Mode = Work | ShortBreak | LongBreak

  /** The keys of the settings record (keyof TimerSettings). */
  datatype SettingField = WorkTime | ShortBreakTime | LongBreakTime

  /** Durations in whole minutes. */
  datatype Settings = Settings(workTime: int, shortBreakTime: int, longBreakTime: int)

  /** Everything the component holds: the View State snapshot. */
  datatype Snapshot = Snapshot(
    timeLeft: int,
    isRunning: bool,
    mode: Mode,
    completedSessions: nat,
    settings: Settings)

  const DefaultSettings := Settings(25, 5, 15)

  /** The state the component starts in. */
  const Initial := Snapshot(25 * 60, false, Work, 0, DefaultSettings)

  const SecondsPerMinute := 60

  /** Reads one field of the settings record. */
  function Get(s: Settings, f: SettingField): int
  {
    match f
    case WorkTime => s.workTime
    case ShortBreakTime => s.shortBreakTime
    case LongBreakTime => s.longBreakTime
  }

  /** `{ ...prev, [type]: value }`: replaces the named field and keeps the others. */
  function Set(s: Settings, f: SettingField, v: int): (r: Settings)
    ensures Get(r, f) == v
    ensures forall g :: g != f ==> Get(r, g) == Get(s, g)
  {
    match f
    case WorkTime => s.(workTime := v)
    case ShortBreakTime => s.(shortBreakTime := v)
    case LongBreakTime => s.(longBreakTime := v)
  }

  /** The settings field that holds the duration of a mode. */
  function FieldOf(m: Mode): SettingField
  {
    match m
    case Work => WorkTime
    case ShortBreak => ShortBreakTime
    case LongBreak => LongBreakTime
  }

  /** The duration of a mode in seconds, as loaded into the countdown: the mode's own setting times 60. */
  function Duration(s: Settings, m: Mode): (d: int)
    ensures m == Work ==> d == s.workTime * 60
    ensures m == ShortBreak ==> d == s.shortBreakTime * 60
    ensures m == LongBreak ==> d == s.longBreakTime * 60
  {
    Get(s, FieldOf(m)) * SecondsPerMinute
  }

  /** The range each settings slider offers. */
  function SliderMin(f: SettingField): int
  {
    match f
    case WorkTime => 1
    case ShortBreakTime => 1
    case LongBreakTime => 15
  }

  function SliderMax(f: SettingField): int
  {
    match f
    case WorkTime => 60
    case ShortBreakTime => 15
    case LongBreakTime => 30
  }

  predicate InSliderRange(f: SettingField, v: int)
  {
    SliderMin(f) <= v <= SliderMax(f)
  }

  predicate SettingsInRange(s: Settings)
  {
    forall f :: InSliderRange(f, Get(s, f))
  }

  /** Every duration the sliders allow lies between one minute and one hour. */
  lemma DurationInSliderRange(s: Settings, m: Mode)
    requires SettingsInRange(s)
    ensures 60 <= Duration(s, m) <= 3600
  {
  }

  /**
   The long-break test of the expiry effect.  It reads the session count
   captured by the effect's closure, which is the count BEFORE the increment
   of the session that just ended.
   */
  predicate LongBreakDue(countBefore: int)
  {
    countBefore > 0 && countBefore % 4 == 0
  }

  /** The break that follows a work session, given the count before it. */
  function NextBreak(countBefore: int): (m: Mode)
    ensures m != Work
    ensures m == LongBreak <==> countBefore > 0 && countBefore % 4 == 0
  {
    if LongBreakDue(countBefore) then LongBreak else ShortBreak
  }

  /** One interval callback: the countdown loses a second while it runs. */
  function AfterTick(s: Snapshot): (t: Snapshot)
    ensures t.(timeLeft := s.timeLeft) == s
    ensures t.timeLeft == s.timeLeft - 1 <==> s.isRunning && s.timeLeft > 0
    ensures t.timeLeft != s.timeLeft - 1 ==> t == s
    ensures s.timeLeft >= 0 ==> 0 <= t.timeLeft <= s.timeLeft
  {
    if s.isRunning && s.timeLeft > 0 then s.(timeLeft := s.timeLeft - 1) else s
  }

  /**
   The expiry branch of the effect, taken when the countdown is at zero
   (whether or not it runs).  A work session is counted and followed by a
   break; a break is followed by work.  The running flag is left alone.
   */
  function AfterExpiry(s: Snapshot): (t: Snapshot)
    ensures s.timeLeft != 0 ==> t == s
    ensures t.isRunning == s.isRunning && t.settings == s.settings
    ensures s.timeLeft == 0 && s.mode == Work ==>
      && t.completedSessions == s.completedSessions + 1
      && t.mode != Work
      && (t.mode == LongBreak <==> s.completedSessions > 0 && s.completedSessions % 4 == 0)
      && t.timeLeft == Duration(s.settings, t.mode)
    ensures s.timeLeft == 0 && s.mode != Work ==>
      && t.completedSessions == s.completedSessions
      && t.mode == Work
      && t.timeLeft == s.settings.workTime * 60
  {
    if s.timeLeft != 0 then s
    else if s.mode == Work then
      var next := NextBreak(s.completedSessions);
      s.(completedSessions := s.completedSessions + 1,
         mode := next,
         timeLeft := Duration(s.settings, next))
    else
      s.(mode := Work, timeLeft := Duration(s.settings, Work))
  }

  /** The start/pause button. */
  function AfterStartStop(s: Snapshot): (t: Snapshot)
    ensures t.isRunning != s.isRunning
    ensures t.(isRunning := s.isRunning) == s
  {
    s.(isRunning := !s.isRunning)
  }

  /** The canonical state for given settings: paused work with nothing done. */
  function Canonical(settings: Settings): (t: Snapshot)
    ensures !t.isRunning && t.mode == Work && t.completedSessions == 0
    ensures t.timeLeft == settings.workTime * 60 && t.settings == settings
  {
    Snapshot(Duration(settings, Work), false, Work, 0, settings)
  }

  /** The reset button. */
  function AfterReset(s: Snapshot): (t: Snapshot)
    ensures t == Canonical(s.settings)
    ensures t.settings == s.settings
  {
    s.(isRunning := false, mode := Work, completedSessions := 0,
       timeLeft := Duration(s.settings, Work))
  }

  /**
   A settings slider moved.  The value is stored without a range check; when
   the timer is paused and the field is the current mode's duration, the
   countdown is reloaded from the new value.
   */
  function AfterSettingsChange(s: Snapshot, f: SettingField, v: int): (t: Snapshot)
    ensures Get(t.settings, f) == v
    ensures forall g :: g != f ==> Get(t.settings, g) == Get(s.settings, g)
    ensures t.mode == s.mode && t.isRunning == s.isRunning
    ensures t.completedSessions == s.completedSessions
    ensures !s.isRunning && f == FieldOf(s.mode) ==> t.timeLeft == v * 60
    ensures s.isRunning || f != FieldOf(s.mode) ==> t.timeLeft == s.timeLeft
  {
    var settings := Set(s.settings, f, v);
    if !s.isRunning && f == FieldOf(s.mode) then
      s.(settings := settings, timeLeft := v * SecondsPerMinute)
    else
      s.(settings := settings)
  }

  /**
   The mode toggle.  A null selection, or any selection while running, is
   ignored; otherwise the chosen mode's duration is loaded.
   */
  function AfterModeChange(s: Snapshot, newMode: Option<Mode>): (t: Snapshot)
    ensures newMode.None? || s.isRunning ==> t == s
    ensures newMode.Some? && !s.isRunning ==>
      && t.mode == newMode.value
      && t.timeLeft == Get(s.settings, FieldOf(newMode.value)) * 60
      && t.(mode := s.mode, timeLeft := s.timeLeft) == s
  {
    if newMode.Some? && !s.isRunning then
      s.(mode := newMode.value, timeLeft := Duration(s.settings, newMode.value))
    else
      s
  }

  /** Everything that can happen to the component: one interval callback, one
      expiry run of the effect, or one user command. */
  datatype Event =
    | Tick
    | Expire
    | StartStop
    | Reset
    | SettingsChange(field: SettingField, value: int)
    | ModeChange(newMode: Option<Mode>)

  /**
   One event.  Only a settings change touches the settings; only a reset
   lowers the session count, and no event raises it by more than one.
   */
  function Step(s: Snapshot, e: Event): (t: Snapshot)
    ensures !e.SettingsChange? ==> t.settings == s.settings
    ensures e == Reset ==> t.completedSessions == 0
    ensures e != Reset ==> s.completedSessions <= t.completedSessions <= s.completedSessions + 1
  {
    match e
    case Tick => AfterTick(s)
    case Expire => AfterExpiry(s)
    case StartStop => AfterStartStop(s)
    case Reset => AfterReset(s)
    case SettingsChange(f, v) => AfterSettingsChange(s, f, v)
    case ModeChange(m) => AfterModeChange(s, m)
  }

  /**
   The events, applied one after another.  A run made only of interval
   callbacks never raises the countdown and changes nothing else.
   */
  function Run(s: Snapshot, es: seq<Event>): (t: Snapshot)
    ensures (forall i :: 0 <= i < |es| ==> es[i] == Tick) ==>
      t.timeLeft <= s.timeLeft && t.(timeLeft := s.timeLeft) == s
    decreases |es|
  {
    if es == [] then s else Run(Step(s, es[0]), es[1..])
  }
}
