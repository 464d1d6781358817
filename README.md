# Pomodoro timer: session state machine

This project models the session state machine of the `PomodoroTimer` React
component. The component is a countdown that alternates work sessions with
short and long breaks. It counts completed work sessions. The user can start
and pause it, reset it, pick a mode by hand and change the three durations
with sliders.

The component holds five pieces of state:
- `timeLeft`: the seconds remaining.
- `isRunning`.
- `mode`: work, short break or long break.
- `completedSessions`.
- `settings`: the work, short-break and long-break durations in minutes.

Each handler, and each run of the tick/expiry effect, updates this state in
one atomic step.

The model has four modules:

- `TimerState` (`timer_state.dfy`) holds the data model as values: `Mode`,
  `SettingField` (the keys of the settings record), `Settings` and
  `Snapshot`. It gives every step as a pure transition function
  (`AfterTick`, `AfterExpiry`, `AfterStartStop`, `AfterReset`,
  `AfterSettingsChange`, `AfterModeChange`). The contract of each function
  says which fields the step changes, how, and that nothing else changes.
  `Step` and `Run` apply events one after another.
- `TimerComponent` (`timer_component.dfy`) is the component as an object. It
  is a class `PomodoroTimer` with the five fields and one method per handler,
  plus `Tick` (one interval callback) and `Expire` (the expiry branch of the
  effect). Each method states the fields it sets and proves that the new
  snapshot is the matching transition function applied to the old one.
  `Expire` reads the session count before incrementing it, just as the
  effect's closure does.
- `TimerProperties` (`timer_properties.dfy`) holds the properties that span
  several steps:
  - If the settings stay in the slider ranges, `0 <= timeLeft <= 3600` holds
    in every reachable state.
  - A reset lands on the canonical state whatever came before it.
  - Pressing start/pause twice restores the state.
  - Ticks count down exactly while running and do nothing while paused.
  - A full work-then-break cycle returns to work with one more session.
  - Settings change only through the sliders.
  - Without a reset, the session count never decreases.
  - Long-break cadence: the long-break test uses the count from before the
    increment. So the first long break follows the fifth completed work
    session, and another follows every fourth session after that (the 9th,
    the 13th, …). `LongBreakCount` proves this. Among the first n completed
    sessions, exactly (n-1)/4 are followed by a long break.
- `TimerDisplay` (`timer_display.dfy`) holds the two pure helpers:
  - `FormatTime`: minutes and seconds, each zero-padded to two digits,
    joined by a colon. It is built from `Decimal` (`toString`) and `PadStart`
    (`padStart`).
  - `ModeTitle` (`getModeTitle`).

  `ParseTime` reads the formatted text back. It exists to prove that
  formatting is lossless for every number of seconds. Below 6000 seconds the
  text is exactly `MM:SS`.

Two behaviours of the code the model keeps as written:
- `handleSettingsChange` stores any value without a range check; only the
  slider bounds (work 1–60, short break 1–15, long break 15–30) keep values
  in range. So the bounds invariant takes "every settings value comes from
  its slider" as a hypothesis, and no change is ever rejected.
- The expiry branch does not test `isRunning`. `AfterExpiry` is guarded by
  `timeLeft == 0` alone and leaves `isRunning` as it was.

## Model

| member | source | states |
|---|---|---|
| TimerState.Set | pomodoro-timer/src/components/PomodoroTimer.tsx:69-72 | the settings update replaces exactly the named field and keeps the other two |
| TimerState.NextBreak | pomodoro-timer/src/components/PomodoroTimer.tsx:39-40 | the break after a work session is never work, and is the long break iff the count before the increment is positive and divisible by 4 |
| TimerState.DurationInSliderRange | pomodoro-timer/src/components/PomodoroTimer.tsx:256-310 | with every setting inside its slider range, any mode's duration is between 60 and 3600 seconds |
| TimerState.Duration | pomodoro-timer/src/components/PomodoroTimer.tsx:90-100 | a mode's countdown length is that mode's own setting times 60 (work, short break, long break); the same `settings.X * 60` appears at lines 41, 45 and 65 |
| TimerState.AfterTick | pomodoro-timer/src/components/PomodoroTimer.tsx:31-34 | a tick changes only timeLeft; it takes off exactly one second iff the timer runs with time left, otherwise the state is unchanged; timeLeft never goes below zero |
| TimerState.AfterExpiry | pomodoro-timer/src/components/PomodoroTimer.tsx:35-46 | at zero from work: one more session, a break (long iff the pre-increment count is a positive multiple of 4) with that break's full duration; at zero from a break: work with the full work duration and the same count; isRunning and settings untouched; no effect when timeLeft is not zero |
| TimerState.AfterStartStop | pomodoro-timer/src/components/PomodoroTimer.tsx:57-59 | start/pause flips isRunning and changes nothing else |
| TimerState.AfterReset | pomodoro-timer/src/components/PomodoroTimer.tsx:61-66 | reset yields the canonical state for the current settings: paused, work, no sessions, the full work duration, settings kept |
| TimerState.Canonical | pomodoro-timer/src/components/PomodoroTimer.tsx:61-66 | the state reset produces: paused, work mode, no sessions, the full work duration, the given settings |
| TimerState.AfterSettingsChange | pomodoro-timer/src/components/PomodoroTimer.tsx:68-82 | only the named setting changes; the countdown becomes value × 60 iff the timer is paused and the field is the current mode's, otherwise it is kept; mode, isRunning and the count are never touched |
| TimerState.AfterModeChange | pomodoro-timer/src/components/PomodoroTimer.tsx:84-102 | a null selection or any selection while running leaves the state unchanged; otherwise the mode is set and its duration loaded, and nothing else changes |
| TimerState.Step | pomodoro-timer/src/components/PomodoroTimer.tsx:29-102 | one tick, expiry or handler; only a settings change alters the settings, only a reset lowers the session count (to 0), and no event raises the count by more than one |
| TimerState.Run | pomodoro-timer/src/components/PomodoroTimer.tsx:29-102 | events applied one after another; a run of interval callbacks alone never raises the countdown and changes no other field |
| TimerProperties.InitialBounded | pomodoro-timer/src/components/PomodoroTimer.tsx:19-27 | the initial state has 1500 seconds left and lies within the bounds |
| TimerProperties.StepKeepsBounded | pomodoro-timer/src/components/PomodoroTimer.tsx:29-102 | every tick, expiry and handler keeps 0 <= timeLeft <= 3600 and the settings within the slider ranges |
| TimerProperties.RunKeepsBounded | pomodoro-timer/src/components/PomodoroTimer.tsx:29-102 | any sequence of events with slider-produced settings values keeps the bounds |
| TimerProperties.ReachableBounded | pomodoro-timer/src/components/PomodoroTimer.tsx:19-102 | every state reachable from the initial one has 0 <= timeLeft <= 3600 |
| TimerProperties.RunConcat | pomodoro-timer/src/components/PomodoroTimer.tsx:29-102 | running two event sequences one after the other is running their concatenation |
| TimerProperties.ResetAfterAnyRun | pomodoro-timer/src/components/PomodoroTimer.tsx:61-66 | any event sequence followed by reset ends in the canonical state for the settings then in force |
| TimerProperties.ResetIdempotent | pomodoro-timer/src/components/PomodoroTimer.tsx:61-66 | resetting twice is resetting once |
| TimerProperties.StartStopTwice | pomodoro-timer/src/components/PomodoroTimer.tsx:57-59 | two start/pause presses restore the original state |
| TimerProperties.RunTicks | pomodoro-timer/src/components/PomodoroTimer.tsx:31-34 | while running, n ticks (n <= timeLeft) take exactly n seconds off and change nothing else |
| TimerProperties.RunTicksPaused | pomodoro-timer/src/components/PomodoroTimer.tsx:31-34 | while paused, any number of ticks changes nothing |
| TimerProperties.WorkBreakCycle | pomodoro-timer/src/components/PomodoroTimer.tsx:29-49 | a running work expiry, the chosen break counted down in full and its expiry return to work with one more session and a full work countdown |
| TimerProperties.SettingsOnlyChangedBySliders | pomodoro-timer/src/components/PomodoroTimer.tsx:68-72 | event sequences without a settings change leave the settings as they were |
| TimerProperties.SessionsGrowWithoutReset | pomodoro-timer/src/components/PomodoroTimer.tsx:37-64 | without a reset the session count never decreases and grows by at most one per event |
| TimerProperties.LongBreakCount | pomodoro-timer/src/components/PomodoroTimer.tsx:39-40 | of the first n completed work sessions exactly (n-1)/4 are followed by a long break (the 5th, 9th, 13th, …) |
| TimerProperties.CadenceExamples | pomodoro-timer/src/components/PomodoroTimer.tsx:36-41 | work expiry with count 0 or 3 leads to a short break, with count 4 to a long break, and the count goes up by one |
| TimerProperties.FirstSession | pomodoro-timer/src/components/PomodoroTimer.tsx:19-41 | from the initial state, start plus 1500 ticks plus the expiry give a running 5-minute short break with one session done |
| TimerComponent.PomodoroTimer.constructor | pomodoro-timer/src/components/PomodoroTimer.tsx:19-27 | the component starts paused in work mode with 1500 seconds, no sessions and settings 25/5/15 |
| TimerComponent.PomodoroTimer.Tick | pomodoro-timer/src/components/PomodoroTimer.tsx:31-34 | the interval callback decrements timeLeft only while running with time left, matching AfterTick |
| TimerComponent.PomodoroTimer.Expire | pomodoro-timer/src/components/PomodoroTimer.tsx:35-46 | the expiry branch with the pre-increment count deciding the break, matching AfterExpiry |
| TimerComponent.PomodoroTimer.StartStop | pomodoro-timer/src/components/PomodoroTimer.tsx:57-59 | flips isRunning only, matching AfterStartStop |
| TimerComponent.PomodoroTimer.Reset | pomodoro-timer/src/components/PomodoroTimer.tsx:61-66 | sets the canonical state for the current settings, matching AfterReset |
| TimerComponent.PomodoroTimer.SettingsChange | pomodoro-timer/src/components/PomodoroTimer.tsx:68-82 | stores the value and conditionally reloads the countdown, matching AfterSettingsChange; keeps the bounds when the value is within its slider range |
| TimerComponent.PomodoroTimer.ModeChange | pomodoro-timer/src/components/PomodoroTimer.tsx:84-102 | the guarded mode switch, matching AfterModeChange |
| TimerComponent.FirstSessionThenReset | pomodoro-timer/src/components/PomodoroTimer.tsx:19-66 | driving an object through start, 1500 interval callbacks and the expiry gives one session and a 300-second short break; reset then restores the initial state |
| TimerDisplay.FormatTime | pomodoro-timer/src/components/PomodoroTimer.tsx:51-55 | formatTime: the text always ends in a colon and two characters, and below 6000 seconds it has exactly five; FormatTimeRoundTrip and FormatTimeDigits state its content |
| TimerDisplay.Clock | pomodoro-timer/src/components/PomodoroTimer.tsx:54 | the template literal: with seconds below 60 the colon is third from the end, and below 100 minutes the text has five characters; ClockRoundTrip and ClockDigits state its content |
| TimerDisplay.ClockRoundTrip | pomodoro-timer/src/components/PomodoroTimer.tsx:54 | decoding the joined minutes and seconds (seconds below 60) gives back minutes × 60 + seconds |
| TimerDisplay.ClockDigits | pomodoro-timer/src/components/PomodoroTimer.tsx:54 | below 100 minutes and 60 seconds the joined text is the two minute digits, a colon and the two second digits |
| TimerDisplay.Decimal | pomodoro-timer/src/components/PomodoroTimer.tsx:54 | toString of a non-negative integer is a non-empty digit string without a leading zero, one digit long iff below 10 |
| TimerDisplay.PadStart | pomodoro-timer/src/components/PomodoroTimer.tsx:54 | padStart keeps the string as the suffix, fills the front with the fill character, and reaches the requested width |
| TimerDisplay.DecimalRoundTrip | pomodoro-timer/src/components/PomodoroTimer.tsx:54 | reading the decimal digits back gives the number |
| TimerDisplay.PaddedRoundTrip | pomodoro-timer/src/components/PomodoroTimer.tsx:54 | zero padding does not change the value the digits read back as |
| TimerDisplay.FormatTimeRoundTrip | pomodoro-timer/src/components/PomodoroTimer.tsx:51-55 | decoding formatTime's text gives back the number of seconds, for every non-negative number |
| TimerDisplay.FormatTimeInjective | pomodoro-timer/src/components/PomodoroTimer.tsx:51-55 | two different numbers of seconds never display alike |
| TimerDisplay.FormatTimeDigits | pomodoro-timer/src/components/PomodoroTimer.tsx:51-55 | below 6000 seconds the text is exactly five characters: two minute digits, a colon, two second digits |
| TimerDisplay.ModeTitle | pomodoro-timer/src/components/PomodoroTimer.tsx:104-115 | every mode has a non-empty title |
| TimerDisplay.ModeTitleInjective | pomodoro-timer/src/components/PomodoroTimer.tsx:104-115 | distinct modes have distinct titles |

## Left out

- Wall-clock timing is not modelled: `setInterval`, `clearInterval`, the 1000 ms period and the effect's cleanup. A tick is an abstract event, and `Tick` applies only while the timer runs with time left.
- React's `useEffect` re-run rules and `useState` batching are not modelled. Each handler and each effect run is one atomic step.
- The expiry is not forced. In the component, the effect runs right after the render in which `timeLeft` reaches 0. In the model, `Expire` is an event that may arrive late, after other events. The model therefore reaches some states the component cannot, such as a paused break right after a pause at zero. Every bounds lemma still holds, because it covers all event orders.
- The `event` argument of `handleModeChange` is not modelled, because the handler never reads it.
- The `default: return ''` branch of `getModeTitle` is not modelled. It cannot be reached when the mode has one of its three declared values.
- The rendering is not modelled: JSX, MUI components, styling and icons. The `disabled={isRunning}` gating of the sliders and mode buttons is a UI affordance, so the handlers are modelled as callable in any state.
- pomodoro-timer/src/App.tsx is not part of this model. It is a theme and layout shell with no logic.
- FormatTime: takes a non-negative number of seconds. Under the slider ranges timeLeft is never negative. The JavaScript output for negative or fractional inputs is not modelled.
- Numbers are unbounded integers. The sliders produce whole numbers (default step 1), so JavaScript floating point and `toString`'s exponent form for huge values do not arise.
