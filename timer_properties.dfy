/**
 Properties of the Pomodoro state machine that relate several steps: the
 bounds every reachable state keeps, what reset and start/pause undo, how a
 run of ticks counts down, and the long-break cadence.
 */
module TimerProperties {
  import opened TimerState

  /** The countdown lies between zero and one hour, and the settings are ones the sliders can produce. */
  predicate Bounded(s: Snapshot)
  {
    SettingsInRange(s.settings) && 0 <= s.timeLeft <= 3600
  }

  /** An event the component can receive: a settings value always comes from its slider. */
  predicate Allowed(e: Event)
  {
    e.SettingsChange? ==> InSliderRange(e.field, e.value)
  }

  lemma InitialBounded()
    ensures Bounded(Initial) && Initial.timeLeft == 1500
  {
  }

  /** Every single step keeps the bounds. */
  lemma StepKeepsBounded(s: Snapshot, e: Event)
    requires Bounded(s) && Allowed(e)
    ensures Bounded(Step(s, e))
  {
  }

  /** Starting inside the bounds, any sequence of allowed events stays inside them. */
  lemma {:induction false} RunKeepsBounded(s: Snapshot, es: seq<Event>)
    requires Bounded(s)
    requires forall i :: 0 <= i < |es| ==> Allowed(es[i])
    ensures Bounded(Run(s, es))
    decreases |es|
  {
    if es != [] {
      StepKeepsBounded(s, es[0]);
      RunKeepsBounded(Step(s, es[0]), es[1..]);
    }
  }

  /** From the initial state, every reachable state has 0 <= timeLeft <= 3600. */
  lemma ReachableBounded(es: seq<Event>)
    requires forall i :: 0 <= i < |es| ==> Allowed(es[i])
    ensures 0 <= Run(Initial, es).timeLeft <= 3600
  {
    InitialBounded();
    RunKeepsBounded(Initial, es);
  }

  /** Running two sequences of events is running their concatenation. */
  lemma {:induction false} RunConcat(s: Snapshot, a: seq<Event>, b: seq<Event>)
    ensures Run(s, a + b) == Run(Run(s, a), b)
    decreases |a|
  {
    if a == [] {
      assert a + b == b;
    } else {
      assert (a + b)[0] == a[0] && (a + b)[1..] == a[1..] + b;
      RunConcat(Step(s, a[0]), a[1..], b);
    }
  }

  /** Whatever happened before, a reset returns to the canonical state for the settings then in force. */
  lemma ResetAfterAnyRun(s: Snapshot, es: seq<Event>)
    ensures Run(s, es + [Reset]) == Canonical(Run(s, es).settings)
  {
    RunConcat(s, es, [Reset]);
  }

  lemma ResetIdempotent(s: Snapshot)
    ensures AfterReset(AfterReset(s)) == AfterReset(s)
  {
  }

  /** Pressing start/pause twice restores the state. */
  lemma StartStopTwice(s: Snapshot)
    ensures AfterStartStop(AfterStartStop(s)) == s
  {
  }

  /** n interval callbacks in a row. */
  function Ticks(n: nat): (es: seq<Event>)
    ensures |es| == n && forall i :: 0 <= i < n ==> es[i] == Tick
  {
    seq(n, _ => Tick)
  }

  /** While running, n ticks take exactly n seconds off and change nothing else. */
  lemma {:induction false} RunTicks(s: Snapshot, n: nat)
    requires s.isRunning && n <= s.timeLeft
    ensures Run(s, Ticks(n)) == s.(timeLeft := s.timeLeft - n)
    decreases n
  {
    if n > 0 {
      assert Ticks(n)[1..] == Ticks(n - 1);
      RunTicks(AfterTick(s), n - 1);
    }
  }

  /** While paused, ticks change nothing. */
  lemma {:induction false} RunTicksPaused(s: Snapshot, n: nat)
    requires !s.isRunning
    ensures Run(s, Ticks(n)) == s
    decreases n
  {
    if n > 0 {
      assert Ticks(n)[1..] == Ticks(n - 1);
      RunTicksPaused(AfterTick(s), n - 1);
    }
  }

  /**
   One full pomodoro while running: the work countdown expires, the chosen
   break is counted all the way down, and it expires in turn.  The timer is
   then back at work with a full work countdown and one more session.
   */
  lemma WorkBreakCycle(s: Snapshot)
    requires s.isRunning && s.mode == Work && s.timeLeft == 0
    requires SettingsInRange(s.settings)
    ensures
      var brk := NextBreak(s.completedSessions);
      var t := Run(s, [Expire] + Ticks(Duration(s.settings, brk)) + [Expire]);
      t == s.(completedSessions := s.completedSessions + 1,
              timeLeft := s.settings.workTime * 60)
  {
    var brk := NextBreak(s.completedSessions);
    var d := Duration(s.settings, brk);
    DurationInSliderRange(s.settings, brk);
    var s1 := AfterExpiry(s);
    RunConcat(s, [Expire], Ticks(d));
    RunConcat(s, [Expire] + Ticks(d), [Expire]);
    RunTicks(s1, d);
  }

  /** No event other than a settings change touches the settings. */
  lemma {:induction false} SettingsOnlyChangedBySliders(s: Snapshot, es: seq<Event>)
    requires forall i :: 0 <= i < |es| ==> !es[i].SettingsChange?
    ensures Run(s, es).settings == s.settings
    decreases |es|
  {
    if es != [] {
      SettingsOnlyChangedBySliders(Step(s, es[0]), es[1..]);
    }
  }

  /** Without a reset, the session count never decreases, and it grows by at most one per event. */
  lemma {:induction false} SessionsGrowWithoutReset(s: Snapshot, es: seq<Event>)
    requires forall i :: 0 <= i < |es| ==> es[i] != Reset
    ensures s.completedSessions <= Run(s, es).completedSessions <= s.completedSessions + |es|
    decreases |es|
  {
    if es != [] {
      SessionsGrowWithoutReset(Step(s, es[0]), es[1..]);
    }
  }

  /** How many of the first n completed work sessions are followed by a long break. */
  function LongBreaksAmong(n: nat): nat
  {
    if n == 0 then 0
    else LongBreaksAmong(n - 1) + (if NextBreak(n - 1) == LongBreak then 1 else 0)
  }

  /**
   The cadence the pre-increment count produces: the first long break follows
   the fifth completed work session, then every fourth one (the 9th, 13th, ...).
   */
  lemma {:induction false} LongBreakCount(n: nat)
    ensures LongBreaksAmong(n) == if n == 0 then 0 else (n - 1) / 4
  {
    if n > 1 {
      LongBreakCount(n - 1);
      assert (n - 1) / 4 == (n - 2) / 4 + (if (n - 1) % 4 == 0 then 1 else 0);
    }
  }

  /** Expiries at the counts where the cadence turns: 0 and 3 lead to a short break, 4 to a long one. */
  lemma CadenceExamples(s: Snapshot)
    requires s.mode == Work && s.timeLeft == 0
    ensures s.completedSessions == 0 ==> AfterExpiry(s).mode == ShortBreak
    ensures s.completedSessions == 3 ==>
      AfterExpiry(s).mode == ShortBreak && AfterExpiry(s).completedSessions == 4
    ensures s.completedSessions == 4 ==>
      AfterExpiry(s).mode == LongBreak && AfterExpiry(s).completedSessions == 5
  {
  }

  /**
   The first work session from a fresh start: start, count 1500 seconds down,
   and the expiry moves to a short break with one session done.
   */
  lemma FirstSession()
    ensures
      var t := Run(Initial, [StartStop] + Ticks(1500) + [Expire]);
      t == Snapshot(5 * 60, true, ShortBreak, 1, DefaultSettings)
  {
    var s1 := AfterStartStop(Initial);
    RunConcat(Initial, [StartStop], Ticks(1500));
    RunConcat(Initial, [StartStop] + Ticks(1500), [Expire]);
    RunTicks(s1, 1500);
  }
}
