/** The countdown timer widget: a duration input, the seconds left, the flags
    `isActive` and `isPaused`, and the one-second interval kept in `timerRef`. */
module CountdownTimer {
  import opened Inputs
  import opened ClockFormat

  /** The component's state. `duration` is `None` while the input holds `""`;
      `intervalSet` says whether the interval held in `timerRef` is scheduled. */
  datatype TimerState = TimerState(
    duration: Option<int>,
    timeLeft: int,
    isActive: bool,
    isPaused: bool,
    intervalSet: bool)

  /** The state on first render: empty input, 00:00, nothing scheduled. */
  const Initial := TimerState(None, 0, false, false, false)

  /** What holds of every state the handlers reach from `Initial`: the timer is never
      both active and paused, an active timer never shows a negative time, and an
      interval is scheduled exactly while the timer is active with time left. */
  predicate Valid(s: TimerState) {
    && !(s.isActive && s.isPaused)
    && (s.isActive ==> s.timeLeft >= 0)
    && (s.intervalSet <==> s.isActive && s.timeLeft > 0)
  }

  /** `handleDurationChange`: the field's value is stored as `Number(value) || ""`,
      so zero and `NaN` both become empty; any other integer, negative ones
      included, is kept. */
  function DurationInput(p: Parsed): (d: Option<int>)
    ensures d.None? <==> (p == NaN || p == Num(0))
    ensures d.Some? ==> p == Num(d.value) && d.value != 0
  {
    match p
    case NaN => None
    case Num(n) => if n == 0 then None else Some(n)
  }

  function DurationChange(s: TimerState, p: Parsed): (r: TimerState)
    ensures r.duration == DurationInput(p)
    ensures r == s.(duration := r.duration)
    ensures Valid(s) ==> Valid(r)
  {
    s.(duration := DurationInput(p))
  }

  /** The effect that depends on `[isActive, isPaused]`: when either flag changed,
      the cleanup clears the old interval, and a new one is scheduled if the timer
      is now active and not paused. When neither changed, the effect does not run.
      Only the interval is touched, and there is never more than the one. */
  function RunEffect(before: TimerState, after: TimerState): (r: TimerState)
    ensures r == after.(intervalSet := r.intervalSet)
    ensures before.isActive == after.isActive && before.isPaused == after.isPaused ==>
      r.intervalSet == after.intervalSet
    ensures before.isActive != after.isActive || before.isPaused != after.isPaused ==>
      r.intervalSet == (after.isActive && !after.isPaused)
  {
    if before.isActive == after.isActive && before.isPaused == after.isPaused then after
    else after.(intervalSet := after.isActive && !after.isPaused)
  }

  /** `handleSetDuration`: a positive typed duration becomes the time left and stops
      the timer; an empty or non-positive one changes nothing. */
  function SetDuration(s: TimerState): (r: TimerState)
    ensures s.duration.Some? && s.duration.value > 0 ==>
      && r.timeLeft == s.duration.value
      && !r.isActive && !r.isPaused && !r.intervalSet
      && r.duration == s.duration
      && Valid(r)
    ensures !(s.duration.Some? && s.duration.value > 0) ==> r == s
    ensures Valid(s) ==> Valid(r)
  {
    if s.duration.Some? && s.duration.value > 0 then
      RunEffect(s, s.(timeLeft := s.duration.value, isActive := false, isPaused := false, intervalSet := false))
    else s
  }

  /** `handleStart`: with time left the timer becomes active and unpaused and, in a
      valid state, the interval is running afterwards; with none left (in particular
      after expiry) nothing changes. */
  function Start(s: TimerState): (r: TimerState)
    ensures s.timeLeft > 0 ==>
      && r.isActive && !r.isPaused
      && r.timeLeft == s.timeLeft && r.duration == s.duration
    ensures s.timeLeft > 0 && Valid(s) ==> r.intervalSet
    ensures s.timeLeft <= 0 ==> r == s
    ensures Valid(s) ==> Valid(r)
  {
    if s.timeLeft > 0 then RunEffect(s, s.(isActive := true, isPaused := false)) else s
  }

  /** `handlePause`: an active timer becomes paused and inactive with its time left
      kept and its interval cleared; otherwise nothing changes. */
  function Pause(s: TimerState): (r: TimerState)
    ensures s.isActive ==>
      && r.isPaused && !r.isActive && !r.intervalSet
      && r.timeLeft == s.timeLeft && r.duration == s.duration
    ensures !s.isActive ==> r == s
    ensures Valid(s) ==> Valid(r)
  {
    if s.isActive then RunEffect(s, s.(isPaused := true, isActive := false, intervalSet := false))
    else s
  }

  /** `handleReset`: stops the timer and sets the time left to the duration typed in
      now (not the last one set), or 0 when the field is empty. No sign check is
      made, so the time left is non-negative exactly when the typed value is. */
  function Reset(s: TimerState): (r: TimerState)
    ensures r.timeLeft == (if s.duration.Some? then s.duration.value else 0)
    ensures !r.isActive && !r.isPaused && !r.intervalSet && r.duration == s.duration
    ensures r.timeLeft >= 0 <==> (s.duration.None? || s.duration.value >= 0)
    ensures Valid(r)
  {
    var t := match s.duration case Some(d) => d case None => 0;
    RunEffect(s, s.(isActive := false, isPaused := false, timeLeft := t, intervalSet := false))
  }

  /** The interval callback: the time left drops by one second; at one second or
      below it becomes 0 and the interval clears itself. No flag changes, so
      `isActive` stays true after expiry. */
  function Tick(s: TimerState): (r: TimerState)
    requires s.intervalSet
    ensures s.timeLeft >= 1 ==> r.timeLeft == s.timeLeft - 1
    ensures s.timeLeft <= 1 ==> r.timeLeft == 0
    ensures r.timeLeft >= 0
    ensures r.intervalSet == (s.timeLeft > 1)
    ensures r.isActive == s.isActive && r.isPaused == s.isPaused && r.duration == s.duration
    ensures Valid(s) ==> Valid(r)
  {
    if s.timeLeft <= 1 then s.(timeLeft := 0, intervalSet := false)
    else s.(timeLeft := s.timeLeft - 1)
  }

  /** What the user does, and one second of real time passing. */
  datatype TimerEvent =
    | Typed(input: Parsed)
    | SetClicked
    | StartClicked
    | PauseClicked
    | ResetClicked
    | SecondElapsed

  /** One event. A second that passes runs the callback only if an interval is
      scheduled. */
  function Step(s: TimerState, e: TimerEvent): (r: TimerState)
    ensures Valid(s) ==> Valid(r)
  {
    match e
    case Typed(p) => DurationChange(s, p)
    case SetClicked => SetDuration(s)
    case StartClicked => Start(s)
    case PauseClicked => Pause(s)
    case ResetClicked => Reset(s)
    case SecondElapsed => if s.intervalSet then Tick(s) else s
  }

  function Run(s: TimerState, events: seq<TimerEvent>): TimerState
    decreases |events|
  {
    if events == [] then s else Run(Step(s, events[0]), events[1..])
  }

  /** `n` seconds of real time with no user action. */
  function Seconds(n: nat): (w: seq<TimerEvent>)
    ensures |w| == n
  {
    seq(n, _ => SecondElapsed)
  }

  lemma {:induction false} RunKeepsValid(s: TimerState, events: seq<TimerEvent>)
    requires Valid(s)
    ensures Valid(Run(s, events))
    decreases |events|
  {
    if events != [] {
      RunKeepsValid(Step(s, events[0]), events[1..]);
    }
  }

  /** No sequence of user actions and elapsed seconds leaves the timer both active
      and paused, shows a negative time while active, or keeps an interval running
      without time left (or stopped while time is left and the timer is active). */
  lemma ReachableStatesAreValid(events: seq<TimerEvent>)
    ensures Valid(Run(Initial, events))
  {
    RunKeepsValid(Initial, events);
  }

  /** While active, each second takes exactly one second off the time left. */
  lemma {:induction false} CountsDownOnePerSecond(s: TimerState, n: nat)
    requires Valid(s) && s.isActive && n <= s.timeLeft
    ensures Run(s, Seconds(n)).timeLeft == s.timeLeft - n
    ensures Run(s, Seconds(n)).isActive
    ensures Run(s, Seconds(n)).duration == s.duration
    decreases n
  {
    if n > 0 {
      assert Seconds(n)[0] == SecondElapsed;
      assert Seconds(n)[1..] == Seconds(n - 1);
      CountsDownOnePerSecond(Step(s, SecondElapsed), n - 1);
    }
  }

  /** With no interval scheduled (idle, paused, or expired) time passing changes nothing. */
  lemma {:induction false} IdleSecondsChangeNothing(s: TimerState, n: nat)
    requires !s.intervalSet
    ensures Run(s, Seconds(n)) == s
    decreases n
  {
    if n > 0 {
      assert Seconds(n)[1..] == Seconds(n - 1);
      IdleSecondsChangeNothing(s, n - 1);
    }
  }

  /** An active timer reaches 0 after as many seconds as it has left; its interval
      is then cleared, yet `isActive` stays true, and no later second changes it. */
  lemma Expires(s: TimerState, later: nat)
    requires Valid(s) && s.isActive
    ensures var r := Run(s, Seconds(s.timeLeft));
      && r.timeLeft == 0 && r.isActive && !r.intervalSet
      && Run(r, Seconds(later)) == r
      && Start(r) == r
  {
    CountsDownOnePerSecond(s, s.timeLeft);
    RunKeepsValid(s, Seconds(s.timeLeft));
    IdleSecondsChangeNothing(Run(s, Seconds(s.timeLeft)), later);
  }

  /** Pausing a running timer freezes it for any number of seconds, and starting it
      again gives back exactly the running state it was paused in. */
  lemma PauseThenStartResumes(s: TimerState, n: nat)
    requires Valid(s) && s.isActive && s.timeLeft > 0
    ensures Run(Pause(s), Seconds(n)) == Pause(s)
    ensures Start(Run(Pause(s), Seconds(n))) == s
  {
    IdleSecondsChangeNothing(Pause(s), n);
  }

  /** The time left can exceed the duration in the input: typing a new value after
      setting one does not touch the time left. */
  lemma TimeLeftCanExceedTypedDuration()
    ensures var s := Run(Initial, [Typed(Num(10)), SetClicked, Typed(Num(3))]);
      s.timeLeft == 10 && s.duration == Some(3)
  {
  }

  /** Reset uses the value in the input even if it was never set. */
  lemma ResetUsesTypedDuration()
    ensures Reset(DurationChange(SetDuration(DurationChange(Initial, Num(10))), Num(3))).timeLeft == 3
  {
  }

  /** A negative value in the input gives a negative time left on reset, shown as
      `-1:-5` for -5. */
  lemma ResetToNegativeDuration()
    ensures Reset(DurationChange(Initial, Num(-5))).timeLeft == -5
    ensures FormatTime(Reset(DurationChange(Initial, Num(-5))).timeLeft) == "-1:-5"
  {
    var r := Reset(DurationChange(Initial, Num(-5)));
    assert r.timeLeft == -5;
    FormatNegativeTime();
  }

  /** The component, with its handlers as methods on its state fields. */
  class Countdown {
    var duration: Option<int>
    var timeLeft: int
    var isActive: bool
    var isPaused: bool
    /** Whether the interval held in `timerRef` is scheduled. */
    var intervalSet: bool

    function State(): TimerState
      reads this
    {
      TimerState(duration, timeLeft, isActive, isPaused, intervalSet)
    }

    constructor ()
      ensures State() == Initial
    {
      duration, timeLeft, isActive, isPaused, intervalSet := None, 0, false, false, false;
    }

    /** The `[isActive, isPaused]` effect, run after a handler that was entered with
        the flags `wasActive` and `wasPaused`. */
    method Effect(wasActive: bool, wasPaused: bool)
      modifies this
      ensures State() == RunEffect(old(State()).(isActive := wasActive, isPaused := wasPaused), old(State()))
    {
      if wasActive != isActive || wasPaused != isPaused {
        intervalSet := false;
        if isActive && !isPaused {
          intervalSet := true;
        }
      }
    }

    method HandleDurationChange(p: Parsed)
      modifies this
      ensures State() == DurationChange(old(State()), p)
    {
      duration := DurationInput(p);
    }

    method HandleSetDuration()
      modifies this
      ensures State() == SetDuration(old(State()))
    {
      if duration.Some? && duration.value > 0 {
        var wasActive, wasPaused := isActive, isPaused;
        timeLeft := duration.value;
        isActive := false;
        isPaused := false;
        intervalSet := false;
        Effect(wasActive, wasPaused);
      }
    }

    method HandleStart()
      modifies this
      ensures State() == Start(old(State()))
    {
      if timeLeft > 0 {
        var wasActive, wasPaused := isActive, isPaused;
        isActive := true;
        isPaused := false;
        Effect(wasActive, wasPaused);
      }
    }

    method HandlePause()
      modifies this
      ensures State() == Pause(old(State()))
    {
      if isActive {
        var wasActive, wasPaused := isActive, isPaused;
        isPaused := true;
        isActive := false;
        intervalSet := false;
        Effect(wasActive, wasPaused);
      }
    }

    method HandleReset()
      modifies this
      ensures State() == Reset(old(State()))
    {
      var wasActive, wasPaused := isActive, isPaused;
      isActive := false;
      isPaused := false;
      timeLeft := match duration case Some(d) => d case None => 0;
      intervalSet := false;
      Effect(wasActive, wasPaused);
    }

    /** One firing of the scheduled interval. */
    method OnInterval()
      requires intervalSet
      modifies this
      ensures State() == Tick(old(State()))
    {
      if timeLeft <= 1 {
        intervalSet := false;
        timeLeft := 0;
      } else {
        timeLeft := timeLeft - 1;
      }
    }

    /** What the component renders as the time left. */
    function Display(): (text: string)
      reads this
      ensures timeLeft >= 0 ==> ParseClock(text) == Some(timeLeft)
    {
      if timeLeft >= 0 then FormatTimeRoundTrip(timeLeft); FormatTime(timeLeft)
      else FormatTime(timeLeft)
    }
  }
}
