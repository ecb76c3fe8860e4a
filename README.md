# Countdown timer and number-guessing game, modelled in Dafny

This project models the two stateful widgets of a collection of small browser
widgets written in React:

- the **countdown timer** (`Countdown`): a duration field, the seconds left, the
  flags `isActive` and `isPaused`, and a one-second interval kept in `timerRef`;
  its display `formatTime` renders the seconds left as `MM:SS`;
- the **number-guessing game** (`NumberGuessing`): a hidden target between 1 and 10,
  the typed guess, an attempt counter and the flags `gameStarted`, `gameOver` and
  `paused`.

The timer is the module `CountdownTimer`, with its display in the module
`ClockFormat`; the game is the module `NumberGuessing`; `Inputs` holds the two
input types they share. Each widget has a state datatype (`TimerState`, `GameState`), one
pure function per handler, each with a contract saying what the handler does, and
an invariant `Valid` that every handler preserves. A `Run` function plays a
sequence of events, and lemmas about those runs state what the widget promises
over time. A class (`Countdown`, `NumberGuessingGame`) holds the same fields the
component keeps in `useState`; `Countdown` also holds `intervalSet`, which stands
for the interval handle the component keeps in the `useRef` value `timerRef`. Its
handler methods update those fields in place, and each method's postcondition ties
the new state to the handler function.

React's effects are modelled with their dependency arrays. An effect runs after
the first render and then only after a render in which one of its dependencies
changed. The run after the first render does nothing in either widget, because
both start inactive and unstarted, so the model leaves it out.

- In the timer, the `[isActive, isPaused]` effect clears the old interval and
  schedules a new one while the timer is active and not paused. The field
  `intervalSet` records whether an interval is scheduled. One firing of the
  interval is `Tick` (the method `OnInterval`). A second of real time is the event
  `SecondElapsed`, which fires the callback only while an interval is scheduled.
- In the game, the `[gameStarted, paused]` effect draws a new target when the game
  enters the started-and-unpaused state. `Math.random()` is replaced by a parameter
  `k` of type `Draw` (0..9), and the target becomes `k + 1`.

Text entered in a numeric field reaches the model already converted, as
`Parsed = NaN | Num(n)`:

- The timer stores `Number(value) || ""`, so zero and `NaN` become empty (`None`).
- The game stores `parseInt(value)`, with `NaN` stored as empty.

Behaviour of the code that the model keeps as written:

- Reset uses the duration currently typed in the field, not the last one that was
  set. The field is not checked for sign, so a negative typed value gives a
  negative time left. That time is then displayed as, for example, `-1:-5`
  (`CountdownTimer.ResetUsesTypedDuration`, `CountdownTimer.ResetToNegativeDuration`).
- When the countdown reaches 0, the interval clears itself but `isActive` stays
  true (`CountdownTimer.Expires`).
- An empty or non-numeric guess still counts as an attempt.
- A guess is accepted while the game is paused, because the handler checks neither
  `paused` nor `gameOver`.
- Try Again leaves `paused` and the old target as they were.
- Resuming a paused game draws a new target (`NumberGuessing.ResumeRedrawsTarget`).

Behaviour one might expect that the code does not have:

- The time left is not bounded by the duration in the field: typing a new value
  after Set leaves the time left unchanged
  (`CountdownTimer.TimeLeftCanExceedTypedDuration`).
- Reset does not return to the last value set; it uses whatever the field holds.
- A non-numeric or empty guess is counted as an attempt.
- Pausing the game does not block guesses.
- The target is not fixed for a game; every resume draws it again.

## Model

| member | source | states |
|---|---|---|
| `CountdownTimer.DurationInput` | countdown-timer_app/components/ui/coundown-timer.tsx:84-86 | the stored duration is empty exactly when the field reads as 0 or NaN; otherwise it is that integer, negative values included |
| `CountdownTimer.RunEffect` | countdown-timer_app/components/ui/coundown-timer.tsx:53-75 | the effect touches only the interval: unchanged when neither flag changed, otherwise scheduled exactly when the timer is now active and not paused |
| `CountdownTimer.DurationChange` | countdown-timer_app/components/ui/coundown-timer.tsx:84-86 | typing changes only `duration`, to the normalised input, and keeps the invariant |
| `CountdownTimer.SetDuration` | countdown-timer_app/components/ui/coundown-timer.tsx:15-25 | a positive typed duration becomes the time left, with the timer inactive, unpaused and its interval cleared; an empty or non-positive one changes nothing |
| `CountdownTimer.Start` | countdown-timer_app/components/ui/coundown-timer.tsx:27-32 | with time left, start makes the timer active and unpaused with the time unchanged and, from a valid state, the interval running; with none left (after expiry) it is a no-op |
| `CountdownTimer.Pause` | countdown-timer_app/components/ui/coundown-timer.tsx:34-42 | an active timer becomes paused and inactive with its time kept and interval cleared; otherwise a no-op |
| `CountdownTimer.Reset` | countdown-timer_app/components/ui/coundown-timer.tsx:44-51 | reset stops the timer and sets the time left to the typed duration or 0; the result is non-negative exactly when the typed value is |
| `CountdownTimer.Tick` | countdown-timer_app/components/ui/coundown-timer.tsx:57-67 | a tick takes one second off, maps anything at or below 1 to 0, never leaves a negative time, clears the interval at 0 and changes no flag |
| `CountdownTimer.Step` | countdown-timer_app/components/ui/coundown-timer.tsx:53-75 | every handler, and a second passing, preserves the invariant: never active and paused together, never negative while active, interval scheduled exactly while active with time left |
| `CountdownTimer.RunKeepsValid` | countdown-timer_app/components/ui/coundown-timer.tsx:15-75 | any sequence of events from a valid state ends in a valid state |
| `CountdownTimer.ReachableStatesAreValid` | countdown-timer_app/components/ui/coundown-timer.tsx:7-12 | every state reachable from the initial one is valid |
| `CountdownTimer.CountsDownOnePerSecond` | countdown-timer_app/components/ui/coundown-timer.tsx:57-67 | while active, n seconds take exactly n seconds off the time left, for n up to the time left |
| `CountdownTimer.IdleSecondsChangeNothing` | countdown-timer_app/components/ui/coundown-timer.tsx:53-75 | with no interval scheduled, any number of seconds leaves the state unchanged |
| `CountdownTimer.Expires` | countdown-timer_app/components/ui/coundown-timer.tsx:58-63 | an active timer reaches 0 after its time left, with its interval cleared but still active; later seconds and Start change nothing |
| `CountdownTimer.PauseThenStartResumes` | countdown-timer_app/components/ui/coundown-timer.tsx:27-42 | a paused timer is frozen for any number of seconds, and Start restores exactly the running state it was paused in |
| `CountdownTimer.TimeLeftCanExceedTypedDuration` | countdown-timer_app/components/ui/coundown-timer.tsx:15-25 | after setting 10 and typing 3, the time left is 10 and the field holds 3 |
| `CountdownTimer.ResetUsesTypedDuration` | countdown-timer_app/components/ui/coundown-timer.tsx:44-51 | reset after typing 3 over a set 10 gives 3, not the 10 that was set |
| `CountdownTimer.ResetToNegativeDuration` | countdown-timer_app/components/ui/coundown-timer.tsx:47 | reset with -5 typed gives a time left of -5, displayed as `-1:-5` |
| `CountdownTimer.Countdown.constructor` | countdown-timer_app/components/ui/coundown-timer.tsx:7-12 | the component starts with an empty field, 0 seconds, both flags false and no interval |
| `CountdownTimer.Countdown.Effect` | countdown-timer_app/components/ui/coundown-timer.tsx:53-75 | when a flag changed, the old interval is cleared and a new one scheduled if active and not paused |
| `CountdownTimer.Countdown.HandleDurationChange` | countdown-timer_app/components/ui/coundown-timer.tsx:84-86 | the field update in place equals `DurationChange` |
| `CountdownTimer.Countdown.HandleSetDuration` | countdown-timer_app/components/ui/coundown-timer.tsx:15-25 | the in-place update equals `SetDuration` |
| `CountdownTimer.Countdown.HandleStart` | countdown-timer_app/components/ui/coundown-timer.tsx:27-32 | the in-place update equals `Start` |
| `CountdownTimer.Countdown.HandlePause` | countdown-timer_app/components/ui/coundown-timer.tsx:34-42 | the in-place update equals `Pause` |
| `CountdownTimer.Countdown.HandleReset` | countdown-timer_app/components/ui/coundown-timer.tsx:44-51 | the in-place update equals `Reset` |
| `CountdownTimer.Countdown.OnInterval` | countdown-timer_app/components/ui/coundown-timer.tsx:57-67 | one firing of the scheduled interval equals `Tick` |
| `CountdownTimer.Countdown.Display` | countdown-timer_app/components/ui/coundown-timer.tsx:113 | the rendered time reads back as the time left whenever it is non-negative |
| `ClockFormat.IntToString` | countdown-timer_app/components/ui/coundown-timer.tsx:81 | `String(i)` is the digits of a non-negative i, reading back as i; for a negative i it is exactly `-` followed by `String(-i)` |
| `ClockFormat.FormatTime` | countdown-timer_app/components/ui/coundown-timer.tsx:78-82 | a non-negative time shows a minutes field, `:` and a two-character seconds field; a negative time starts with `-`; the read-back is `FormatTimeRoundTrip` |
| `ClockFormat.NatToDecimal` | countdown-timer_app/components/ui/coundown-timer.tsx:81 | `String(n)` is a non-empty digit string without leading zero, one character exactly below 10, at most two below 100 |
| `ClockFormat.PadStart2` | countdown-timer_app/components/ui/coundown-timer.tsx:81 | `padStart(2, '0')` gives at least two characters, ends with the input, and adds only zeros in front |
| `ClockFormat.JsRemainder60` | countdown-timer_app/components/ui/coundown-timer.tsx:80 | JavaScript `% 60` lies strictly between -60 and 60, has the sign of the time, and differs from it by a multiple of 60, which fixes its value for every integer (-5 gives -5) |
| `ClockFormat.DecimalValueOfNatToDecimal` | countdown-timer_app/components/ui/coundown-timer.tsx:81 | the digits `String(n)` produces read back as n |
| `ClockFormat.PadStart2Value` | countdown-timer_app/components/ui/coundown-timer.tsx:81 | zero padding does not change the value of a digit string |
| `ClockFormat.FieldsRoundTrip` | countdown-timer_app/components/ui/coundown-timer.tsx:81 | padded minutes, `:` and padded seconds below 60 read back as minutes * 60 + seconds, for any number of minutes |
| `ClockFormat.FormatTimeRoundTrip` | countdown-timer_app/components/ui/coundown-timer.tsx:78-82 | for every time >= 0 the display is minutes, `:`, two-digit seconds below 60, and reads back as the time; minutes are not wrapped at 60 |
| `ClockFormat.FormatTimeInjective` | countdown-timer_app/components/ui/coundown-timer.tsx:78-82 | two different non-negative times never show the same text |
| `ClockFormat.FormatTimeExamples` | countdown-timer_app/components/ui/coundown-timer.tsx:78-82 | 125 shows `02:05` and 0 shows `00:00` |
| `ClockFormat.FormatNegativeTime` | countdown-timer_app/components/ui/coundown-timer.tsx:79-81 | -5 shows `-1:-5`: floored minutes, truncated seconds |
| `NumberGuessing.GuessInput` | number-guessing-game_app/components/number-guessing.tsx:62-65 | the stored guess is empty exactly when the parse gives NaN, and otherwise the parsed integer |
| `NumberGuessing.GuessChange` | number-guessing-game_app/components/number-guessing.tsx:62-65 | typing changes only the guess, and keeps the invariant |
| `NumberGuessing.DrawEffect` | number-guessing-game_app/components/number-guessing.tsx:24-29 | the effect touches only the target, and sets it to `k + 1` exactly when the game enters the started-and-unpaused state |
| `NumberGuessing.StartGame` | number-guessing-game_app/components/number-guessing.tsx:32-37 | start gives a started, unpaused, not-over game with 0 attempts; entering play draws target `k + 1`, in 1..10 |
| `NumberGuessing.PauseGame` | number-guessing-game_app/components/number-guessing.tsx:39-41 | pause sets `paused` and changes nothing else |
| `NumberGuessing.ResumeGame` | number-guessing-game_app/components/number-guessing.tsx:43-45 | resume clears `paused` and, for a started paused game, redraws the target; attempts, guess and game-over are untouched |
| `NumberGuessing.Guess` | number-guessing-game_app/components/number-guessing.tsx:47-53 | a guess equal to the target sets game-over with attempts unchanged; any other guess, empty included, adds exactly one attempt and changes nothing else |
| `NumberGuessing.TryAgain` | number-guessing-game_app/components/number-guessing.tsx:55-60 | try again unstarts and clears game-over, empties the guess and zeroes attempts, leaving `paused` and the target as they were |
| `NumberGuessing.Step` | number-guessing-game_app/components/number-guessing.tsx:24-29 | every handler with its effect keeps attempts non-negative and the target in 1..10 while started |
| `NumberGuessing.RunKeepsValid` | number-guessing-game_app/components/number-guessing.tsx:24-65 | any sequence of events from a valid state ends in a valid state |
| `NumberGuessing.ReachableStatesAreValid` | number-guessing-game_app/components/number-guessing.tsx:16-29 | every reachable state has non-negative attempts and, once started, a target in 1..10 |
| `NumberGuessing.AttemptsNeverDecrease` | number-guessing-game_app/components/number-guessing.tsx:47-53 | without start or try-again the attempts never decrease and grow by at most one per guess |
| `NumberGuessing.Offered` | number-guessing-game_app/components/number-guessing.tsx:73-144 | the buttons the screen renders: Start before a game, Pause or Resume and the guess controls during one, Try Again once it is over; a started game that is over offers only Try Again, and an unstarted one only Start (plus Try Again if it is over) |
| `NumberGuessing.OfferedRunKeepsOverStarted` | number-guessing-game_app/components/number-guessing.tsx:73-144 | through the buttons the screen shows, a valid state where game-over implies started stays so |
| `NumberGuessing.ScreenRunsEndOnlyStartedGames` | number-guessing-game_app/components/number-guessing.tsx:73-144 | through the screen alone, a game is over only once started, with its target in 1..10 |
| `NumberGuessing.ResumeRedrawsTarget` | number-guessing-game_app/components/number-guessing.tsx:24-29 | pausing and resuming a game in play replaces its target with `k + 1` and keeps the attempts |
| `NumberGuessing.NumberGuessingGame.constructor` | number-guessing-game_app/components/number-guessing.tsx:16-21 | the game starts unstarted, target 0, empty guess, 0 attempts |
| `NumberGuessing.NumberGuessingGame.Effect` | number-guessing-game_app/components/number-guessing.tsx:24-29 | when `gameStarted` or `paused` changed and the game is now in play, the target becomes `k + 1` |
| `NumberGuessing.NumberGuessingGame.HandleStartGame` | number-guessing-game_app/components/number-guessing.tsx:32-37 | the in-place update with its effect equals `StartGame` |
| `NumberGuessing.NumberGuessingGame.HandlePauseGame` | number-guessing-game_app/components/number-guessing.tsx:39-41 | the in-place update equals `PauseGame` |
| `NumberGuessing.NumberGuessingGame.HandleResumeGame` | number-guessing-game_app/components/number-guessing.tsx:43-45 | the in-place update with its effect equals `ResumeGame` |
| `NumberGuessing.NumberGuessingGame.HandleGuess` | number-guessing-game_app/components/number-guessing.tsx:47-53 | the in-place update equals `Guess` |
| `NumberGuessing.NumberGuessingGame.HandleTryAgain` | number-guessing-game_app/components/number-guessing.tsx:55-60 | the in-place update equals `TryAgain` |
| `NumberGuessing.NumberGuessingGame.HandleUserGuessChange` | number-guessing-game_app/components/number-guessing.tsx:62-65 | the in-place update equals `GuessChange` |

## Left out

- Rendering: the JSX, styling, and which buttons are shown. The buttons shown are used only as the optional restriction `NumberGuessing.Offered`; the handlers themselves check nothing.
- Scheduling: real `setInterval` and `clearInterval` timing, the effect cleanup on unmount, and React's batching of state updates. A scheduled interval is the boolean `intervalSet`; time is the event `SecondElapsed`; a handler together with the effect it triggers is one atomic step.
- Randomness: `Math.random()` is the parameter `k`.
- Number precision: durations, times left, guesses and attempts are exact integers of any size. JavaScript numbers are doubles, so above 2^53 `prevTime - 1` rounds (from 2^54 on it equals `prevTime` and the timer stops counting down), and from 1e21 on `String` writes exponent notation. `CountdownTimer.CountsDownOnePerSecond`, `CountdownTimer.Expires` and `ClockFormat.FormatTimeRoundTrip` are proved for exact integers and do not hold for such durations.
- Parsing: the exact behaviour of JavaScript `Number(...)` and `parseInt(...)` on text. Inputs arrive as `NaN` or an integer, so fractional durations, `Infinity` and `-0` are not modelled.
- The random-joke widget, because it is a network fetch with JSON decoding and console logging.
- The tip-calculator widget, because it is floating-point arithmetic with `toFixed(2)` formatting.
- `ClockFormat.ParseClock` is not part of the source; it is the reader that the display's round-trip lemma uses.
