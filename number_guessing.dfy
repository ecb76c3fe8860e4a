/** The number-guessing widget: a hidden target between 1 and 10, the typed guess,
    an attempt counter and the started / over / paused flags. */
module NumberGuessing {
  import opened Inputs

  datatype GameState = GameState(
    gameStarted: bool,
    gameOver: bool,
    paused: bool,
    targetNumber: int,
    userGuess: Option<int>,
    attempts: int)

  /** The state on first render; the target is 0 until a game starts. */
  const Initial := GameState(false, false, false, 0, None, 0)

  /** The value `Math.floor(Math.random() * 10)` drew; the target becomes `k + 1`. */
  type Draw = k: int | 0 <= k < 10

  /** The target is redrawn while the game is started and not paused. */
  predicate Playing(s: GameState) { s.gameStarted && !s.paused }

  /** What holds of every reachable state: the attempt count is never negative, the
      target lies in 0..10, and in 1..10 while a game is started. */
  predicate Valid(s: GameState) {
    && s.attempts >= 0
    && 0 <= s.targetNumber <= 10
    && (s.gameStarted ==> 1 <= s.targetNumber <= 10)
  }

  /** `handleUserGuessChange`: `parseInt` of the field, with `NaN` stored as empty. */
  function GuessInput(p: Parsed): (g: Option<int>)
    ensures g.None? <==> p == NaN
    ensures g.Some? ==> p == Num(g.value)
  {
    match p
    case NaN => None
    case Num(n) => Some(n)
  }

  function GuessChange(s: GameState, p: Parsed): (r: GameState)
    ensures r.userGuess == GuessInput(p)
    ensures r == s.(userGuess := r.userGuess)
    ensures Valid(s) ==> Valid(r)
  {
    s.(userGuess := GuessInput(p))
  }

  /** The effect that depends on `[gameStarted, paused]`: it runs only when one of them
      changed, and then draws a new target if the game is started and not paused.
      So the target is redrawn exactly when the game enters the playing state, and
      nothing else is touched. */
  function DrawEffect(before: GameState, after: GameState, k: Draw): (r: GameState)
    ensures r == after.(targetNumber := r.targetNumber)
    ensures !Playing(before) && Playing(after) ==> r.targetNumber == k + 1
    ensures !(!Playing(before) && Playing(after)) ==> r.targetNumber == after.targetNumber
  {
    if before.gameStarted == after.gameStarted && before.paused == after.paused then after
    else if Playing(after) then after.(targetNumber := k + 1)
    else after
  }

  /** `handleStartGame`: a fresh game with no attempts, not over and not paused. The
      target is redrawn as `k + 1` unless the game was already being played. */
  function StartGame(s: GameState, k: Draw): (r: GameState)
    ensures r.gameStarted && !r.gameOver && !r.paused && r.attempts == 0
    ensures r.userGuess == s.userGuess
    ensures !Playing(s) ==> r.targetNumber == k + 1
    ensures Playing(s) ==> r.targetNumber == s.targetNumber
    ensures Valid(s) ==> Valid(r)
  {
    DrawEffect(s, s.(gameStarted := true, gameOver := false, attempts := 0, paused := false), k)
  }

  /** `handlePauseGame`: only `paused` changes; pausing never draws a target. */
  function PauseGame(s: GameState): (r: GameState)
    ensures r.paused
    ensures r == s.(paused := r.paused)
    ensures Valid(s) ==> Valid(r)
  {
    s.(paused := true)
  }

  /** `handleResumeGame`: clears `paused`; resuming a started, paused game draws a new
      target `k + 1`. Attempts, guess and `gameOver` are untouched. */
  function ResumeGame(s: GameState, k: Draw): (r: GameState)
    ensures !r.paused
    ensures r == s.(paused := false, targetNumber := r.targetNumber)
    ensures s.gameStarted && s.paused ==> r.targetNumber == k + 1
    ensures !(s.gameStarted && s.paused) ==> r.targetNumber == s.targetNumber
    ensures Valid(s) ==> Valid(r)
  {
    DrawEffect(s, s.(paused := false), k)
  }

  /** `handleGuess`: a numeric guess equal to the target ends the game with the
      attempts unchanged; any other guess, the empty one included, counts one more
      attempt and changes nothing else. Neither `paused` nor `gameOver` is checked. */
  function Guess(s: GameState): (r: GameState)
    ensures s.userGuess == Some(s.targetNumber) ==> r.gameOver && r == s.(gameOver := true)
    ensures s.userGuess != Some(s.targetNumber) ==> r.attempts == s.attempts + 1
    ensures s.userGuess != Some(s.targetNumber) ==> r == s.(attempts := r.attempts)
    ensures Valid(s) ==> Valid(r)
  {
    match s.userGuess
    case Some(g) =>
      if g == s.targetNumber then s.(gameOver := true) else s.(attempts := s.attempts + 1)
    case None => s.(attempts := s.attempts + 1)
  }

  /** `handleTryAgain`: back to the start screen with no attempts and an empty guess;
      `paused` and the old target are left as they were. */
  function TryAgain(s: GameState): (r: GameState)
    ensures !r.gameStarted && !r.gameOver && r.userGuess == None && r.attempts == 0
    ensures r.paused == s.paused && r.targetNumber == s.targetNumber
    ensures Valid(s) ==> Valid(r)
  {
    s.(gameStarted := false, gameOver := false, userGuess := None, attempts := 0)
  }

  /** A user action; the two that can enter the playing state carry the draw. */
  datatype GameEvent =
    | StartClicked(k: Draw)
    | PauseClicked
    | ResumeClicked(k: Draw)
    | GuessClicked
    | TryAgainClicked
    | GuessTyped(input: Parsed)

  function Step(s: GameState, e: GameEvent): (r: GameState)
    ensures Valid(s) ==> Valid(r)
  {
    match e
    case StartClicked(k) => StartGame(s, k)
    case PauseClicked => PauseGame(s)
    case ResumeClicked(k) => ResumeGame(s, k)
    case GuessClicked => Guess(s)
    case TryAgainClicked => TryAgain(s)
    case GuessTyped(p) => GuessChange(s, p)
  }

  function Run(s: GameState, events: seq<GameEvent>): GameState
    decreases |events|
  {
    if events == [] then s else Run(Step(s, events[0]), events[1..])
  }

  lemma {:induction false} RunKeepsValid(s: GameState, events: seq<GameEvent>)
    requires Valid(s)
    ensures Valid(Run(s, events))
    decreases |events|
  {
    if events != [] {
      RunKeepsValid(Step(s, events[0]), events[1..]);
    }
  }

  /** In every reachable state the attempts are non-negative and a started game has
      a target in 1..10. */
  lemma ReachableStatesAreValid(events: seq<GameEvent>)
    ensures Valid(Run(Initial, events))
  {
    RunKeepsValid(Initial, events);
  }

  /** The events that reset the attempt count. */
  predicate Resets(e: GameEvent) { e.StartClicked? || e.TryAgainClicked? }

  function CountGuesses(events: seq<GameEvent>): (n: nat)
    ensures n <= |events|
    decreases |events|
  {
    if events == [] then 0
    else (if events[0].GuessClicked? then 1 else 0) + CountGuesses(events[1..])
  }

  /** Without a start or a try-again the attempt count never decreases, and it grows
      by at most one per guess. */
  lemma {:induction false} AttemptsNeverDecrease(s: GameState, events: seq<GameEvent>)
    requires forall i :: 0 <= i < |events| ==> !Resets(events[i])
    ensures s.attempts <= Run(s, events).attempts <= s.attempts + CountGuesses(events)
    decreases |events|
  {
    if events != [] {
      AttemptsNeverDecrease(Step(s, events[0]), events[1..]);
    }
  }

  /** Which handlers the rendered screen offers: Start before a game, Pause or Resume,
      the guess field and Guess during a game, Try Again once it is over. */
  function Offered(s: GameState, e: GameEvent): (offered: bool)
    ensures offered && s.gameStarted && s.gameOver ==> e.TryAgainClicked?
    ensures offered && !s.gameStarted && s.gameOver ==> e.StartClicked? || e.TryAgainClicked?
    ensures offered && !s.gameStarted && !s.gameOver ==> e.StartClicked?
  {
    match e
    case StartClicked(_) => !s.gameStarted
    case PauseClicked => s.gameStarted && !s.gameOver && !s.paused
    case ResumeClicked(_) => s.gameStarted && !s.gameOver && s.paused
    case GuessClicked => s.gameStarted && !s.gameOver
    case GuessTyped(_) => s.gameStarted && !s.gameOver
    case TryAgainClicked => s.gameOver
  }

  /** Every event of the run is offered by the screen it is made on. */
  predicate OfferedRun(s: GameState, events: seq<GameEvent>)
    decreases |events|
  {
    events == [] || (Offered(s, events[0]) && OfferedRun(Step(s, events[0]), events[1..]))
  }

  lemma {:induction false} OfferedRunKeepsOverStarted(s: GameState, events: seq<GameEvent>)
    requires Valid(s) && (s.gameOver ==> s.gameStarted)
    requires OfferedRun(s, events)
    ensures Valid(Run(s, events))
    ensures Run(s, events).gameOver ==> Run(s, events).gameStarted
    decreases |events|
  {
    if events != [] {
      OfferedRunKeepsOverStarted(Step(s, events[0]), events[1..]);
    }
  }

  /** Through the screen alone a game can only be over once it was started, and then
      the target is one of 1..10. */
  lemma ScreenRunsEndOnlyStartedGames(events: seq<GameEvent>)
    requires OfferedRun(Initial, events)
    ensures Run(Initial, events).gameOver ==> Run(Initial, events).gameStarted
    ensures Run(Initial, events).gameOver ==> 1 <= Run(Initial, events).targetNumber <= 10
  {
    OfferedRunKeepsOverStarted(Initial, events);
  }

  /** The target is not fixed for a game: pausing and resuming draws it again. */
  lemma ResumeRedrawsTarget(s: GameState, k: Draw)
    requires Playing(s)
    ensures ResumeGame(PauseGame(s), k).targetNumber == k + 1
    ensures ResumeGame(PauseGame(s), k).attempts == s.attempts
  {
  }

  /** The component, with its handlers as methods on its state fields. */
  class NumberGuessingGame {
    var gameStarted: bool
    var gameOver: bool
    var paused: bool
    var targetNumber: int
    var userGuess: Option<int>
    var attempts: int

    function State(): GameState
      reads this
    {
      GameState(gameStarted, gameOver, paused, targetNumber, userGuess, attempts)
    }

    constructor ()
      ensures State() == Initial
    {
      gameStarted, gameOver, paused, targetNumber, userGuess, attempts := false, false, false, 0, None, 0;
    }

    /** The `[gameStarted, paused]` effect after a handler entered with the flags
        `wasStarted` and `wasPaused`. */
    method Effect(wasStarted: bool, wasPaused: bool, k: Draw)
      modifies this
      ensures State() == DrawEffect(old(State()).(gameStarted := wasStarted, paused := wasPaused), old(State()), k)
    {
      if (wasStarted != gameStarted || wasPaused != paused) && gameStarted && !paused {
        targetNumber := k + 1;
      }
    }

    method HandleStartGame(k: Draw)
      modifies this
      ensures State() == StartGame(old(State()), k)
    {
      var wasStarted, wasPaused := gameStarted, paused;
      gameStarted := true;
      gameOver := false;
      attempts := 0;
      paused := false;
      Effect(wasStarted, wasPaused, k);
    }

    /** The effect runs too but draws nothing, since the game is now paused. */
    method HandlePauseGame()
      modifies this
      ensures State() == PauseGame(old(State()))
    {
      paused := true;
    }

    method HandleResumeGame(k: Draw)
      modifies this
      ensures State() == ResumeGame(old(State()), k)
    {
      var wasStarted, wasPaused := gameStarted, paused;
      paused := false;
      Effect(wasStarted, wasPaused, k);
    }

    method HandleGuess()
      modifies this
      ensures State() == Guess(old(State()))
    {
      if userGuess.Some? && userGuess.value == targetNumber {
        gameOver := true;
      } else {
        attempts := attempts + 1;
      }
    }

    /** The effect runs when the game was started but draws nothing, since it is
        no longer started. */
    method HandleTryAgain()
      modifies this
      ensures State() == TryAgain(old(State()))
    {
      gameStarted := false;
      gameOver := false;
      userGuess := None;
      attempts := 0;
    }

    method HandleUserGuessChange(p: Parsed)
      modifies this
      ensures State() == GuessChange(old(State()), p)
    {
      userGuess := GuessInput(p);
    }
  }
}
