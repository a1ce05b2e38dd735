/** The session lifecycle of src/App.tsx: the `gameState`, `score` and
    `batteries` state of the shell, the two handlers that change the session
    state, and the setters the engine's callbacks are bound to. */
module App {
  import opened Types

  /** What the shell reacts to: the start (or restart) button, and the
      engine's game-over callback. */
  datatype Event = StartPressed | GameOver(won: bool)

  /** The session state after an event (App.tsx 22-29). */
  function Next(state: GameState, e: Event): GameState
  {
    match e
    case StartPressed => Playing
    case GameOver(won) => if won then Won else Lost
  }

  /** The session state after a series of events, in order. */
  function Run(state: GameState, events: seq<Event>): GameState
    decreases |events|
  {
    if |events| == 0 then state else Run(Next(state, events[0]), events[1..])
  }

  /** Each event overwrites the state, so the last one decides it: a win
      followed by a loss in one frame ends the session as lost. */
  lemma {:induction false} LastEventDecides(state: GameState, events: seq<Event>)
    requires |events| > 0
    ensures Run(state, events) == Next(state, events[|events| - 1])
    decreases |events|
  {
    if |events| > 1 {
      LastEventDecides(Next(state, events[0]), events[1..]);
    }
  }

  class AppState {
    var gameState: GameState
    var score: int
    var batteries: seq<Battery>

    /** The initial state of the shell (App.tsx 10-14). */
    constructor ()
      ensures gameState == Start && score == 0 && batteries == []
    {
      gameState := Start;
      score := 0;
      batteries := [];
    }

    /** The start and restart buttons (App.tsx 22-25, 79, 161). */
    method HandleStart()
      modifies this
      ensures gameState == Next(old(gameState), StartPressed) == Playing
      ensures score == 0 && batteries == old(batteries)
    {
      gameState := Playing;
      score := 0;
    }

    /** The engine's game-over callback (App.tsx 27-29, 132). */
    method HandleGameOver(won: bool)
      modifies this
      ensures gameState == Next(old(gameState), GameOver(won)) == (if won then Won else Lost)
      ensures score == old(score) && batteries == old(batteries)
    {
      gameState := if won then Won else Lost;
    }

    /** The engine's onScoreChange callback is `setScore` (App.tsx 131). */
    method SetScore(s: int)
      modifies this
      ensures score == s && gameState == old(gameState) && batteries == old(batteries)
    {
      score := s;
    }

    /** The engine's onAmmoUpdate callback is `setBatteries` (App.tsx 133). */
    method SetBatteries(bs: seq<Battery>)
      modifies this
      ensures batteries == bs && gameState == old(gameState) && score == old(score)
    {
      batteries := bs;
    }
  }

  /** A frame that reports a win and then a loss leaves the shell in Lost. */
  method WinThenLoss(app: AppState)
    modifies app
    ensures app.gameState == Lost && app.gameState == Run(old(app.gameState), [GameOver(true), GameOver(false)])
  {
    app.HandleGameOver(true);
    app.HandleGameOver(false);
    LastEventDecides(old(app.gameState), [GameOver(true), GameOver(false)]);
  }
}
