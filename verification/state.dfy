/** The game's top-level state and the system that toggles pause on Escape.
    The system requests the next state; the engine applies the request before the
    next frame, so the model returns the state the next frame runs in. */
module GameStates {

  datatype GameState = InGame | Paused | GameOver

  /** The state the game starts in (the enum's `#[default]`). */
  const Initial: GameState := InGame

  /** What an Escape press does: playing and paused swap, and the end of the game
      ignores it. */
  function Toggle(s: GameState): GameState {
    match s
    case InGame => Paused
    case Paused => InGame
    case GameOver => GameOver
  }

  /** One run of the input system: `escJustPressed` is whether Escape went down this
      frame. */
  function OnInput(s: GameState, escJustPressed: bool): (r: GameState)
    ensures !escJustPressed ==> r == s
    ensures s == GameOver ==> r == GameOver
    ensures r == GameOver ==> s == GameOver
    ensures escJustPressed && s != GameOver ==> r != s
  {
    if escJustPressed then Toggle(s) else s
  }

  /** Escape toggles between playing and paused, in both directions. */
  lemma EscapeToggles()
    ensures OnInput(InGame, true) == Paused
    ensures OnInput(Paused, true) == InGame
    ensures OnInput(GameOver, true) == GameOver
  {
  }

  /** Two presses in a row undo each other, from any state. */
  lemma DoublePressIsIdentity(s: GameState)
    ensures OnInput(OnInput(s, true), true) == s
  {
  }

  /** The states after each frame of an input sequence. */
  function Run(s: GameState, presses: seq<bool>): (r: GameState)
    ensures (r == GameOver) == (s == GameOver)
    decreases |presses|
  {
    if |presses| == 0 then s else Run(OnInput(s, presses[0]), presses[1..])
  }

  function CountPresses(presses: seq<bool>): nat {
    if |presses| == 0 then 0 else (if presses[0] then 1 else 0) + CountPresses(presses[1..])
  }

  /** Starting from playing or paused, the state after a run depends only on the
      parity of the number of Escape presses. */
  lemma {:induction false} RunParity(s: GameState, presses: seq<bool>)
    requires s != GameOver
    ensures Run(s, presses) == (if CountPresses(presses) % 2 == 0 then s else Toggle(s))
    decreases |presses|
  {
    if |presses| > 0 {
      RunParity(OnInput(s, presses[0]), presses[1..]);
    }
  }

  /** From the initial state, no sequence of Escape presses ever reaches `GameOver`. */
  lemma NeverGameOverFromStart(presses: seq<bool>)
    ensures Run(Initial, presses) != GameOver
  {
  }
}
