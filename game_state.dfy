/** The state shared with the window backend: input, logger and the
    running flag. */
module GameStates {
  import Inputs
  import Logging

  class GameState {
    const input: Inputs.Input
    const logger: Logging.Logger
    var isRunning: bool

    /** A new game is not running yet. */
    constructor ()
      ensures fresh(input) && fresh(logger) && !isRunning
    {
      input := new Inputs.Input();
      logger := new Logging.Logger();
      isRunning := false;
    }

    function IsRunning(): (r: bool)
      reads this
      ensures r <==> isRunning
    {
      isRunning
    }

    /** Clears the running flag; input and logger are constant fields. */
    method CloseGame()
      modifies this
      ensures !isRunning
    {
      isRunning := false;
    }

    method Start()
      modifies this
      ensures isRunning
    {
      isRunning := true;
    }
  }

  /** Closing twice is closing once. */
  method CloseTwice(state: GameState)
    modifies state
    ensures !state.IsRunning()
  {
    state.CloseGame();
    state.CloseGame();
  }
}
