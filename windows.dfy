/** Window events and the window that queues them for its listeners. */
module Windows {
  import opened Events

  /** The window events of the engine; the sizes are `u32` and the moves
      `i32` coordinates, the scale factor a float that is only carried. */
  datatype WindowEvent =
    | Resized(width: nat, height: nat)
    | Moved(x: int, y: int)
    | CloseRequested
    | Destroyed
    | DroppedFile(path: string)
    | HoveredFile(path: string)
    | HoveredFileCancelled
    | Focused(focused: bool)
    | Refresh
    | HiDpiFactorChanged(factor: real)

  /** A window; `pending` holds the window events its backend has queued
      since they were last handed to listeners. */
  class Window {
    var pending: seq<Event<WindowEvent>>

    constructor ()
      ensures pending == []
    {
      pending := [];
    }
  }
}
