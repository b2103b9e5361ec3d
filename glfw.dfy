/** The parts of GLFW that the application layer observes, kept abstract: the constants
    it compares event fields against, and the per-window state that GLFW owns. */
module Glfw {
  /** `vect2_t`: a pair of doubles, kept as reals.  The layer multiplies the configured
      size by the scale and truncates the products to integers; rounding of doubles is
      not modelled. */
  datatype Vec2 = Vec2(x: real, y: real)

  // Button and key actions.
  const Release: int := 0
  const Press: int := 1

  // The key codes the application layer tests for.
  const KeyUnknown: int := -1
  const KeyEnter: int := 257
  const KeyBackspace: int := 259

  // Bits of the `mods` argument of key and button events.
  const ModShift: bv32 := 0x1
  const ModControl: bv32 := 0x2
  const ModSuper: bv32 := 0x8

  /** A GLFW window: the close flag GLFW raises when the user asks the window to close,
      its size in screen coordinates (taken to stay as GLFW reported it at creation), and
      the cursor position GLFW last reported for it. */
  class NativeWindow {
    var shouldClose: bool
    const size: Vec2
    var cursor: Vec2

    constructor (size: Vec2, cursor: Vec2)
      ensures !shouldClose && this.size == size && this.cursor == cursor
    {
      shouldClose := false;
      this.size := size;
      this.cursor := cursor;
    }
  }
}
