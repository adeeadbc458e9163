/** The configuration constants of the simulator. */
module Settings {

  // Window (viewport) size in pixels.
  const WINDOW_WIDTH: int := 1000
  const WINDOW_HEIGHT: int := 1000

  // Board size in world units.
  const BOARD_WIDTH: int := 10000
  const BOARD_HEIGHT: int := 10000

  // Physics. The time-scale bounds are declared but no operation enforces them.
  const GRAVITY_CONSTANT: real := 0.1
  const DEFAULT_TIME_SCALE: real := 1.0
  const MAX_TIME_SCALE: real := 10.0
  const MIN_TIME_SCALE: real := 0.1

  // Entities created with the mouse.
  const DEFAULT_MASS: real := 10.0
  const DEFAULT_DENSITY: real := 0.1
  const VELOCITY_MULTIPLIER: real := 0.01
}
