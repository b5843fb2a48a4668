/** The fixed parameters of the screen saver (web-screen-saver.js, lines 3, 9-17). */
module Config {
  /** Idle time before the effect starts, in milliseconds (five minutes). */
  const IDLE_TIME_LIMIT: nat := 5 * 60 * 1000

  /** Number of ribbons drawn at once. */
  const GROUP_COUNT: nat := 3

  /** Number of points that span one ribbon. */
  const NUM_POINTS: nat := 4

  /** Capacity of every point's trail of past positions. */
  const RIBBON_WIDTH: nat := 30

  const MIN_SPEED: real := 2.0
  const MAX_SPEED: real := 5.0

  /** How far the heading may wander in one frame. */
  const NOISE_SCALE: real := 0.15

  /** Per-frame acceleration along the heading. */
  const ACCELERATION: real := 0.2

  /** `Math.PI`, as far as its decimal literal goes. */
  const PI: real := 3.141592653589793

  function Min(a: nat, b: nat): nat
  {
    if a <= b then a else b
  }
}
