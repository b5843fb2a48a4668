/**
 * Colour and transparency of the ribbons (web-screen-saver.js, lines 87-89,
 * 107, 150-151). Hues are angles in degrees.
 */
module Color {
  import opened Config

  /** The full circle of hues, in degrees. */
  const FULL_TURN: real := 360.0

  /** JavaScript's conversion of a quotient to an integer: towards zero. */
  function Trunc(q: real): int
  {
    if q >= 0.0 then q.Floor else -((-q).Floor)
  }

  /**
   * JavaScript's `a % 360`: the remainder of truncating division, so it
   * takes the sign of the dividend.
   */
  function Rem360(a: real): (r: real)
    ensures 0.0 <= a ==> 0.0 <= r < FULL_TURN
    ensures a < 0.0 ==> -FULL_TURN < r <= 0.0
    ensures -FULL_TURN < a < FULL_TURN ==> r == a
  {
    a - FULL_TURN * (Trunc(a / FULL_TURN) as real)
  }

  /** Adding a full turn to a non-negative dividend leaves the remainder alone. */
  lemma Rem360Periodic(a: real)
    requires 0.0 <= a
    ensures Rem360(a + FULL_TURN) == Rem360(a)
  {
    assert (a + FULL_TURN) / FULL_TURN == a / FULL_TURN + 1.0;
    assert ((a + FULL_TURN) / FULL_TURN).Floor == (a / FULL_TURN).Floor + 1;
  }

  /** Line 87: the hue distance between consecutive ribbons. */
  const HUE_STEP: real := FULL_TURN / (GROUP_COUNT as real)

  /**
   * Line 107: the base hue of group g, turned by the random `startOffset`
   * of line 89.
   */
  function BaseHue(startOffset: real, g: nat): (r: real)
    requires 0.0 <= startOffset
    ensures 0.0 <= r < FULL_TURN
  {
    Rem360(startOffset + (g as real) * HUE_STEP)
  }

  /**
   * The base hues go round the hue circle in steps of exactly 360 / 3 = 120
   * degrees: one more step from each group's hue gives the next group's,
   * and one more from the last gives the first's.
   */
  lemma HueSpacing(startOffset: real, g: nat)
    requires 0.0 <= startOffset < FULL_TURN && g < GROUP_COUNT
    ensures Rem360(BaseHue(startOffset, g) + HUE_STEP) == BaseHue(startOffset, (g + 1) % GROUP_COUNT)
  {
    assert HUE_STEP == 120.0;
    var a := startOffset + (g as real) * HUE_STEP;
    var h := BaseHue(startOffset, g);
    if a >= FULL_TURN {
      Rem360Periodic(a - FULL_TURN);
    }
    if h + HUE_STEP >= FULL_TURN {
      Rem360Periodic(h + HUE_STEP - FULL_TURN);
    }
    var b := startOffset + (((g + 1) % GROUP_COUNT) as real) * HUE_STEP;
    if b >= FULL_TURN {
      Rem360Periodic(b - FULL_TURN);
    }
  }

  /**
   * Line 150: the opacity of the stroke at trail depth i fades linearly
   * from one half (newest) towards zero (oldest).
   */
  function Opacity(i: nat): (r: real)
    ensures i < RIBBON_WIDTH ==> 0.0 < r <= 0.5
    ensures r == 0.5 <==> i == 0
  {
    (1.0 - (i as real) / (RIBBON_WIDTH as real)) * 0.5
  }

  /** An older stroke is strictly more transparent. */
  lemma OpacityFades(i: nat, j: nat)
    requires i < j
    ensures Opacity(j) < Opacity(i)
  {
  }

  /**
   * Line 151: the hue of the stroke at depth i at time `now` (milliseconds
   * since the epoch); it drifts one degree every 60 ms and shifts two
   * degrees per trail step.
   */
  function StrokeHue(baseHue: real, now: nat, i: nat): (r: real)
    ensures 0.0 <= baseHue && 2.0 * (i as real) <= (now as real) / 60.0 ==> 0.0 <= r < FULL_TURN
    ensures -FULL_TURN < r < FULL_TURN
  {
    Rem360(baseHue + (now as real) / 60.0 - 2.0 * (i as real))
  }
}
