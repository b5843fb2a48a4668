/**
 * The motion of one point during one frame (web-screen-saver.js, lines
 * 119-140), as pure functions on a snapshot of the point. The values the
 * script takes from `Math.random`, `Math.cos`, `Math.sin` and `Math.sqrt`
 * are inputs.
 */
module Kinematics {
  import opened Config

  /** Position, velocity and wandering heading of a point. */
  datatype Motion = Motion(x: real, y: real, vx: real, vy: real, noiseAngle: real)

  /**
   * What one point's update draws from the environment: `rnd` is the
   * `Math.random()` that perturbs the heading, `cosN` and `sinN` are the
   * cosine and sine of the perturbed heading, `speed` is what `Math.sqrt`
   * returns for the squared speed after the acceleration.
   */
  datatype Draw = Draw(rnd: real, cosN: real, sinN: real, speed: real)

  function Mul(a: real, b: real): real
  {
    a * b
  }

  function Sq(a: real): real
  {
    Mul(a, a)
  }

  function SpeedSq(m: Motion): real
  {
    Sq(m.vx) + Sq(m.vy)
  }

  /**
   * Line 119: the heading takes a random step of at least -NOISE_SCALE / 2
   * and less than NOISE_SCALE / 2; nothing else changes.
   */
  function Turn(m: Motion, rnd: real): (r: Motion)
    ensures r.(noiseAngle := m.noiseAngle) == m
    ensures 0.0 <= rnd < 1.0 ==> -NOISE_SCALE / 2.0 <= r.noiseAngle - m.noiseAngle < NOISE_SCALE / 2.0
  {
    m.(noiseAngle := m.noiseAngle + (rnd - 0.5) * NOISE_SCALE)
  }

  /**
   * Lines 120-121: the velocity is pushed along the heading. When cosN and
   * sinN are the cosine and sine of one angle, the push has length
   * ACCELERATION; the position and the heading are kept.
   */
  function Accelerate(m: Motion, cosN: real, sinN: real): (r: Motion)
    ensures r.x == m.x && r.y == m.y && r.noiseAngle == m.noiseAngle
    ensures Sq(cosN) + Sq(sinN) == 1.0 ==> Sq(r.vx - m.vx) + Sq(r.vy - m.vy) == Sq(ACCELERATION)
  {
    var r := m.(vx := m.vx + cosN * ACCELERATION, vy := m.vy + sinN * ACCELERATION);
    assert r.vx - m.vx == cosN * ACCELERATION && r.vy - m.vy == sinN * ACCELERATION;
    UnitScaled(cosN, sinN, ACCELERATION);
    r
  }

  /** A unit vector scaled by k has length k. */
  lemma UnitScaled(c: real, s: real, k: real)
    ensures Sq(c) + Sq(s) == 1.0 ==> Sq(c * k) + Sq(s * k) == Sq(k)
  {
    assert Sq(c * k) == Sq(c) * Sq(k);
    assert Sq(s * k) == Sq(s) * Sq(k);
    assert (Sq(c) + Sq(s)) * Sq(k) == Sq(c) * Sq(k) + Sq(s) * Sq(k);
  }

  /** `speed` is the positive square root of m's squared speed. */
  predicate IsSpeedOf(speed: real, m: Motion)
  {
    speed > 0.0 && Sq(speed) == SpeedSq(m)
  }

  /**
   * The push of lines 120-121 can stop a point only if it was moving at
   * exactly the push's length.
   */
  lemma StoppedByPush(m: Motion, rnd: real, cosN: real, sinN: real)
    requires Sq(cosN) + Sq(sinN) == 1.0
    ensures var a := Accelerate(Turn(m, rnd), cosN, sinN);
            a.vx == 0.0 && a.vy == 0.0 ==> SpeedSq(m) == Sq(ACCELERATION)
  {
    var a := Accelerate(Turn(m, rnd), cosN, sinN);
    UnitScaled(cosN, sinN, ACCELERATION);
    assert Sq(a.vx - m.vx) == Sq(m.vx - a.vx) && Sq(a.vy - m.vy) == Sq(m.vy - a.vy);
  }

  /**
   * A point moving at MIN_SPEED or faster still moves after the push, so the
   * `Math.sqrt` of line 124 is taken of a positive number and the divisions
   * of lines 126-130 are by a positive speed.
   */
  lemma AcceleratedMoves(m: Motion, rnd: real, cosN: real, sinN: real)
    requires Sq(MIN_SPEED) <= SpeedSq(m)
    requires Sq(cosN) + Sq(sinN) == 1.0
    ensures SpeedSq(Accelerate(Turn(m, rnd), cosN, sinN)) > 0.0
  {
    var a := Accelerate(Turn(m, rnd), cosN, sinN);
    StoppedByPush(m, rnd, cosN, sinN);
    if a.vx != 0.0 {
      SqOfNonZero(a.vx);
      SqNonNegative(a.vy);
    } else {
      SqOfNonZero(a.vy);
      SqNonNegative(a.vx);
    }
  }

  /** Lines 124-131: rescale the velocity into [MIN_SPEED, MAX_SPEED]. */
  function LimitSpeed(m: Motion, speed: real): (r: Motion)
    requires speed > 0.0
    ensures r.x == m.x && r.y == m.y && r.noiseAngle == m.noiseAngle
    ensures MIN_SPEED <= speed <= MAX_SPEED ==> r == m
    ensures r.vx * m.vy == r.vy * m.vx && r.vx * m.vx + r.vy * m.vy >= 0.0
  {
    if speed < MIN_SPEED then
      SameDirection(m.vx, m.vy, MIN_SPEED / speed);
      m.(vx := (m.vx / speed) * MIN_SPEED, vy := (m.vy / speed) * MIN_SPEED)
    else if speed > MAX_SPEED then
      SameDirection(m.vx, m.vy, MAX_SPEED / speed);
      m.(vx := (m.vx / speed) * MAX_SPEED, vy := (m.vy / speed) * MAX_SPEED)
    else
      SameDirection(m.vx, m.vy, 1.0);
      m
  }

  /** Scaling a velocity by a positive factor keeps its direction. */
  lemma SameDirection(vx: real, vy: real, k: real)
    requires k > 0.0
    ensures (vx * k) * vy == (vy * k) * vx
    ensures (vx * k) * vx + (vy * k) * vy >= 0.0
  {
    assert (vx * k) * vx == k * (vx * vx) && (vy * k) * vy == k * (vy * vy);
    SqNonNegative(vx);
    SqNonNegative(vy);
    MulNonNegative(k, vx * vx + vy * vy);
  }

  lemma MulNonNegative(a: real, b: real)
    requires a >= 0.0 && b >= 0.0
    ensures a * b >= 0.0
  {
  }

  lemma MulPositive(a: real, b: real)
    requires a > 0.0 && b > 0.0
    ensures Mul(a, b) > 0.0
  {
  }

  lemma SqOfPositive(a: real)
    requires a > 0.0
    ensures Sq(a) > 0.0
  {
    MulPositive(a, a);
  }

  lemma SqNonNegative(a: real)
    ensures Sq(a) >= 0.0
  {
    if a < 0.0 {
      SqOfPositive(-a);
      assert Sq(-a) == Sq(a);
    } else if a > 0.0 {
      SqOfPositive(a);
    }
  }

  lemma SqOfNonZero(a: real)
    requires a != 0.0
    ensures Sq(a) > 0.0
  {
    if a < 0.0 {
      SqOfPositive(-a);
      assert Sq(-a) == Sq(a);
    } else {
      SqOfPositive(a);
    }
  }

  /** Squaring is monotonic on positive reals. */
  lemma SqBetween(s: real, lo: real, hi: real)
    requires 0.0 < lo <= s <= hi
    ensures Sq(lo) <= Sq(s) <= Sq(hi)
  {
    assert lo * lo <= lo * s <= s * s;
    assert s * s <= s * hi <= hi * hi;
  }

  lemma ScaleSq(v: real, s: real, k: real)
    requires s != 0.0
    ensures Sq((v / s) * k) * Sq(s) == Sq(v) * Sq(k)
  {
    var a := v / s;
    assert v == a * s;
    assert Sq(v) == Sq(a) * Sq(s);
    assert Sq(a * k) == Sq(a) * Sq(k);
  }

  lemma CancelSum(p: real, q: real, x: real, y: real, k: real, s: real)
    requires s > 0.0 && x + y == s && p * s == x * k && q * s == y * k
    ensures p + q == k
  {
    assert (p + q) * s == (x + y) * k;
    assert (p + q - k) * s == 0.0;
  }

  /** Scaling a velocity of length s by k / s gives a velocity of length k. */
  lemma Rescale(vx: real, vy: real, s: real, k: real)
    requires s > 0.0 && Sq(s) == Sq(vx) + Sq(vy)
    ensures Sq((vx / s) * k) + Sq((vy / s) * k) == Sq(k)
  {
    ScaleSq(vx, s, k);
    ScaleSq(vy, s, k);
    SqOfPositive(s);
    CancelSum(Sq((vx / s) * k), Sq((vy / s) * k), Sq(vx), Sq(vy), Sq(k), Sq(s));
  }

  /**
   * After the clamp the speed lies in [MIN_SPEED, MAX_SPEED]: a speed below
   * the range becomes exactly MIN_SPEED, one above it exactly MAX_SPEED, and
   * one inside it is kept.
   */
  lemma LimitSpeedBounds(m: Motion, speed: real)
    requires IsSpeedOf(speed, m)
    ensures Sq(MIN_SPEED) <= SpeedSq(LimitSpeed(m, speed)) <= Sq(MAX_SPEED)
    ensures speed < MIN_SPEED ==> SpeedSq(LimitSpeed(m, speed)) == Sq(MIN_SPEED)
    ensures speed > MAX_SPEED ==> SpeedSq(LimitSpeed(m, speed)) == Sq(MAX_SPEED)
    ensures MIN_SPEED <= speed <= MAX_SPEED ==> SpeedSq(LimitSpeed(m, speed)) == SpeedSq(m)
  {
    if speed < MIN_SPEED {
      Rescale(m.vx, m.vy, speed, MIN_SPEED);
    } else if speed > MAX_SPEED {
      Rescale(m.vx, m.vy, speed, MAX_SPEED);
    } else {
      SqBetween(speed, MIN_SPEED, MAX_SPEED);
    }
  }

  /**
   * Lines 133-134: the position moves by the velocity, so it travels exactly
   * the point's speed; the velocity and the heading are kept.
   */
  function Integrate(m: Motion): (r: Motion)
    ensures r.vx == m.vx && r.vy == m.vy && r.noiseAngle == m.noiseAngle
    ensures Sq(r.x - m.x) + Sq(r.y - m.y) == SpeedSq(m)
  {
    var r := m.(x := m.x + m.vx, y := m.y + m.vy);
    assert r.x - m.x == m.vx && r.y - m.y == m.vy;
    r
  }

  predicate Within(c: real, bound: nat)
  {
    0.0 <= c <= bound as real
  }

  /**
   * Lines 137-138: at a left or right edge the point is put back on the
   * edge, its horizontal velocity is reversed and its heading is mirrored
   * about the vertical (heading becomes PI - heading).
   */
  function BounceX(m: Motion, width: nat): (r: Motion)
    ensures Within(r.x, width)
    ensures r.y == m.y && r.vy == m.vy
    ensures Within(m.x, width) ==> r == m
    ensures m.x < 0.0 ==> r.x == 0.0
    ensures m.x > width as real ==> r.x == width as real
    ensures !Within(m.x, width) ==> r.vx == -m.vx && r.noiseAngle == PI - m.noiseAngle
  {
    var m1 := if m.x < 0.0 then m.(x := 0.0, vx := -m.vx, noiseAngle := PI - m.noiseAngle) else m;
    if m1.x > width as real then m1.(x := width as real, vx := -m1.vx, noiseAngle := PI - m1.noiseAngle) else m1
  }

  /**
   * Lines 139-140: at the top or bottom edge the point is put back on the
   * edge, its vertical velocity is reversed and its heading is mirrored
   * about the horizontal (heading becomes -heading).
   */
  function BounceY(m: Motion, height: nat): (r: Motion)
    ensures Within(r.y, height)
    ensures r.x == m.x && r.vx == m.vx
    ensures Within(m.y, height) ==> r == m
    ensures m.y < 0.0 ==> r.y == 0.0
    ensures m.y > height as real ==> r.y == height as real
    ensures !Within(m.y, height) ==> r.vy == -m.vy && r.noiseAngle == -m.noiseAngle
  {
    var m1 := if m.y < 0.0 then m.(y := 0.0, vy := -m.vy, noiseAngle := -m.noiseAngle) else m;
    if m1.y > height as real then m1.(y := height as real, vy := -m1.vy, noiseAngle := -m1.noiseAngle) else m1
  }

  /** Lines 137-140, the x edges first, then the y edges. */
  function Bounce(m: Motion, width: nat, height: nat): (r: Motion)
    ensures Within(r.x, width) && Within(r.y, height)
    ensures r.vx == if Within(m.x, width) then m.vx else -m.vx
    ensures r.vy == if Within(m.y, height) then m.vy else -m.vy
    ensures SpeedSq(r) == SpeedSq(m)
  {
    BounceY(BounceX(m, width), height)
  }

  /** The heading after the edges: mirrored once per axis that was crossed. */
  lemma BounceHeading(m: Motion, width: nat, height: nat)
    ensures var a := if Within(m.x, width) then m.noiseAngle else PI - m.noiseAngle;
            Bounce(m, width, height).noiseAngle == if Within(m.y, height) then a else -a
  {
  }

  /** Handling the edges a second time changes nothing. */
  lemma BounceIdempotent(m: Motion, width: nat, height: nat)
    ensures Bounce(Bounce(m, width, height), width, height) == Bounce(m, width, height)
  {
  }

  /** The squared speed the `Math.sqrt` of line 124 is taken of. */
  predicate Fits(m: Motion, d: Draw)
  {
    IsSpeedOf(d.speed, Accelerate(Turn(m, d.rnd), d.cosN, d.sinN))
  }

  /**
   * Lines 119-140: one frame of a point's motion. The point ends inside the
   * canvas; it keeps the clamped velocity unless it met an edge.
   */
  function Advance(m: Motion, d: Draw, width: nat, height: nat): (r: Motion)
    requires d.speed > 0.0
    ensures Within(r.x, width) && Within(r.y, height)
    ensures var l := LimitSpeed(Accelerate(Turn(m, d.rnd), d.cosN, d.sinN), d.speed);
            SpeedSq(r) == SpeedSq(l)
  {
    Bounce(Integrate(LimitSpeed(Accelerate(Turn(m, d.rnd), d.cosN, d.sinN), d.speed)), width, height)
  }

  /**
   * After a frame the point lies inside the canvas and its speed lies in
   * [MIN_SPEED, MAX_SPEED].
   */
  lemma AdvanceBounds(m: Motion, d: Draw, width: nat, height: nat)
    requires Fits(m, d)
    ensures var r := Advance(m, d, width, height);
      && Within(r.x, width) && Within(r.y, height)
      && Sq(MIN_SPEED) <= SpeedSq(r) <= Sq(MAX_SPEED)
  {
    var a := Accelerate(Turn(m, d.rnd), d.cosN, d.sinN);
    LimitSpeedBounds(a, d.speed);
  }

  /** A point whose step stays inside the canvas keeps its velocity after the clamp. */
  lemma AdvanceInsideKeepsVelocity(m: Motion, d: Draw, width: nat, height: nat)
    requires d.speed > 0.0
    ensures var l := LimitSpeed(Accelerate(Turn(m, d.rnd), d.cosN, d.sinN), d.speed);
            var r := Advance(m, d, width, height);
            Within(l.x + l.vx, width) && Within(l.y + l.vy, height) ==>
              r == Integrate(l)
  {
  }
}
