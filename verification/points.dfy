/**
 * The points that span the ribbons (web-screen-saver.js, lines 95-102,
 * 117-144): objects whose position, velocity, heading and trail every frame
 * updates in place.
 */
module Points {
  import opened Config
  import opened Trail
  import opened Kinematics

  class Point {
    var x: real
    var y: real
    var vx: real
    var vy: real
    var noiseAngle: real
    /** Past positions, newest first. */
    var history: seq<Pos>

    /** Lines 95-102: a point in the given motion state, with an empty trail. */
    constructor (m: Motion)
      ensures State() == m && history == []
    {
      x, y, vx, vy, noiseAngle := m.x, m.y, m.vx, m.vy, m.noiseAngle;
      history := [];
    }

    /** The point's position, velocity and heading as a value. */
    function State(): Motion
      reads this
    {
      Motion(x, y, vx, vy, noiseAngle)
    }

    /**
     * Lines 119-143: one frame of this point on a canvas of the given size,
     * with `d` holding the values drawn from `Math`. Afterwards the point is
     * inside the canvas, its speed is within bounds, and its trail has its
     * new position in front.
     */
    method Step(d: Draw, width: nat, height: nat)
      requires Fits(State(), d)
      modifies this
      ensures State() == Advance(old(State()), d, width, height)
      ensures history == Push(old(history), Pos(x, y))
      ensures Within(x, width) && Within(y, height)
      ensures Sq(MIN_SPEED) <= SpeedSq(State()) <= Sq(MAX_SPEED)
    {
      AdvanceBounds(State(), d, width, height);
      Steer(d);
      Move(width, height);
      Remember();
    }

    /** Lines 119-131: turn the heading, accelerate along it, clamp the speed. */
    method Steer(d: Draw)
      requires d.speed > 0.0
      modifies this`noiseAngle, this`vx, this`vy
      ensures State() == LimitSpeed(Accelerate(Turn(old(State()), d.rnd), d.cosN, d.sinN), d.speed)
    {
      noiseAngle := noiseAngle + (d.rnd - 0.5) * NOISE_SCALE;
      vx := vx + d.cosN * ACCELERATION;
      vy := vy + d.sinN * ACCELERATION;

      var speed := d.speed;
      if speed < MIN_SPEED {
        vx := (vx / speed) * MIN_SPEED;
        vy := (vy / speed) * MIN_SPEED;
      } else if speed > MAX_SPEED {
        vx := (vx / speed) * MAX_SPEED;
        vy := (vy / speed) * MAX_SPEED;
      }
    }

    /** Lines 133-140: move by the velocity, then bounce off the edges. */
    method Move(width: nat, height: nat)
      modifies this`x, this`y, this`vx, this`vy, this`noiseAngle
      ensures State() == Bounce(Integrate(old(State())), width, height)
    {
      x := x + vx;
      y := y + vy;
      ghost var moved := State();

      if x < 0.0 { x := 0.0; vx := -vx; noiseAngle := PI - noiseAngle; }
      if x > width as real { x := width as real; vx := -vx; noiseAngle := PI - noiseAngle; }
      ghost var bouncedX := State();
      assert bouncedX == BounceX(moved, width);

      if y < 0.0 { y := 0.0; vy := -vy; noiseAngle := -noiseAngle; }
      if y > height as real { y := height as real; vy := -vy; noiseAngle := -noiseAngle; }
    }

    /** Lines 142-143: record the position at the front of the trail. */
    method Remember()
      modifies this`history
      ensures history == Push(old(history), Pos(x, y))
    {
      history := [Pos(x, y)] + history;
      if |history| > RIBBON_WIDTH {
        history := history[..|history| - 1];
      }
    }
  }

  /** No point occurs twice in ps. */
  predicate Distinct(ps: seq<Point>)
  {
    forall j, k :: 0 <= j < k < |ps| ==> ps[j] != ps[k]
  }

  /** What a point holds at one moment: its motion state and its trail. */
  datatype PointState = PointState(motion: Motion, trail: seq<Pos>)

  /**
   * One frame for a point held as a value: the motion advances, the new
   * position lies inside the canvas and heads the trail, and the older
   * entries follow, capped at RIBBON_WIDTH.
   */
  function StepState(s: PointState, d: Draw, width: nat, height: nat): (r: PointState)
    requires d.speed > 0.0
    ensures Within(r.motion.x, width) && Within(r.motion.y, height)
    ensures |r.trail| > 0 && r.trail[0] == Pos(r.motion.x, r.motion.y)
    ensures forall i :: 1 <= i < |r.trail| ==> i - 1 < |s.trail| && r.trail[i] == s.trail[i - 1]
    ensures |s.trail| <= RIBBON_WIDTH ==> |r.trail| == Min(|s.trail| + 1, RIBBON_WIDTH)
  {
    var m := Advance(s.motion, d, width, height);
    PointState(m, Push(s.trail, Pos(m.x, m.y)))
  }

  /** Every draw carries a positive speed. */
  predicate Positive(ds: seq<Draw>)
  {
    forall j :: 0 <= j < |ds| ==> ds[j].speed > 0.0
  }

  /**
   * One frame for a sequence of points, point j with draw ds[j]: every
   * point ends inside the canvas with its new position at the head of its
   * trail.
   */
  function StepStates(ss: seq<PointState>, ds: seq<Draw>, width: nat, height: nat): (r: seq<PointState>)
    requires |ds| == |ss| && Positive(ds)
    ensures |r| == |ss|
    ensures forall j :: 0 <= j < |r| ==>
              Within(r[j].motion.x, width) && Within(r[j].motion.y, height) &&
              |r[j].trail| > 0 && r[j].trail[0] == Pos(r[j].motion.x, r[j].motion.y)
  {
    seq(|ss|, j requires 0 <= j < |ss| => StepState(ss[j], ds[j], width, height))
  }

  /** The current states of the given points, in order. */
  ghost function Snap(ps: seq<Point>): (ss: seq<PointState>)
    reads ps
    ensures |ss| == |ps|
    ensures forall j :: 0 <= j < |ps| ==> ss[j] == PointState(ps[j].State(), ps[j].history)
  {
    seq(|ps|, j requires 0 <= j < |ps| reads ps => PointState(ps[j].State(), ps[j].history))
  }

  /** The trails held in a sequence of point states. */
  function Trails(ss: seq<PointState>): (hs: seq<seq<Pos>>)
    ensures |hs| == |ss| && forall j :: 0 <= j < |ss| ==> hs[j] == ss[j].trail
  {
    seq(|ss|, j requires 0 <= j < |ss| => ss[j].trail)
  }

  /** Every trail in ss holds exactly n positions. */
  predicate TrailsOf(ss: seq<PointState>, n: nat)
  {
    forall j :: 0 <= j < |ss| ==> |ss[j].trail| == n
  }

  /** One draw per point, each positive and matching that point's speed. */
  predicate FitsAll(ss: seq<PointState>, ds: seq<Draw>)
  {
    |ds| == |ss| && Positive(ds) && forall j :: 0 <= j < |ss| ==> Fits(ss[j].motion, ds[j])
  }

  /**
   * Trails that all hold min(n, RIBBON_WIDTH) positions all hold
   * min(n + 1, RIBBON_WIDTH) after one frame.
   */
  lemma StepStatesTrails(ss: seq<PointState>, ds: seq<Draw>, width: nat, height: nat, n: nat)
    requires |ds| == |ss| && Positive(ds) && TrailsOf(ss, Min(n, RIBBON_WIDTH))
    ensures TrailsOf(StepStates(ss, ds, width, height), Min(n + 1, RIBBON_WIDTH))
  {
    var r := StepStates(ss, ds, width, height);
    forall j | 0 <= j < |ss|
      ensures |r[j].trail| == Min(n + 1, RIBBON_WIDTH)
    {
      assert r[j] == StepState(ss[j], ds[j], width, height);
    }
  }

  /**
   * Lines 117-144: `group.points.forEach`, one step for each point of a
   * group, point j with draw ds[j].
   */
  method StepEach(ps: seq<Point>, ds: seq<Draw>, width: nat, height: nat)
    requires Distinct(ps) && FitsAll(Snap(ps), ds)
    modifies ps
    ensures Snap(ps) == StepStates(old(Snap(ps)), ds, width, height)
  {
    var i := 0;
    while i < |ps|
      invariant 0 <= i <= |ps|
      invariant forall j :: 0 <= j < i ==>
                  PointState(ps[j].State(), ps[j].history) == StepState(old(PointState(ps[j].State(), ps[j].history)), ds[j], width, height)
      invariant forall j :: i <= j < |ps| ==> unchanged(ps[j])
    {
      assert Snap(ps)[i] == old(Snap(ps))[i];
      ps[i].Step(ds[i], width, height);
      i := i + 1;
    }
  }

  /** Lines 105-108: a ribbon: its points and its base hue. */
  datatype Group = Group(points: seq<Point>, baseHue: real)
}
