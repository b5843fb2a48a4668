/**
 * The screen saver as a whole (web-screen-saver.js, lines 1-171): the idle
 * monitor that switches the effect on after IDLE_TIME_LIMIT ms without input
 * and off at the next input, the ribbon groups it creates, and the frame
 * callback that moves and draws them.
 *
 * The DOM objects become flags: whether the cursor-hiding style element and
 * the canvas exist and whether they are attached to the document. The
 * pending idle timers become a count and the frame request a flag.
 */
module Saver {
  import opened Config
  import opened Trail
  import opened Kinematics
  import opened Color
  import opened Render
  import opened Points

  /**
   * The `Math.random()`, `Math.cos` and `Math.sin` values `initLineGroups`
   * uses for one point (lines 94-100): `rx` and `ry` place it, `cosA` and
   * `sinA` are the cosine and sine of its random heading, `rNoise` gives its
   * initial wandering angle.
   */
  datatype Seed = Seed(rx: real, ry: real, cosA: real, sinA: real, rNoise: real)

  /**
   * Lines 95-101: the motion state a new point starts in. When cosA and
   * sinA are the cosine and sine of one angle, it starts at MIN_SPEED.
   */
  function Spawn(s: Seed, width: nat, height: nat): (r: Motion)
    ensures Sq(s.cosA) + Sq(s.sinA) == 1.0 ==> SpeedSq(r) == Sq(MIN_SPEED)
  {
    UnitScaled(s.cosA, s.sinA, MIN_SPEED);
    Motion(s.rx * (width as real), s.ry * (height as real),
           s.cosA * MIN_SPEED, s.sinA * MIN_SPEED, s.rNoise * PI * 2.0)
  }

  /**
   * With `Math.random()` values in [0, 1) a new point lies inside the
   * viewport and its wandering angle in [0, 2 PI).
   */
  lemma SpawnInViewport(s: Seed, width: nat, height: nat)
    requires 0.0 <= s.rx < 1.0 && 0.0 <= s.ry < 1.0 && 0.0 <= s.rNoise < 1.0
    ensures var m := Spawn(s, width, height);
      Within(m.x, width) && Within(m.y, height) && 0.0 <= m.noiseAngle < 2.0 * PI
  {
    ScaleBelow(s.rx, width);
    ScaleBelow(s.ry, height);
  }

  /** A `Math.random()` value times a canvas dimension stays within it. */
  lemma ScaleBelow(r: real, n: nat)
    requires 0.0 <= r < 1.0
    ensures Within(r * (n as real), n)
  {
  }

  /** The seeds for GROUP_COUNT groups of NUM_POINTS points. */
  predicate SeedShape(seeds: seq<seq<Seed>>)
  {
    |seeds| == GROUP_COUNT && forall g :: 0 <= g < GROUP_COUNT ==> |seeds[g]| == NUM_POINTS
  }

  class ScreenSaver {
    /** `isScreensaverActive`. */
    var active: bool
    /**
     * How many idle timers are scheduled and have neither fired nor been
     * cleared. Only the handle of the latest one is kept in `idleTimer`,
     * so `clearTimeout` can cancel that one only.
     */
    var pendingTimers: nat
    /** The delay, in milliseconds, the latest timer was scheduled with. */
    var timerDelay: nat
    /** A frame was requested with `requestAnimationFrame` and not cancelled. */
    var frameRequested: bool
    /** `styleElement` exists, and it is attached to the document head. */
    var styleCreated: bool
    var styleAttached: bool
    /** `canvas` exists, and it is attached to the document body. */
    var canvasCreated: bool
    var canvasAttached: bool
    /** `canvas.width` and `canvas.height`. */
    var width: nat
    var height: nat
    /** `lineGroups`. */
    var groups: seq<Group>

    /** Frames run since the groups were last created. */
    ghost var frames: nat
    /** Where each point sits: group index and index within the group. */
    ghost var slot: map<Point, (nat, nat)>

    ghost function Points(): set<Point>
      reads this`groups
    {
      set g, j | 0 <= g < |groups| && 0 <= j < |groups[g].points| :: groups[g].points[j]
    }

    /**
     * The idle monitor's invariant: the effect is active exactly when the
     * style and the canvas are attached and a frame is requested, at most
     * one idle timer is pending, and none while the effect is active.
     */
    ghost predicate MonitorInv()
      reads this
    {
      && styleAttached == active && canvasAttached == active && frameRequested == active
      && (styleAttached ==> styleCreated) && (canvasAttached ==> canvasCreated)
      && pendingTimers <= 1 && (active ==> pendingTimers == 0)
      && (active ==> |groups| == GROUP_COUNT)
    }

    /**
     * The groups' shape: none or GROUP_COUNT groups of NUM_POINTS points,
     * each point recorded in slot under its own place, so no point is
     * shared between two places.
     */
    ghost predicate Shape()
      reads this`groups, this`slot
    {
      && (|groups| == 0 || |groups| == GROUP_COUNT)
      && (forall g :: 0 <= g < |groups| ==> |groups[g].points| == NUM_POINTS)
      && (forall g, j :: 0 <= g < |groups| && 0 <= j < |groups[g].points| ==>
            groups[g].points[j] in slot && slot[groups[g].points[j]] == (g, j))
    }

    /** The states of every group's points, group by group. */
    ghost function Snaps(): (sss: seq<seq<PointState>>)
      reads this`groups, Points()
      ensures |sss| == |groups|
      ensures forall g :: 0 <= g < |groups| ==> sss[g] == Snap(groups[g].points)
    {
      var gs, pts := groups, Points();
      seq(|gs|, g requires 0 <= g < |gs| reads pts => Snap(gs[g].points))
    }

    /** Every trail holds min(frames, RIBBON_WIDTH) positions. */
    ghost predicate TrailsInv()
      reads this`groups, this`frames, Points()
    {
      AllTrailsOf(Snaps(), Min(frames, RIBBON_WIDTH))
    }

    /** The groups' invariant: their shape and their trails' common length. */
    ghost predicate GroupsInv()
      reads this`groups, this`frames, this`slot, Points()
    {
      Shape() && TrailsInv()
    }

    /** The whole screen saver's invariant. */
    ghost predicate Valid()
      reads this, Points()
    {
      MonitorInv() && GroupsInv()
    }

    /** Changing neither the groups nor any point keeps every state. */
    twostate lemma SnapsKept()
      requires unchanged(this`groups) && unchanged(old(Points()))
      ensures Points() == old(Points()) && Snaps() == old(Snaps())
    {
    }

    /** Changing only the idle monitor's fields keeps the groups' invariant. */
    twostate lemma GroupsKept()
      requires unchanged(this`groups, this`frames, this`slot) && unchanged(old(Points()))
      requires old(GroupsInv())
      ensures GroupsInv()
    {
      SnapsKept();
    }

    /** The points of one group are distinct objects. */
    lemma GroupDistinct(g: nat)
      requires Shape() && g < |groups|
      ensures Distinct(groups[g].points)
    {
      forall j, k | 0 <= j < k < |groups[g].points|
        ensures groups[g].points[j] != groups[g].points[k]
      {
        assert slot[groups[g].points[j]] == (g, j);
        assert slot[groups[g].points[k]] == (g, k);
      }
    }

    /** No point of group gi belongs to another group. */
    lemma OthersApart(gi: nat)
      requires Shape() && gi < |groups|
      ensures forall g, j :: 0 <= g < |groups| && g != gi && 0 <= j < NUM_POINTS ==>
                groups[g].points[j] !in groups[gi].points
    {
      forall g, j, k | 0 <= g < |groups| && g != gi && 0 <= j < NUM_POINTS && 0 <= k < NUM_POINTS
        ensures groups[gi].points[k] != groups[g].points[j]
      {
        assert slot[groups[gi].points[k]] == (gi, k);
        assert slot[groups[g].points[j]] == (g, j);
      }
    }

    /** Every group's trails have one common length, as the renderer needs. */
    lemma UniformTrails()
      requires GroupsInv()
      ensures AllUniform(Snaps())
    {
      forall g | 0 <= g < |groups|
        ensures Uniform(Trails(Snaps()[g]))
      {
        TrailsUniform(Snaps()[g], Min(frames, RIBBON_WIDTH));
      }
    }

    /**
     * Lines 2-12: the state when the script has been loaded, before
     * `window.onload` runs `init`.
     */
    constructor ()
      ensures Valid()
      ensures !active && pendingTimers == 0 && !frameRequested
      ensures !styleCreated && !styleAttached && !canvasCreated && !canvasAttached
      ensures groups == [] && width == 0 && height == 0
    {
      active, pendingTimers, timerDelay, frameRequested := false, 0, 0, false;
      styleCreated, styleAttached, canvasCreated, canvasAttached := false, false, false, false;
      width, height := 0, 0;
      groups := [];
      frames, slot := 0, map[];
    }

    /**
     * Lines 69-82: switch the effect off. The animation frame is cancelled
     * and the style and canvas are detached if they are attached; the
     * groups are kept. A second call changes nothing.
     */
    method StopScreensaver()
      requires Valid()
      modifies this`active, this`frameRequested, this`styleAttached, this`canvasAttached
      ensures Valid()
      ensures !active && !frameRequested && !styleAttached && !canvasAttached
      ensures old(!active && !frameRequested && !styleAttached && !canvasAttached) ==> unchanged(this)
    {
      active := false;
      frameRequested := false;
      if styleCreated && styleAttached {
        RemoveStyle();
      }
      if canvasCreated && canvasAttached {
        RemoveCanvas();
      }
      GroupsKept();
    }

    /**
     * Line 75: `styleElement.parentNode.removeChild(styleElement)`. The
     * parent node is null unless the style is attached, so the call needs it
     * attached.
     */
    method RemoveStyle()
      requires styleCreated && styleAttached
      modifies this`styleAttached
      ensures !styleAttached
    {
      styleAttached := false;
    }

    /**
     * Line 80: `canvas.parentNode.removeChild(canvas)`, which likewise needs
     * the canvas attached.
     */
    method RemoveCanvas()
      requires canvasCreated && canvasAttached
      modifies this`canvasAttached
      ensures !canvasAttached
    {
      canvasAttached := false;
    }

    /**
     * Lines 34-38, run on every input event: switch the effect off if it is
     * on, clear the pending idle timer and schedule a fresh one of
     * IDLE_TIME_LIMIT ms, which is then the only one pending.
     */
    method ResetTimer()
      requires Valid()
      modifies this`active, this`frameRequested, this`styleAttached, this`canvasAttached
      modifies this`pendingTimers, this`timerDelay
      ensures Valid()
      ensures !active && !frameRequested && !styleAttached && !canvasAttached
      ensures pendingTimers == 1 && timerDelay == IDLE_TIME_LIMIT
    {
      if active {
        StopScreensaver();
      }
      pendingTimers := 0;
      pendingTimers, timerDelay := pendingTimers + 1, IDLE_TIME_LIMIT;
      GroupsKept();
    }

    /**
     * Lines 19-25 and 173: `init`, run by `window.onload`, arms the first
     * idle timer with `resetTimer()`, so the effect starts IDLE_TIME_LIMIT
     * ms after load even if no input ever arrives. Registering the event
     * handlers is the caller's choice of when to call ResetTimer and
     * HandleResize.
     */
    method Init()
      requires Valid() && !active
      modifies this`active, this`frameRequested, this`styleAttached, this`canvasAttached
      modifies this`pendingTimers, this`timerDelay
      ensures Valid() && !active && pendingTimers == 1 && timerDelay == IDLE_TIME_LIMIT
      ensures unchanged(this`styleCreated, this`canvasCreated, this`width, this`height, this`groups)
    {
      ResetTimer();
    }

    /**
     * Lines 27-32: on a resize while active, the canvas takes the new
     * viewport size; the points and their trails are left as they are.
     */
    method HandleResize(innerWidth: nat, innerHeight: nat)
      requires Valid()
      modifies this`width, this`height
      ensures Valid()
      ensures old(active && canvasCreated) ==> width == innerWidth && height == innerHeight
      ensures !old(active && canvasCreated) ==> width == old(width) && height == old(height)
    {
      if active && canvasCreated {
        width := innerWidth;
        height := innerHeight;
      }
    }

    /**
     * Lines 84-110: create GROUP_COUNT groups of NUM_POINTS fresh points with
     * empty trails, group g with base hue BaseHue(startOffset, g).
     */
    method InitLineGroups(innerWidth: nat, innerHeight: nat, offsetRnd: real, seeds: seq<seq<Seed>>)
      requires 0.0 <= offsetRnd < 1.0 && SeedShape(seeds)
      modifies this`groups, this`frames, this`slot
      ensures GroupsInv() && frames == 0 && |groups| == GROUP_COUNT
      ensures forall g :: 0 <= g < GROUP_COUNT ==> groups[g].baseHue == BaseHue(offsetRnd * FULL_TURN, g)
      ensures Snaps() == SpawnedAll(seeds, innerWidth, innerHeight)
      ensures forall g, j :: 0 <= g < GROUP_COUNT && 0 <= j < NUM_POINTS ==> fresh(groups[g].points[j])
    {
      var lineGroups, where := SpawnGroups(innerWidth, innerHeight, offsetRnd * FULL_TURN, seeds);
      groups := lineGroups;
      slot := where;
      frames := 0;
      assert Snaps() == SpawnedAll(seeds, innerWidth, innerHeight);
    }

    /**
     * Lines 40-67: switch the effect on. The cursor-hiding style is created
     * and attached, the canvas is created with the viewport size and
     * attached, fresh groups are created and the first frame runs at once.
     */
    method StartScreensaver(innerWidth: nat, innerHeight: nat, offsetRnd: real, seeds: seq<seq<Seed>>,
                            draws: seq<seq<Draw>>, now: nat) returns (strokes: seq<seq<Stroke>>)
      requires Valid() && !active && pendingTimers == 0
      requires 0.0 <= offsetRnd < 1.0 && SeedShape(seeds)
      requires AllFit(SpawnedAll(seeds, innerWidth, innerHeight), draws)
      modifies this
      ensures Valid() && active && pendingTimers == 0 && timerDelay == old(timerDelay)
      ensures styleCreated && styleAttached && canvasCreated && canvasAttached && frameRequested
      ensures width == innerWidth && height == innerHeight
      ensures frames == 1 && |groups| == GROUP_COUNT
      ensures forall g :: 0 <= g < GROUP_COUNT ==> groups[g].baseHue == BaseHue(offsetRnd * FULL_TURN, g)
      ensures Snaps() == StepAll(SpawnedAll(seeds, innerWidth, innerHeight), draws, innerWidth, innerHeight)
      ensures AllUniform(Snaps()) && strokes == DrawAll(Snaps(), groups, now)
    {
      Show(innerWidth, innerHeight);
      InitLineGroups(innerWidth, innerHeight, offsetRnd, seeds);
      strokes := Animate(draws, now);
    }

    /**
     * Lines 41-64: the effect is marked active, and the style and a canvas
     * of the viewport's size are created and attached.
     */
    method Show(innerWidth: nat, innerHeight: nat)
      requires GroupsInv()
      modifies this`active, this`styleCreated, this`styleAttached
      modifies this`canvasCreated, this`canvasAttached, this`width, this`height
      ensures GroupsInv() && active
      ensures styleCreated && styleAttached && canvasCreated && canvasAttached
      ensures width == innerWidth && height == innerHeight
    {
      active := true;
      styleCreated, styleAttached := true, true;
      canvasCreated := true;
      width, height := innerWidth, innerHeight;
      canvasAttached := true;
      GroupsKept();
    }

    /**
     * Line 37: the pending idle timer fires after IDLE_TIME_LIMIT ms without
     * input and runs `startScreensaver`; no timer is pending afterwards.
     */
    method IdleTimerFires(innerWidth: nat, innerHeight: nat, offsetRnd: real, seeds: seq<seq<Seed>>,
                          draws: seq<seq<Draw>>, now: nat) returns (strokes: seq<seq<Stroke>>)
      requires Valid() && pendingTimers > 0
      requires 0.0 <= offsetRnd < 1.0 && SeedShape(seeds)
      requires AllFit(SpawnedAll(seeds, innerWidth, innerHeight), draws)
      modifies this
      ensures Valid() && active && pendingTimers == 0
      ensures width == innerWidth && height == innerHeight
      ensures frames == 1 && |groups| == GROUP_COUNT
      ensures forall g :: 0 <= g < GROUP_COUNT ==> groups[g].baseHue == BaseHue(offsetRnd * FULL_TURN, g)
      ensures Snaps() == StepAll(SpawnedAll(seeds, innerWidth, innerHeight), draws, innerWidth, innerHeight)
      ensures AllUniform(Snaps()) && strokes == DrawAll(Snaps(), groups, now)
    {
      pendingTimers := pendingTimers - 1;
      GroupsKept();
      strokes := StartScreensaver(innerWidth, innerHeight, offsetRnd, seeds, draws, now);
    }

    /**
     * Lines 117-144: every point of group gi takes one step; the points of
     * the other groups are left as they are.
     */
    method StepGroup(gi: nat, ds: seq<Draw>)
      requires Shape() && gi < |groups| && FitsAll(Snap(groups[gi].points), ds)
      modifies groups[gi].points
      ensures Snap(groups[gi].points) == StepStates(old(Snap(groups[gi].points)), ds, width, height)
      ensures forall g :: 0 <= g < |groups| && g != gi ==> Snap(groups[g].points) == old(Snap(groups[g].points))
    {
      GroupDistinct(gi);
      OthersApart(gi);
      StepEach(groups[gi].points, ds, width, height);
      forall g, j | 0 <= g < |groups| && g != gi && 0 <= j < NUM_POINTS
        ensures unchanged(groups[g].points[j])
      {
      }
    }

    /**
     * Lines 112-171, the frame callback. When the effect is off it does
     * nothing (line 113). Otherwise every point of every group takes one
     * step, every group is drawn from its new trails, and the next frame is
     * requested.
     *
     * The script draws each group right after moving its points; the model
     * moves all groups first and then draws them in the same order. No point
     * belongs to two groups and drawing changes no point, so the strokes and
     * the final state are the same. Line 170 only schedules the next call,
     * so the order of the frame flag does not matter either.
     */
    method Animate(draws: seq<seq<Draw>>, now: nat) returns (strokes: seq<seq<Stroke>>)
      requires GroupsInv()
      requires active ==> AllFit(Snaps(), draws)
      modifies this`frameRequested, this`frames, Points()
      ensures GroupsInv()
      ensures !old(active) ==> strokes == [] && unchanged(this) && unchanged(Points())
      ensures old(active) ==> frameRequested && frames == old(frames) + 1
      ensures old(active) ==> Snaps() == StepAll(old(Snaps()), draws, width, height)
      ensures old(active) ==> AllUniform(Snaps()) && strokes == DrawAll(Snaps(), groups, now)
    {
      if !active {
        return [];
      }
      StepFrame(draws);
      strokes := DrawGroups(now);
    }

    /**
     * Lines 114-145 and 170 with the effect on: every point takes one step
     * and the next frame is requested.
     */
    method StepFrame(draws: seq<seq<Draw>>)
      requires GroupsInv() && AllFit(Snaps(), draws)
      modifies this`frameRequested, this`frames, Points()
      ensures GroupsInv()
      ensures frameRequested && frames == old(frames) + 1
      ensures Snaps() == StepAll(old(Snaps()), draws, width, height)
    {
      StepAllTrails(Snaps(), draws, width, height, frames);
      StepGroups(draws);
      label stepped:
      frames := frames + 1;
      frameRequested := true;
      SnapsKept@stepped();
    }

    /** Lines 116-145: `lineGroups.forEach`, moving every point of every group one step. */
    method StepGroups(draws: seq<seq<Draw>>)
      requires Shape() && AllFit(Snaps(), draws)
      modifies Points()
      ensures unchanged(this)
      ensures Snaps() == StepAll(old(Snaps()), draws, width, height)
    {
      ghost var before := Snaps();
      var gi := 0;
      while gi < |groups|
        invariant 0 <= gi <= |groups| && unchanged(this)
        invariant forall g :: 0 <= g < gi ==>
                    Snap(groups[g].points) == StepStates(before[g], draws[g], width, height)
        invariant forall g :: gi <= g < |groups| ==> Snap(groups[g].points) == before[g]
      {
        StepGroup(gi, draws[gi]);
        gi := gi + 1;
      }
    }

    /** Lines 116 and 147-169: `lineGroups.forEach`, drawing every group from its trails. */
    method DrawGroups(now: nat) returns (strokes: seq<seq<Stroke>>)
      requires GroupsInv()
      ensures AllUniform(Snaps()) && strokes == DrawAll(Snaps(), groups, now)
    {
      UniformTrails();
      ghost var sss := Snaps();
      strokes := [];
      var gi := 0;
      while gi < |groups|
        invariant 0 <= gi <= |groups| && |strokes| == gi
        invariant forall g :: 0 <= g < gi ==> strokes[g] == Strokes(Trails(sss[g]), groups[g].baseHue, now)
      {
        var s := RenderGroup(groups[gi], now);
        strokes := strokes + [s];
        gi := gi + 1;
      }
    }
  }

  /**
   * Lines 89-109: the GROUP_COUNT groups, group g with base hue
   * BaseHue(startOffset, g) and NUM_POINTS fresh points, each entered in the
   * ghost map where under its place.
   */
  method SpawnGroups(innerWidth: nat, innerHeight: nat, startOffset: real, seeds: seq<seq<Seed>>)
    returns (lineGroups: seq<Group>, ghost where: map<Point, (nat, nat)>)
    requires 0.0 <= startOffset && SeedShape(seeds)
    ensures |lineGroups| == GROUP_COUNT
    ensures forall g :: 0 <= g < GROUP_COUNT ==>
              |lineGroups[g].points| == NUM_POINTS && lineGroups[g].baseHue == BaseHue(startOffset, g)
    ensures forall g :: 0 <= g < GROUP_COUNT ==> Snap(lineGroups[g].points) == Spawned(seeds[g], innerWidth, innerHeight)
    ensures forall g, j :: 0 <= g < GROUP_COUNT && 0 <= j < NUM_POINTS ==> fresh(lineGroups[g].points[j])
    ensures forall g, j :: 0 <= g < GROUP_COUNT && 0 <= j < NUM_POINTS ==>
              lineGroups[g].points[j] in where && where[lineGroups[g].points[j]] == (g, j)
  {
    lineGroups := [];
    where := map[];
    var g := 0;
    while g < GROUP_COUNT
      invariant 0 <= g <= GROUP_COUNT && |lineGroups| == g
      invariant forall k :: 0 <= k < g ==>
                  |lineGroups[k].points| == NUM_POINTS && lineGroups[k].baseHue == BaseHue(startOffset, k)
      invariant forall k :: 0 <= k < g ==> Snap(lineGroups[k].points) == Spawned(seeds[k], innerWidth, innerHeight)
      invariant forall k, j :: 0 <= k < g && 0 <= j < |lineGroups[k].points| ==> fresh(lineGroups[k].points[j])
      invariant forall k, j :: 0 <= k < g && 0 <= j < |lineGroups[k].points| ==>
                  lineGroups[k].points[j] in where && where[lineGroups[k].points[j]] == (k, j)
    {
      var points;
      points, where := SpawnGroup(seeds[g], innerWidth, innerHeight, g, where);
      lineGroups := lineGroups + [Group(points, BaseHue(startOffset, g))];
      g := g + 1;
    }
  }

  /**
   * Lines 92-103: the NUM_POINTS fresh points of group g, each entered in
   * the ghost map where under its place.
   */
  method SpawnGroup(seeds: seq<Seed>, innerWidth: nat, innerHeight: nat, ghost g: nat, ghost where: map<Point, (nat, nat)>)
    returns (points: seq<Point>, ghost where': map<Point, (nat, nat)>)
    requires |seeds| == NUM_POINTS
    ensures |points| == NUM_POINTS && Snap(points) == Spawned(seeds, innerWidth, innerHeight)
    ensures forall j :: 0 <= j < NUM_POINTS ==> fresh(points[j])
    ensures forall j :: 0 <= j < NUM_POINTS ==> points[j] in where' && where'[points[j]] == (g, j)
    ensures forall p :: p in where ==> p in where' && where'[p] == where[p]
  {
    points := [];
    where' := where;
    var i := 0;
    while i < NUM_POINTS
      invariant 0 <= i <= NUM_POINTS && |points| == i
      invariant forall j :: 0 <= j < i ==>
                  fresh(points[j])
                  && points[j].State() == Spawn(seeds[j], innerWidth, innerHeight)
                  && points[j].history == []
      invariant forall j :: 0 <= j < i ==> points[j] in where' && where'[points[j]] == (g, j)
      invariant forall p :: p in where ==> p in where' && where'[p] == where[p]
    {
      var p := new Point(Spawn(seeds[i], innerWidth, innerHeight));
      points := points + [p];
      where' := where'[p := (g, i)];
      i := i + 1;
    }
    assert Snap(points) == Spawned(seeds, innerWidth, innerHeight);
  }

  /** Lines 95-102 for each seed: the motion it spawns, with an empty trail. */
  function Spawned(seeds: seq<Seed>, width: nat, height: nat): (ss: seq<PointState>)
    ensures |ss| == |seeds| && TrailsOf(ss, 0)
  {
    seq(|seeds|, j requires 0 <= j < |seeds| => PointState(Spawn(seeds[j], width, height), []))
  }

  /** Lines 92-103 for every group: group g spawned from seeds[g]. */
  function SpawnedAll(seeds: seq<seq<Seed>>, width: nat, height: nat): (sss: seq<seq<PointState>>)
    ensures |sss| == |seeds| && AllTrailsOf(sss, 0)
  {
    seq(|seeds|, g requires 0 <= g < |seeds| => Spawned(seeds[g], width, height))
  }

  /** One draw per point of every group, each fitting that point. */
  predicate AllFit(sss: seq<seq<PointState>>, draws: seq<seq<Draw>>)
  {
    |draws| == |sss| && forall g :: 0 <= g < |sss| ==> FitsAll(sss[g], draws[g])
  }

  /** One frame for every group, group g with draws[g]. */
  function StepAll(sss: seq<seq<PointState>>, draws: seq<seq<Draw>>, width: nat, height: nat): seq<seq<PointState>>
    requires AllFit(sss, draws)
  {
    seq(|sss|, g requires 0 <= g < |sss| => StepStates(sss[g], draws[g], width, height))
  }

  /** Every trail of every group holds exactly n positions. */
  predicate AllTrailsOf(sss: seq<seq<PointState>>, n: nat)
  {
    forall g :: 0 <= g < |sss| ==> TrailsOf(sss[g], n)
  }

  /**
   * All trails hold min(n, RIBBON_WIDTH) positions before a frame and
   * min(n + 1, RIBBON_WIDTH) after it.
   */
  lemma StepAllTrails(sss: seq<seq<PointState>>, draws: seq<seq<Draw>>, width: nat, height: nat, n: nat)
    requires AllFit(sss, draws) && AllTrailsOf(sss, Min(n, RIBBON_WIDTH))
    ensures AllTrailsOf(StepAll(sss, draws, width, height), Min(n + 1, RIBBON_WIDTH))
  {
    forall g | 0 <= g < |sss|
      ensures TrailsOf(StepAll(sss, draws, width, height)[g], Min(n + 1, RIBBON_WIDTH))
    {
      StepStatesTrails(sss[g], draws[g], width, height, n);
    }
  }

  /** Every group's trails can be drawn. */
  predicate AllUniform(sss: seq<seq<PointState>>)
  {
    forall g :: 0 <= g < |sss| ==> Uniform(Trails(sss[g]))
  }

  /** The strokes of every group, group g with the base hue of groups[g]. */
  function DrawAll(sss: seq<seq<PointState>>, groups: seq<Group>, now: nat): seq<seq<Stroke>>
    requires |groups| == |sss| && AllUniform(sss)
  {
    seq(|sss|, g requires 0 <= g < |sss| => Strokes(Trails(sss[g]), groups[g].baseHue, now))
  }

  /** NUM_POINTS trails of one common length are uniform. */
  lemma TrailsUniform(ss: seq<PointState>, n: nat)
    requires |ss| == NUM_POINTS && TrailsOf(ss, n)
    ensures Uniform(Trails(ss))
  {
  }

  /**
   * Lines 147-167: the strokes drawn for one group, oldest depth first. The
   * script checks only that point 0 has a trail entry at depth i and then
   * reads depth i of every point's trail, which is in bounds because all
   * trails of a group have the same length.
   */
  method RenderGroup(group: Group, now: nat) returns (strokes: seq<Stroke>)
    requires Uniform(Trails(Snap(group.points)))
    ensures strokes == Strokes(Trails(Snap(group.points)), group.baseHue, now)
  {
    ghost var hs := Trails(Snap(group.points));
    ghost var n := Min(|hs[0]|, RIBBON_WIDTH);
    strokes := [];
    var i: int := RIBBON_WIDTH - 1;
    while i >= 0
      invariant -1 <= i < RIBBON_WIDTH
      invariant |strokes| == if n > i + 1 then n - (i + 1) else 0
      invariant forall k :: 0 <= k < |strokes| ==> strokes[k] == StrokeAt(hs, group.baseHue, now, n - 1 - k)
    {
      if i < |group.points[0].history| {
        var opacity := (1.0 - (i as real) / (RIBBON_WIDTH as real)) * 0.5;
        var hue := Rem360(group.baseHue + (now as real) / 60.0 - 2.0 * (i as real));
        var p0 := group.points[0].history[i];
        var curves: seq<Curve> := [];
        var j := 1;
        while j < NUM_POINTS
          invariant 1 <= j <= NUM_POINTS && |curves| == j - 1
          invariant forall c :: 0 <= c < j - 1 ==> curves[c] == CurveAt(hs, i, c)
        {
          var p1 := group.points[j].history[i];
          var p2 := group.points[(j + 1) % NUM_POINTS].history[i];
          var xc := (p1.x + p2.x) / 2.0;
          var yc := (p1.y + p2.y) / 2.0;
          curves := curves + [Curve(p1, Pos(xc, yc))];
          j := j + 1;
        }
        strokes := strokes + [Stroke(i, opacity, hue, p0, curves)];
      }
      i := i - 1;
    }
  }
}
