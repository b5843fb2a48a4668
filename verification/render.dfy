/**
 * What the renderer draws for one group in one frame (web-screen-saver.js,
 * lines 147-167): one closed curve per trail depth, oldest first. The canvas
 * calls are replaced by the values they are given.
 */
module Render {
  import opened Config
  import opened Trail
  import opened Color

  /** `quadraticCurveTo(control, end)`. */
  datatype Curve = Curve(control: Pos, end: Pos)

  /**
   * One `stroke()` of a closed path: where `moveTo` starts it, the curves
   * that follow, and the hue and opacity it is drawn with.
   */
  datatype Stroke = Stroke(depth: nat, opacity: real, hue: real, start: Pos, curves: seq<Curve>)

  /** Lines 160-161: the midpoint of two positions. */
  function Mid(a: Pos, b: Pos): (r: Pos)
    ensures r.x - a.x == b.x - r.x && r.y - a.y == b.y - r.y
  {
    Pos((a.x + b.x) / 2.0, (a.y + b.y) / 2.0)
  }

  /** `(j + 1) % n`: the next point round the closed ribbon. */
  function Next(j: nat, n: nat): (r: nat)
    requires j < n
    ensures r < n
    ensures r == if j + 1 == n then 0 else j + 1
  {
    (j + 1) % n
  }

  /**
   * Lines 157-159: the pairs of point indices each curve of a ribbon uses:
   * the control point j and the point whose midpoint with j ends the curve.
   */
  function Segments(n: nat): (r: seq<(nat, nat)>)
    requires n >= 1
    ensures |r| == n - 1
    ensures forall k :: 0 <= k < n - 1 ==> r[k].0 < n && r[k].1 < n
  {
    seq(n - 1, k requires 0 <= k < n - 1 => (k + 1, Next(k + 1, n)))
  }

  /**
   * Starting at point 0, the curves visit points 1, 2, ..., n - 1 in turn
   * and the last one ends towards point 0 again: the ribbon is a closed
   * cycle, and every index it uses is in bounds.
   */
  lemma SegmentsCloseTheCycle(n: nat)
    requires n >= 2
    ensures Segments(n)[0].0 == 1
    ensures forall k :: 0 <= k < n - 2 ==> Segments(n)[k].1 == Segments(n)[k + 1].0
    ensures Segments(n)[n - 2].1 == 0
  {
  }

  /** The trails of a group's points, all of the same length. */
  predicate Uniform(hs: seq<seq<Pos>>)
  {
    |hs| == NUM_POINTS && forall j :: 0 <= j < |hs| ==> |hs[j]| == |hs[0]|
  }

  /**
   * Line 162: curve c of the path at trail depth d, over segment c: its
   * control point is point c + 1 and it ends halfway to the point after.
   */
  function CurveAt(hs: seq<seq<Pos>>, d: nat, c: nat): (r: Curve)
    requires Uniform(hs) && d < |hs[0]| && c < NUM_POINTS - 1
    ensures r.control == hs[c + 1][d]
    ensures r.end == Mid(hs[c + 1][d], hs[Next(c + 1, NUM_POINTS)][d])
  {
    var (j, k) := Segments(NUM_POINTS)[c];
    Curve(hs[j][d], Mid(hs[j][d], hs[k][d]))
  }

  /**
   * Lines 149-165: the closed path drawn for trail depth d. It starts at
   * point 0, curve c has point c + 1 as its control point and ends halfway
   * to the point after it, so the last curve ends halfway between the last
   * point and point 0; its opacity lies in (0, 0.5].
   */
  function StrokeAt(hs: seq<seq<Pos>>, baseHue: real, now: nat, d: nat): (r: Stroke)
    requires Uniform(hs) && d < |hs[0]|
    ensures r.depth == d && r.start == hs[0][d] && |r.curves| == NUM_POINTS - 1
    ensures forall c :: 0 <= c < NUM_POINTS - 1 ==>
              r.curves[c].control == hs[c + 1][d] &&
              r.curves[c].end == Mid(hs[c + 1][d], hs[Next(c + 1, NUM_POINTS)][d])
    ensures r.curves[NUM_POINTS - 2].end == Mid(hs[NUM_POINTS - 1][d], hs[0][d])
    ensures d < RIBBON_WIDTH ==> 0.0 < r.opacity <= 0.5
  {
    Stroke(d, Opacity(d), StrokeHue(baseHue, now, d), hs[0][d],
           seq(NUM_POINTS - 1, c requires 0 <= c < NUM_POINTS - 1 => CurveAt(hs, d, c)))
  }

  /**
   * Lines 147-148: the strokes of one group, from depth RIBBON_WIDTH - 1
   * down to 0, skipping the depths the trails do not reach.
   */
  function Strokes(hs: seq<seq<Pos>>, baseHue: real, now: nat): (r: seq<Stroke>)
    requires Uniform(hs)
    ensures |r| == Min(|hs[0]|, RIBBON_WIDTH)
    ensures forall k :: 0 <= k < |r| ==> r[k].depth == |r| - 1 - k
  {
    var n := Min(|hs[0]|, RIBBON_WIDTH);
    seq(n, k requires 0 <= k < n => StrokeAt(hs, baseHue, now, n - 1 - k))
  }

  /**
   * One stroke per existing depth below RIBBON_WIDTH, drawn oldest first, so
   * each stroke is newer and more opaque than the one before and the last
   * one is the newest position; each stroke starts at point 0 and its last
   * curve ends at the midpoint between the last point and point 0.
   */
  lemma StrokesLayering(hs: seq<seq<Pos>>, baseHue: real, now: nat)
    requires Uniform(hs)
    ensures var s := Strokes(hs, baseHue, now);
      && |s| == Min(|hs[0]|, RIBBON_WIDTH)
      && (forall k :: 0 <= k < |s| ==> s[k].depth < |hs[0]| && s[k].depth < RIBBON_WIDTH)
      && (forall k :: 0 <= k < |s| - 1 ==> s[k].depth == s[k + 1].depth + 1 && s[k].opacity < s[k + 1].opacity)
      && (|s| > 0 ==> s[|s| - 1].depth == 0 && s[|s| - 1].opacity == 0.5 && s[|s| - 1].start == hs[0][0])
      && (forall k :: 0 <= k < |s| ==> s[k].start == hs[0][s[k].depth] && |s[k].curves| == NUM_POINTS - 1)
      && (forall k :: 0 <= k < |s| ==>
            s[k].curves[NUM_POINTS - 2].end == Mid(hs[NUM_POINTS - 1][s[k].depth], hs[0][s[k].depth]))
  {
    var s := Strokes(hs, baseHue, now);
    var n := Min(|hs[0]|, RIBBON_WIDTH);
    forall k | 0 <= k < n
      ensures s[k] == StrokeAt(hs, baseHue, now, n - 1 - k) && s[k].depth == n - 1 - k
    {
    }
    forall k | 0 <= k < |s| - 1
      ensures s[k].depth == s[k + 1].depth + 1 && s[k].opacity < s[k + 1].opacity
    {
      OpacityFades(s[k + 1].depth, s[k].depth);
    }
  }
}
