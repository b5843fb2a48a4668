/**
 * The trail of a point: a bounded FIFO of its recent positions, newest
 * first, holding at most RIBBON_WIDTH entries.
 */
module Trail {
  import opened Config

  datatype Pos = Pos(x: real, y: real)

  /**
   * One frame's trail update: `unshift` the new position, then `pop` the
   * oldest entry if the trail has grown past RIBBON_WIDTH.
   */
  function Push(h: seq<Pos>, p: Pos): (r: seq<Pos>)
    ensures |r| > 0 && r[0] == p
    ensures |r| == if |h| < RIBBON_WIDTH then |h| + 1 else |h|
    ensures |h| <= RIBBON_WIDTH ==> |r| == Min(|h| + 1, RIBBON_WIDTH)
    ensures forall i :: 1 <= i < |r| ==> r[i] == h[i - 1]
  {
    var u := [p] + h;
    if |u| > RIBBON_WIDTH then u[..|u| - 1] else u
  }

  /** The trail of a point that started with an empty trail and then visited `ps`, in order. */
  function TrailOf(ps: seq<Pos>): seq<Pos>
  {
    if ps == [] then [] else Push(TrailOf(ps[..|ps| - 1]), ps[|ps| - 1])
  }

  /**
   * After n frames the trail holds min(n, RIBBON_WIDTH) entries, and they are
   * the most recent positions, newest first.
   */
  lemma {:induction false} TrailOfRecent(ps: seq<Pos>)
    ensures |TrailOf(ps)| == Min(|ps|, RIBBON_WIDTH)
    ensures forall i :: 0 <= i < |TrailOf(ps)| ==> TrailOf(ps)[i] == ps[|ps| - 1 - i]
  {
    if ps != [] {
      TrailOfRecent(ps[..|ps| - 1]);
    }
  }
}
