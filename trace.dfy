/**
 * Sequences of samples, as they are handed to the sink one after the other:
 * where such a run leaves the beam, and when a run moves the beam by unit
 * steps only.
 */
module Trace {
  import opened TeensyDac

  /** The beam position after the samples `s`, starting from `b`: the last sample, or `b` if none. */
  function LastOr(b: Point, s: seq<Point>): Point
  {
    if s == [] then b else s[|s| - 1]
  }

  lemma LastOrAppend(b: Point, s: seq<Point>, t: seq<Point>)
    ensures LastOr(b, s + t) == LastOr(LastOr(b, s), t)
  {
  }

  /** `q` is `p` moved by one unit along exactly one axis: along x by `sx`, or along y by `sy`. */
  predicate UnitStep(p: Point, q: Point, sx: int, sy: int)
  {
    (q.x == p.x + sx && q.y == p.y) || (q.x == p.x && q.y == p.y + sy)
  }

  /** Starting from `p`, every sample of `path` is a unit step from the one before it. */
  predicate UnitPath(p: Point, path: seq<Point>, sx: int, sy: int)
    decreases |path|
  {
    path == [] || (UnitStep(p, path[0], sx, sy) && UnitPath(path[0], path[1..], sx, sy))
  }

  /** Unit-step paths compose: the second may start where the first ends. */
  lemma {:induction false} UnitPathAppend(p: Point, s: seq<Point>, t: seq<Point>, sx: int, sy: int)
    requires UnitPath(p, s, sx, sy) && UnitPath(LastOr(p, s), t, sx, sy)
    ensures UnitPath(p, s + t, sx, sy)
    decreases |s|
  {
    if s == [] {
      assert s + t == t;
    } else {
      assert (s + t)[0] == s[0];
      assert (s + t)[1..] == s[1..] + t;
      assert LastOr(s[0], s[1..]) == LastOr(p, s);
      UnitPathAppend(s[0], s[1..], t, sx, sy);
    }
  }
}
