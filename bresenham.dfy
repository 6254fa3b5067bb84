/**
 * The general-slope case of `line` (vectors/vector.cpp): integer Bresenham
 * stepping with the error accumulator seeded as `dx - dy`. The loop has no
 * counter and stops only when the position equals the target; this module
 * states the samples it emits and proves that it stops there, after exactly
 * `dx + dy` unit steps, without overshooting either coordinate.
 */
module Bresenham {
  import opened TeensyDac
  import opened Trace

  /** The fixed data of one run: the target, the absolute deltas and the step directions. */
  datatype Slope = Slope(x1: int, y1: int, dx: int, dy: int, sx: int, sy: int)

  /** The loop's variables: the current position (`x0`, `y0` in the source) and `err`. */
  datatype Cursor = Cursor(x: int, y: int, err: int)

  /** The deltas and directions `line` computes for a segment from (x0, y0) to (x1, y1). */
  function SlopeOf(x0: int, y0: int, x1: int, y1: int): (g: Slope)
    ensures g.x1 == x1 && g.y1 == y1
    ensures g.dx >= 0 && g.dy >= 0
    ensures x0 + g.sx * g.dx == x1 && y0 + g.sy * g.dy == y1
    ensures (g.sx == 1 || g.sx == -1) && (g.sy == 1 || g.sy == -1)
  {
    Slope(x1, y1,
          if x0 <= x1 then x1 - x0 else x0 - x1,
          if y0 <= y1 then y1 - y0 else y0 - y1,
          if x0 <= x1 then 1 else -1,
          if y0 <= y1 then 1 else -1)
  }

  /** Distance still to go along x, measured in the direction of travel. */
  function RemX(g: Slope, x: int): int
  {
    if g.sx == 1 then g.x1 - x else x - g.x1
  }

  /** Distance still to go along y, measured in the direction of travel. */
  function RemY(g: Slope, y: int): int
  {
    if g.sy == 1 then g.y1 - y else y - g.y1
  }

  predicate AtTarget(g: Slope, c: Cursor)
  {
    c.x == g.x1 && c.y == g.y1
  }

  /**
   * The loop invariant: neither coordinate has passed the target, and the
   * error term is determined by the distances still to go.
   */
  predicate Inv(g: Slope, c: Cursor)
  {
    && g.dx > 0 && g.dy > 0
    && (g.sx == 1 || g.sx == -1) && (g.sy == 1 || g.sy == -1)
    && 0 <= RemX(g, c.x) <= g.dx
    && 0 <= RemY(g, c.y) <= g.dy
    && c.err == g.dx - g.dy + RemX(g, c.x) * g.dy - RemY(g, c.y) * g.dx
  }

  /** The x advance fires when `2*err > -dy`. */
  predicate StepX(g: Slope, c: Cursor)
  {
    2 * c.err > -g.dy
  }

  /** The y advance fires when `2*err < dx` (the same doubled error, taken before the x advance). */
  predicate StepY(g: Slope, c: Cursor)
  {
    2 * c.err < g.dx
  }

  /** The loop variables after one iteration. */
  function Next(g: Slope, c: Cursor): Cursor
  {
    var x := if StepX(g, c) then c.x + g.sx else c.x;
    var y := if StepY(g, c) then c.y + g.sy else c.y;
    var err := (if StepX(g, c) then c.err - g.dy else c.err) + (if StepY(g, c) then g.dx else 0);
    Cursor(x, y, err)
  }

  /** The samples one iteration emits: one after the x advance, one after the y advance. */
  function StepSamples(g: Slope, c: Cursor): seq<Point>
  {
    var n := Next(g, c);
    (if StepX(g, c) then [Point(n.x, c.y)] else []) + (if StepY(g, c) then [Point(n.x, n.y)] else [])
  }

  lemma MulAtLeast(k: int, m: int)
    requires k >= 1 && m > 0
    ensures k * m >= m
  {
  }

  lemma MulPred(k: int, m: int)
    ensures (k - 1) * m == k * m - m
  {
  }

  /** With x on target and y not, the x advance cannot fire. */
  lemma NoStepXOnTargetX(g: Slope, c: Cursor)
    requires Inv(g, c) && RemX(g, c.x) == 0 && RemY(g, c.y) > 0
    ensures !StepX(g, c)
  {
    MulAtLeast(RemY(g, c.y), g.dx);
  }

  /** With y on target and x not, the y advance cannot fire. */
  lemma NoStepYOnTargetY(g: Slope, c: Cursor)
    requires Inv(g, c) && RemY(g, c.y) == 0 && RemX(g, c.x) > 0
    ensures !StepY(g, c)
  {
    MulAtLeast(RemX(g, c.x), g.dy);
  }

  /**
   * One iteration away from the target keeps the invariant, advances at
   * least one coordinate, and brings each advanced coordinate one unit
   * closer to the target.
   */
  lemma StepKeepsInv(g: Slope, c: Cursor)
    requires Inv(g, c) && !AtTarget(g, c)
    ensures Inv(g, Next(g, c))
    ensures StepX(g, c) || StepY(g, c)
    ensures RemX(g, Next(g, c).x) == RemX(g, c.x) - (if StepX(g, c) then 1 else 0)
    ensures RemY(g, Next(g, c).y) == RemY(g, c.y) - (if StepY(g, c) then 1 else 0)
  {
    var a, b := RemX(g, c.x), RemY(g, c.y);
    if a == 0 {
      NoStepXOnTargetX(g, c);
    }
    if b == 0 {
      NoStepYOnTargetY(g, c);
    }
    var n := Next(g, c);
    var a', b' := RemX(g, n.x), RemY(g, n.y);
    if StepX(g, c) {
      assert a' == a - 1;
      MulPred(a, g.dy);
    } else {
      assert a' == a;
    }
    if StepY(g, c) {
      assert b' == b - 1;
      MulPred(b, g.dx);
    } else {
      assert b' == b;
    }
  }

  /** The samples the loop emits from cursor `c` until it reaches the target. */
  function Run(g: Slope, c: Cursor): seq<Point>
    requires Inv(g, c)
    decreases RemX(g, c.x) + RemY(g, c.y)
  {
    if AtTarget(g, c) then []
    else
      StepKeepsInv(g, c);
      StepSamples(g, c) + Run(g, Next(g, c))
  }

  /** Away from the target, the run is one iteration's samples followed by the run from there. */
  lemma RunUnfold(g: Slope, c: Cursor)
    requires Inv(g, c) && !AtTarget(g, c)
    ensures Inv(g, Next(g, c))
    ensures Run(g, c) == StepSamples(g, c) + Run(g, Next(g, c))
  {
    StepKeepsInv(g, c);
  }

  /** The loop emits exactly one sample per unit of distance to go: `dx + dy` in all from the start. */
  lemma {:induction false} RunLength(g: Slope, c: Cursor)
    requires Inv(g, c)
    ensures |Run(g, c)| == RemX(g, c.x) + RemY(g, c.y)
    decreases RemX(g, c.x) + RemY(g, c.y)
  {
    if !AtTarget(g, c) {
      StepKeepsInv(g, c);
      RunLength(g, Next(g, c));
    }
  }

  /** The loop stops exactly on the target: the last sample (or the start, if none) is (x1, y1). */
  lemma {:induction false} RunEndsOnTarget(g: Slope, c: Cursor)
    requires Inv(g, c)
    ensures LastOr(Point(c.x, c.y), Run(g, c)) == Point(g.x1, g.y1)
    decreases RemX(g, c.x) + RemY(g, c.y)
  {
    if !AtTarget(g, c) {
      StepKeepsInv(g, c);
      var n := Next(g, c);
      RunEndsOnTarget(g, n);
      assert LastOr(Point(c.x, c.y), StepSamples(g, c)) == Point(n.x, n.y);
      LastOrAppend(Point(c.x, c.y), StepSamples(g, c), Run(g, n));
    }
  }

  /** Every sample moves exactly one coordinate by one unit: x only by `sx`, y only by `sy`. */
  lemma {:induction false} RunUnitSteps(g: Slope, c: Cursor)
    requires Inv(g, c)
    ensures UnitPath(Point(c.x, c.y), Run(g, c), g.sx, g.sy)
    decreases RemX(g, c.x) + RemY(g, c.y)
  {
    if !AtTarget(g, c) {
      StepKeepsInv(g, c);
      var n := Next(g, c);
      var p, s := Point(c.x, c.y), StepSamples(g, c);
      RunUnitSteps(g, n);
      if StepX(g, c) && StepY(g, c) {
        assert UnitPath(s[1], s[2..], g.sx, g.sy);
        assert UnitPath(s[0], s[1..], g.sx, g.sy);
      } else {
        assert UnitPath(s[0], s[1..], g.sx, g.sy);
      }
      assert LastOr(p, s) == Point(n.x, n.y);
      UnitPathAppend(p, s, Run(g, n), g.sx, g.sy);
    }
  }

  /** No sample passes the target, on either axis, nor lies behind the starting cursor. */
  lemma {:induction false} RunNoOvershoot(g: Slope, c: Cursor)
    requires Inv(g, c)
    ensures forall q :: q in Run(g, c) ==>
      0 <= RemX(g, q.x) <= RemX(g, c.x) && 0 <= RemY(g, q.y) <= RemY(g, c.y)
    decreases RemX(g, c.x) + RemY(g, c.y)
  {
    if !AtTarget(g, c) {
      StepKeepsInv(g, c);
      RunNoOvershoot(g, Next(g, c));
    }
  }

  /** The invariant holds when the loop is entered, with `err = dx - dy`. */
  lemma InvAtStart(x0: int, y0: int, x1: int, y1: int)
    requires x0 != x1 && y0 != y1
    ensures Inv(SlopeOf(x0, y0, x1, y1), Cursor(x0, y0, SlopeOf(x0, y0, x1, y1).dx - SlopeOf(x0, y0, x1, y1).dy))
  {
    var g := SlopeOf(x0, y0, x1, y1);
    assert RemX(g, x0) == g.dx && RemY(g, y0) == g.dy;
    assert g.dx * g.dy == g.dy * g.dx;
  }
}
