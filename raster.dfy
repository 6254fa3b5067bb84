/**
 * The cursor and line rasterizer of vectors/vector.cpp: the process-wide
 * beam position `outX`/`outY`, `_out`, `moveto`, the unit-step axis
 * loops `line_vert`/`line_horiz`, `line` with its vertical, horizontal and
 * Bresenham cases, and `lineto`.
 *
 * The functions below say which samples each operation hands to `_out`,
 * starting from beam position `b`; the methods of `Beam` do what the C
 * code does and are proved to emit exactly those samples.
 */
module Raster {
  import opened CInt
  import opened TeensyDac
  import opened Trace
  import opened Bresenham

  /** The beam's position at start-up (`int outX = 0; int outY = 0;`). */
  const Origin: Point := Point(0, 0)

  /** `moveto`: one sample at the target if the beam is elsewhere, none if it is already there. */
  function MovetoSamples(b: Point, p: Point): (r: seq<Point>)
    ensures |r| <= 1 && LastOr(b, r) == p
    ensures r == [] <==> b == p
  {
    if b == p then [] else [p]
  }

  /** Two `moveto`s to the same point emit what the first one alone emits. */
  lemma MovetoTwice(b: Point, p: Point)
    ensures MovetoSamples(b, p) + MovetoSamples(LastOr(b, MovetoSamples(b, p)), p) == MovetoSamples(b, p)
  {
    assert MovetoSamples(p, p) == [];
  }

  /** The loop of `line_vert`: (x, y), (x, y+1), ..., (x, y+h-1). */
  function VertRun(x: int, y: int, h: nat): (r: seq<Point>)
  {
    if h == 0 then [] else VertRun(x, y, h - 1) + [Point(x, y + h - 1)]
  }

  /** The loop of `line_horiz`: (x, y), (x+1, y), ..., (x+w-1, y). */
  function HorizRun(x: int, y: int, w: nat): (r: seq<Point>)
  {
    if w == 0 then [] else HorizRun(x, y, w - 1) + [Point(x + w - 1, y)]
  }

  /** The k-th sample of `line_vert`'s loop is (x, y + k): h samples in all, each once. */
  lemma {:induction false} VertRunAt(x: int, y: int, h: nat)
    ensures |VertRun(x, y, h)| == h
    ensures forall k :: 0 <= k < h ==> VertRun(x, y, h)[k] == Point(x, y + k)
  {
    if h > 0 {
      VertRunAt(x, y, h - 1);
    }
  }

  /** The k-th sample of `line_horiz`'s loop is (x + k, y). */
  lemma {:induction false} HorizRunAt(x: int, y: int, w: nat)
    ensures |HorizRun(x, y, w)| == w
    ensures forall k :: 0 <= k < w ==> HorizRun(x, y, w)[k] == Point(x + k, y)
  {
    if w > 0 {
      HorizRunAt(x, y, w - 1);
    }
  }

  /** Where `line_vert(x, y, h)` leaves the beam: one short of y + h, or at (x, y) when h is 0. */
  function VertEnd(x: int, y: int, h: nat): Point
  {
    if h == 0 then Point(x, y) else Point(x, y + h - 1)
  }

  function HorizEnd(x: int, y: int, w: nat): Point
  {
    if w == 0 then Point(x, y) else Point(x + w - 1, y)
  }

  /** `line_vert(x, y, h)` from beam `b`: a `moveto(x, y)`, then h samples, the first repeating (x, y). */
  function LineVertSamples(b: Point, x: int, y: int, h: nat): (r: seq<Point>)
    ensures |r| == h + (if b == Point(x, y) then 0 else 1)
    ensures LastOr(b, r) == VertEnd(x, y, h)
    ensures h > 0 ==> r[|r| - h] == Point(x, y)
  {
    VertRunAt(x, y, h);
    MovetoSamples(b, Point(x, y)) + VertRun(x, y, h)
  }

  /** `line_horiz(x, y, w)` from beam `b`: a `moveto(x, y)`, then w samples, the first repeating (x, y). */
  function LineHorizSamples(b: Point, x: int, y: int, w: nat): (r: seq<Point>)
    ensures |r| == w + (if b == Point(x, y) then 0 else 1)
    ensures LastOr(b, r) == HorizEnd(x, y, w)
    ensures w > 0 ==> r[|r| - w] == Point(x, y)
  {
    HorizRunAt(x, y, w);
    MovetoSamples(b, Point(x, y)) + HorizRun(x, y, w)
  }

  /** The samples of the Bresenham loop of `line` for a segment that is neither vertical nor horizontal. */
  function GeneralRun(x0: int, y0: int, x1: int, y1: int): seq<Point>
    requires x0 != x1 && y0 != y1
  {
    var g := SlopeOf(x0, y0, x1, y1);
    InvAtStart(x0, y0, x1, y1);
    Run(g, Cursor(x0, y0, g.dx - g.dy))
  }

  /**
   * The vertical case of `line` from beam `b`: `line_vert` from the low end
   * with the length converted to `uint16_t`, then `moveto` the true endpoint.
   */
  function VerticalSamples(b: Point, x0: int, y0: int, x1: int, y1: int): seq<Point>
  {
    var lo := if y0 < y1 then y0 else y1;
    var h := if y0 < y1 then WrapU16(y1 - y0) else WrapU16(y0 - y1);
    LineVertSamples(b, x0, lo, h) + MovetoSamples(VertEnd(x0, lo, h), Point(x1, y1))
  }

  /** The horizontal case of `line`, likewise with `line_horiz`. */
  function HorizontalSamples(b: Point, x0: int, y0: int, x1: int, y1: int): seq<Point>
  {
    var lo := if x0 < x1 then x0 else x1;
    var w := if x0 < x1 then WrapU16(x1 - x0) else WrapU16(x0 - x1);
    LineHorizSamples(b, lo, y0, w) + MovetoSamples(HorizEnd(lo, y0, w), Point(x1, y1))
  }

  /** The general case of `line`: `moveto(x0, y0)`, then the Bresenham loop. */
  function SlantSamples(b: Point, x0: int, y0: int, x1: int, y1: int): seq<Point>
    requires x0 != x1 && y0 != y1
  {
    MovetoSamples(b, Point(x0, y0)) + GeneralRun(x0, y0, x1, y1)
  }

  /** `line(x0, y0, x1, y1)` from beam `b`: vertical, horizontal, or general. */
  function LineSamples(b: Point, x0: int, y0: int, x1: int, y1: int): seq<Point>
  {
    if x0 == x1 then VerticalSamples(b, x0, y0, x1, y1)
    else if y0 == y1 then HorizontalSamples(b, x0, y0, x1, y1)
    else SlantSamples(b, x0, y0, x1, y1)
  }

  /** Moving a block of samples from the pending run to the emitted trace keeps their concatenation. */
  lemma Regroup(whole: seq<Point>, done: seq<Point>, step: seq<Point>, rest: seq<Point>)
    requires whole == done + (step + rest) || whole == (done + step) + rest
    ensures whole == (done + step) + rest && whole == done + (step + rest)
  {
  }

  /** Every case of `line` leaves the beam exactly on (x1, y1). */
  lemma LineEndsOnTarget(b: Point, x0: int, y0: int, x1: int, y1: int)
    ensures LastOr(b, LineSamples(b, x0, y0, x1, y1)) == Point(x1, y1)
  {
    if x0 != x1 && y0 != y1 {
      var g := SlopeOf(x0, y0, x1, y1);
      InvAtStart(x0, y0, x1, y1);
      var m, r := MovetoSamples(b, Point(x0, y0)), GeneralRun(x0, y0, x1, y1);
      RunEndsOnTarget(g, Cursor(x0, y0, g.dx - g.dy));
      LastOrAppend(b, m, r);
    } else if x0 == x1 {
      var lo := if y0 < y1 then y0 else y1;
      var h := if y0 < y1 then WrapU16(y1 - y0) else WrapU16(y0 - y1);
      LastOrAppend(b, LineVertSamples(b, x0, lo, h), MovetoSamples(VertEnd(x0, lo, h), Point(x1, y1)));
    } else {
      var lo := if x0 < x1 then x0 else x1;
      var w := if x0 < x1 then WrapU16(x1 - x0) else WrapU16(x0 - x1);
      LastOrAppend(b, LineHorizSamples(b, lo, y0, w), MovetoSamples(HorizEnd(lo, y0, w), Point(x1, y1)));
    }
  }

  /** A zero-length line emits at most one sample: none when the beam is already there. */
  lemma LineZeroLength(b: Point, x: int, y: int)
    ensures |LineSamples(b, x, y, x, y)| <= 1
    ensures LineSamples(b, x, y, x, y) == [] <==> b == Point(x, y)
  {
    assert LineSamples(b, x, y, x, y) == MovetoSamples(b, Point(x, y)) + [];
  }

  /**
   * The general-slope case: after the leading `moveto(x0, y0)`, exactly
   * |x1-x0| + |y1-y0| samples, each a unit step along one axis in the
   * direction of the target, none outside the segment's bounding box, the
   * last on (x1, y1).
   */
  lemma LineGeneral(b: Point, x0: int, y0: int, x1: int, y1: int)
    requires x0 != x1 && y0 != y1
    ensures var run := GeneralRun(x0, y0, x1, y1);
      && LineSamples(b, x0, y0, x1, y1) == MovetoSamples(b, Point(x0, y0)) + run
      && |run| == (if x0 < x1 then x1 - x0 else x0 - x1) + (if y0 < y1 then y1 - y0 else y0 - y1)
      && UnitPath(Point(x0, y0), run, if x0 < x1 then 1 else -1, if y0 < y1 then 1 else -1)
      && LastOr(Point(x0, y0), run) == Point(x1, y1)
      && forall q :: q in run ==> Between(x0, x1, q.x) && Between(y0, y1, q.y)
  {
    var g := SlopeOf(x0, y0, x1, y1);
    var c := Cursor(x0, y0, g.dx - g.dy);
    InvAtStart(x0, y0, x1, y1);
    var run := Run(g, c);
    assert run == GeneralRun(x0, y0, x1, y1);
    assert g.sx == (if x0 < x1 then 1 else -1) && g.sy == (if y0 < y1 then 1 else -1);
    assert RemX(g, x0) == g.dx && RemY(g, y0) == g.dy;
    RunLength(g, c);
    RunUnitSteps(g, c);
    RunEndsOnTarget(g, c);
    RunNoOvershoot(g, c);
    forall q | q in run
      ensures Between(x0, x1, q.x) && Between(y0, y1, q.y)
    {
      assert 0 <= RemX(g, q.x) <= g.dx && 0 <= RemY(g, q.y) <= g.dy;
    }
  }

  /** `v` lies between `a` and `b`, both included, in either order. */
  predicate Between(a: int, b: int, v: int)
  {
    (a <= v <= b) || (b <= v <= a)
  }

  /**
   * A vertical line. Upward, it emits every y from y0 to y1 in turn. Given
   * high-to-low, it starts at the low end (x1, y1), runs up to y0 - 1 and
   * jumps back to (x1, y1); (x0, y0) itself is never emitted, whatever the
   * length.
   */
  lemma LineVertical(b: Point, x0: int, y0: int, x1: int, y1: int)
    requires x0 == x1
    ensures y0 < y1 && y1 - y0 < 65536 ==>
      LineSamples(b, x0, y0, x1, y1) == MovetoSamples(b, Point(x0, y0)) + VertRun(x0, y0, y1 - y0) + [Point(x1, y1)]
    ensures y0 > y1 && y0 - y1 < 65536 ==>
      LineSamples(b, x0, y0, x1, y1) == MovetoSamples(b, Point(x1, y1)) + VertRun(x1, y1, y0 - y1)
                                       + (if y0 - y1 >= 2 then [Point(x1, y1)] else [])
    ensures y0 > y1 ==> Point(x0, y0) !in LineSamples(b, x0, y0, x1, y1)
  {
    if y0 > y1 {
      var h := WrapU16(y0 - y1);
      assert h <= y0 - y1;
      VertRunAt(x1, y1, h);
      assert Point(x0, y0) !in VertRun(x1, y1, h);
    }
  }

  /** The horizontal counterpart of `LineVertical`, on x. */
  lemma LineHorizontal(b: Point, x0: int, y0: int, x1: int, y1: int)
    requires y0 == y1 && x0 != x1
    ensures x0 < x1 && x1 - x0 < 65536 ==>
      LineSamples(b, x0, y0, x1, y1) == MovetoSamples(b, Point(x0, y0)) + HorizRun(x0, y0, x1 - x0) + [Point(x1, y1)]
    ensures x0 > x1 && x0 - x1 < 65536 ==>
      LineSamples(b, x0, y0, x1, y1) == MovetoSamples(b, Point(x1, y1)) + HorizRun(x1, y1, x0 - x1)
                                       + (if x0 - x1 >= 2 then [Point(x1, y1)] else [])
    ensures x0 > x1 ==> Point(x0, y0) !in LineSamples(b, x0, y0, x1, y1)
  {
    if x0 > x1 {
      var w := WrapU16(x0 - x1);
      assert w <= x0 - x1;
      HorizRunAt(x1, y1, w);
      assert Point(x0, y0) !in HorizRun(x1, y1, w);
    }
  }

  /**
   * A vertical line of any length: `line_vert` receives the length as a
   * `uint16_t`, so the loop covers only |y1-y0| mod 65536 samples from the
   * low end before the beam jumps to (x1, y1). A length that is a multiple
   * of 65536 draws nothing between the two ends.
   */
  lemma VerticalLengthWraps(b: Point, x0: int, y0: int, x1: int, y1: int)
    requires x0 == x1
    ensures var lo, h := if y0 < y1 then y0 else y1, if y0 < y1 then WrapU16(y1 - y0) else WrapU16(y0 - y1);
      && |LineSamples(b, x0, y0, x1, y1)| <= h + 2
      && forall q :: q in LineSamples(b, x0, y0, x1, y1) ==>
           q == Point(x0, lo) || q == Point(x1, y1) || (q.x == x0 && lo < q.y < lo + h)
    ensures y0 < y1 && (y1 - y0) % 65536 == 0 ==>
      LineSamples(b, x0, y0, x1, y1) == MovetoSamples(b, Point(x0, y0)) + [Point(x1, y1)]
    ensures y0 > y1 && (y0 - y1) % 65536 == 0 ==>
      LineSamples(b, x0, y0, x1, y1) == MovetoSamples(b, Point(x1, y1))
  {
    var lo := if y0 < y1 then y0 else y1;
    var h := if y0 < y1 then WrapU16(y1 - y0) else WrapU16(y0 - y1);
    VertRunAt(x0, lo, h);
    assert LineSamples(b, x0, y0, x1, y1)
      == MovetoSamples(b, Point(x0, lo)) + VertRun(x0, lo, h) + MovetoSamples(VertEnd(x0, lo, h), Point(x1, y1));
  }

  /** The horizontal counterpart of `VerticalLengthWraps`, on x. */
  lemma HorizontalLengthWraps(b: Point, x0: int, y0: int, x1: int, y1: int)
    requires y0 == y1 && x0 != x1
    ensures var lo, w := if x0 < x1 then x0 else x1, if x0 < x1 then WrapU16(x1 - x0) else WrapU16(x0 - x1);
      && |LineSamples(b, x0, y0, x1, y1)| <= w + 2
      && forall q :: q in LineSamples(b, x0, y0, x1, y1) ==>
           q == Point(lo, y0) || q == Point(x1, y1) || (q.y == y0 && lo < q.x < lo + w)
    ensures x0 < x1 && (x1 - x0) % 65536 == 0 ==>
      LineSamples(b, x0, y0, x1, y1) == MovetoSamples(b, Point(x0, y0)) + [Point(x1, y1)]
    ensures x0 > x1 && (x0 - x1) % 65536 == 0 ==>
      LineSamples(b, x0, y0, x1, y1) == MovetoSamples(b, Point(x1, y1))
  {
    var lo := if x0 < x1 then x0 else x1;
    var w := if x0 < x1 then WrapU16(x1 - x0) else WrapU16(x0 - x1);
    HorizRunAt(lo, y0, w);
    assert LineSamples(b, x0, y0, x1, y1)
      == MovetoSamples(b, Point(lo, y0)) + HorizRun(lo, y0, w) + MovetoSamples(HorizEnd(lo, y0, w), Point(x1, y1));
  }

  /**
   * `lineto` from beam `b` in the general case: the leading `moveto` of
   * `line` emits nothing, so the first sample is already one unit away
   * from `b`, and only the Bresenham samples are emitted.
   */
  lemma LinetoGeneral(b: Point, x1: int, y1: int)
    requires b.x != x1 && b.y != y1
    ensures LineSamples(b, b.x, b.y, x1, y1) == GeneralRun(b.x, b.y, x1, y1)
    ensures UnitPath(b, LineSamples(b, b.x, b.y, x1, y1), if b.x < x1 then 1 else -1, if b.y < y1 then 1 else -1)
  {
    LineGeneral(b, b.x, b.y, x1, y1);
  }

  /**
   * The process-wide rasterizer state: the beam position `outX`/`outY`,
   * the sequence of samples handed to `_out` (ghost), and the DAC that
   * `_out` writes to.
   */
  class Beam {
    var outX: int
    var outY: int
    ghost var trace: seq<Point>
    const dac: Dac

    function Pos(): Point
      reads this
    {
      Point(outX, outY)
    }

    /** Every sample of the trace has gone through `writeDAC`, in order. */
    ghost predicate SinkInSync()
      reads this, dac
    {
      Fed(dac.calls, trace)
    }

    /** ... and the beam position is the last sample handed to `_out` (the origin before any). */
    ghost predicate Valid()
      reads this, dac
    {
      SinkInSync() && Pos() == LastOr(Origin, trace)
    }

    constructor ()
      ensures Valid() && fresh(dac)
      ensures Pos() == Origin && trace == [] && dac.calls == []
    {
      outX, outY := 0, 0;
      trace := [];
      dac := new Dac();
    }

    /** `_out`: hand the current beam position to `writeDAC`. */
    method Out()
      requires SinkInSync()
      modifies this, dac
      ensures Valid()
      ensures Pos() == old(Pos())
      ensures trace == old(trace) + [Pos()]
      ensures dac.calls == old(dac.calls) + [DacWrites(outX, outY)]
    {
      FedSnoc(dac.calls, trace, Pos());
      trace := trace + [Point(outX, outY)];
      dac.WriteDAC(outX, outY);
    }

    /** `moveto`: set the beam, emitting a sample only if it moves. */
    method Moveto(x: int, y: int)
      requires Valid()
      modifies this, dac
      ensures Valid()
      ensures Pos() == Point(x, y)
      ensures trace == old(trace) + MovetoSamples(old(Pos()), Point(x, y))
    {
      if outX == x && outY == y {
        return;
      }
      outX := x;
      outY := y;
      Out();
    }

    /** `line_vert`: move to (x0, y0), then emit (x0, y0 + i) for i = 0 .. h-1. */
    method LineVert(x0: int, y0: int, h: UInt16)
      requires Valid()
      modifies this, dac
      ensures Valid()
      ensures Pos() == VertEnd(x0, y0, h)
      ensures trace == old(trace) + LineVertSamples(old(Pos()), x0, y0, h)
    {
      Moveto(x0, y0);
      ghost var start := trace;
      var y := y0;
      for i := 0 to h
        invariant y == y0 + i
        invariant Valid()
        invariant Pos() == VertEnd(x0, y0, i)
        invariant trace == start + VertRun(x0, y0, i)
      {
        outY := y;
        y := y + 1;
        Out();
        Regroup(trace, start, VertRun(x0, y0, i), [Point(x0, y0 + i)]);
      }
    }

    /** `line_horiz`: move to (x0, y0), then emit (x0 + i, y0) for i = 0 .. w-1. */
    method LineHoriz(x0: int, y0: int, w: UInt16)
      requires Valid()
      modifies this, dac
      ensures Valid()
      ensures Pos() == HorizEnd(x0, y0, w)
      ensures trace == old(trace) + LineHorizSamples(old(Pos()), x0, y0, w)
    {
      Moveto(x0, y0);
      ghost var start := trace;
      var x := x0;
      for i := 0 to w
        invariant x == x0 + i
        invariant Valid()
        invariant Pos() == HorizEnd(x0, y0, i)
        invariant trace == start + HorizRun(x0, y0, i)
      {
        outX := x;
        x := x + 1;
        Out();
        Regroup(trace, start, HorizRun(x0, y0, i), [Point(x0 + i, y0)]);
      }
    }

    /** `line`: draw from (x0, y0) to (x1, y1), leaving the beam on (x1, y1). */
    method Line(x0: int, y0: int, x1: int, y1: int)
      requires Valid()
      modifies this, dac
      ensures Valid()
      ensures Pos() == Point(x1, y1)
      ensures trace == old(trace) + LineSamples(old(Pos()), x0, y0, x1, y1)
    {
      if x0 == x1 {
        Vertical(x0, y0, x1, y1);
        return;
      }
      if y0 == y1 {
        Horizontal(x0, y0, x1, y1);
        return;
      }
      Slant(x0, y0, x1, y1);
    }

    /** The vertical case of `line`: `line_vert` from the lower end, then `moveto(x1, y1)`. */
    method Vertical(x0: int, y0: int, x1: int, y1: int)
      requires Valid() && x0 == x1
      modifies this, dac
      ensures Valid()
      ensures Pos() == Point(x1, y1)
      ensures trace == old(trace) + VerticalSamples(old(Pos()), x0, y0, x1, y1)
    {
      if y0 < y1 {
        LineVert(x0, y0, WrapU16(y1 - y0));
      } else {
        LineVert(x0, y1, WrapU16(y0 - y1));
      }
      Moveto(x1, y1);
    }

    /** The horizontal case of `line`: `line_horiz` from the left end, then `moveto(x1, y1)`. */
    method Horizontal(x0: int, y0: int, x1: int, y1: int)
      requires Valid() && y0 == y1
      modifies this, dac
      ensures Valid()
      ensures Pos() == Point(x1, y1)
      ensures trace == old(trace) + HorizontalSamples(old(Pos()), x0, y0, x1, y1)
    {
      if x0 < x1 {
        LineHoriz(x0, y0, WrapU16(x1 - x0));
      } else {
        LineHoriz(x1, y0, WrapU16(x0 - x1));
      }
      Moveto(x1, y1);
    }

    /**
     * The general case of `line`: `moveto(x0, y0)`, then Bresenham steps
     * until the beam is on (x1, y1), with a sample after each advance.
     */
    method Slant(x0: int, y0: int, x1: int, y1: int)
      requires Valid() && x0 != x1 && y0 != y1
      modifies this, dac
      ensures Valid()
      ensures Pos() == Point(x1, y1)
      ensures trace == old(trace) + SlantSamples(old(Pos()), x0, y0, x1, y1)
    {
      ghost var t0, m := trace, MovetoSamples(Pos(), Point(x0, y0));
      var dx, dy, sx, sy;
      if x0 <= x1 {
        dx, sx := x1 - x0, 1;
      } else {
        dx, sx := x0 - x1, -1;
      }
      if y0 <= y1 {
        dy, sy := y1 - y0, 1;
      } else {
        dy, sy := y0 - y1, -1;
      }

      var err := dx - dy;

      Moveto(x0, y0);

      ghost var g := Slope(x1, y1, dx, dy, sx, sy);
      assert g == SlopeOf(x0, y0, x1, y1);
      InvAtStart(x0, y0, x1, y1);
      ghost var start := trace;
      ghost var run := GeneralRun(x0, y0, x1, y1);
      var x, y := x0, y0;
      assert run == Run(g, Cursor(x, y, err));
      while true
        invariant Inv(g, Cursor(x, y, err))
        invariant Valid() && Pos() == Point(x, y)
        invariant start + run == trace + Run(g, Cursor(x, y, err))
        decreases RemX(g, x) + RemY(g, y)
      {
        if x == x1 && y == y1 {
          break;
        }
        ghost var c := Cursor(x, y, err);
        ghost var before := trace;
        StepKeepsInv(g, c);
        RunUnfold(g, c);
        x, y, err := Step(g, x, y, err, dx, dy, sx, sy);
        Regroup(start + run, before, StepSamples(g, c), Run(g, Cursor(x, y, err)));
      }
      assert Run(g, Cursor(x, y, err)) == [];
      assert start == t0 + m;
      Regroup(start + run, t0, m, run);
    }

    /**
     * One iteration of the Bresenham loop of `line`: advance x when
     * `2*err > -dy` and y when `2*err < dx` (both decided by the same doubled
     * error), handing the beam to `_out` after each advance.
     */
    method Step(ghost g: Slope, x: int, y: int, err: int, dx: int, dy: int, sx: int, sy: int)
      returns (x': int, y': int, err': int)
      requires Valid() && Pos() == Point(x, y)
      requires g.dx == dx && g.dy == dy && g.sx == sx && g.sy == sy
      modifies this, dac
      ensures Valid() && Pos() == Point(x', y')
      ensures Cursor(x', y', err') == Next(g, Cursor(x, y, err))
      ensures trace == old(trace) + StepSamples(g, Cursor(x, y, err))
    {
      ghost var c := Cursor(x, y, err);
      ghost var n := Next(g, c);
      ghost var emitted: seq<Point> := [];
      x', y', err' := x, y, err;
      var e2 := 2 * err;
      if e2 > -dy {
        err' := err' - dy;
        x' := x' + sx;
        outX := x';
        Out();
        emitted := [Point(x', y)];
      }
      assert trace == old(trace) + emitted;
      if e2 < dx {
        err' := err' + dx;
        y' := y' + sy;
        outY := y';
        ghost var mid := trace;
        Out();
        emitted := emitted + [Point(x', y')];
        assert trace == mid + [Point(x', y')];
      }
      assert x' == n.x && y' == n.y && err' == n.err;
      assert emitted == StepSamples(g, c);
    }

    /** `lineto`: `line` from the current beam position. */
    method Lineto(x1: int, y1: int)
      requires Valid()
      modifies this, dac
      ensures Valid()
      ensures Pos() == Point(x1, y1)
      ensures trace == old(trace) + LineSamples(old(Pos()), old(Pos()).x, old(Pos()).y, x1, y1)
    {
      Line(outX, outY, x1, y1);
    }
  }
}
