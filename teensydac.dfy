/**
 * The output sink of vectors/teensydac.h: `writeDAC` forwards a coordinate
 * pair to the two 12-bit DAC pins of a Teensy 3.5/3.6, and silently drops
 * any pair that has a coordinate outside the DAC's range.
 */
module TeensyDac {

  /** A coordinate pair, as handed to the sink. */
  datatype Point = Point(x: int, y: int)

  /** The two analog output pins (`DAC_X_PIN`, `DAC_Y_PIN`). */
  datatype Pin = DacXPin | DacYPin

  /** One `analogWrite(pin, value)` call. */
  datatype PinWrite = PinWrite(pin: Pin, value: int)

  const DacRes: nat := 12
  const DacMaxX: int := 4095
  const DacMaxY: int := 4095

  function Pow2(n: nat): (r: nat)
    ensures r >= 1
  {
    if n == 0 then 1 else 2 * Pow2(n - 1)
  }

  /** Both ceilings are the full scale of a `dacRes`-bit converter. */
  lemma DacMaxIsFullScale()
    ensures DacMaxX == DacMaxY == Pow2(DacRes) - 1
  {
  }

  /**
   * The range test of `writeDAC`, both bounds inclusive on both channels:
   * a pair passes exactly when each coordinate fits a `dacRes`-bit code.
   */
  predicate InDacRange(xx: int, yy: int)
    ensures InDacRange(xx, yy) <==> 0 <= xx < Pow2(DacRes) && 0 <= yy < Pow2(DacRes)
  {
    DacMaxIsFullScale();
    0 <= xx <= DacMaxX && 0 <= yy <= DacMaxY
  }

  /** The pin writes one `writeDAC(xx, yy)` call performs. */
  function DacWrites(xx: int, yy: int): (r: seq<PinWrite>)
    ensures r == [] || r == [PinWrite(DacXPin, xx), PinWrite(DacYPin, yy)]
    ensures r != [] <==> InDacRange(xx, yy)
  {
    if xx >= 0 && xx <= DacMaxX then
      if yy >= 0 && yy <= DacMaxY then
        [PinWrite(DacXPin, xx), PinWrite(DacYPin, yy)]
      else
        []
    else
      []
  }

  /** The edges of the range: 0 and 4095 pass, -1 and 4096 are dropped. */
  lemma DacBoundsInclusive()
    ensures DacWrites(0, 0) != [] && DacWrites(4095, 4095) != []
    ensures DacWrites(-1, 0) == [] && DacWrites(4096, 0) == []
    ensures DacWrites(0, -1) == [] && DacWrites(0, 4096) == []
    ensures DacWrites(4095, 4096) == [] && DacWrites(-1, 4095) == []
  {
  }

  /** The two DAC pins, observed through the `analogWrite` calls made by each `writeDAC` call. */
  class Dac {
    ghost var calls: seq<seq<PinWrite>>

    constructor ()
      ensures calls == []
    {
      calls := [];
    }

    /** `writeDAC`: both channels are written, X first, or neither is. */
    method WriteDAC(xx: int, yy: int)
      modifies this
      ensures calls == old(calls) + [DacWrites(xx, yy)]
    {
      ghost var w: seq<PinWrite> := [];
      if xx >= 0 && xx <= DacMaxX {
        if yy >= 0 && yy <= DacMaxY {
          w := w + [PinWrite(DacXPin, xx)];
          w := w + [PinWrite(DacYPin, yy)];
        }
      }
      assert w == DacWrites(xx, yy);
      calls := calls + [w];
    }
  }

  /** The `analogWrite` calls of a sequence of `writeDAC` calls, in the order they happen. */
  function Flatten(calls: seq<seq<PinWrite>>): seq<PinWrite>
  {
    if calls == [] then [] else Flatten(calls[..|calls| - 1]) + calls[|calls| - 1]
  }

  /** `calls` is what `writeDAC` does when fed the samples `s` one by one. */
  ghost predicate Fed(calls: seq<seq<PinWrite>>, s: seq<Point>)
  {
    |calls| == |s| && forall k {:trigger FedAt(calls, s, k)} :: 0 <= k < |s| ==> FedAt(calls, s, k)
  }

  /** The k-th `writeDAC` call was made with the k-th sample. */
  ghost predicate FedAt(calls: seq<seq<PinWrite>>, s: seq<Point>, k: int)
  {
    0 <= k < |calls| && k < |s| && calls[k] == DacWrites(s[k].x, s[k].y)
  }

  /** Feeding one more sample to `writeDAC` extends the correspondence. */
  lemma FedSnoc(calls: seq<seq<PinWrite>>, s: seq<Point>, p: Point)
    requires Fed(calls, s)
    ensures Fed(calls + [DacWrites(p.x, p.y)], s + [p])
  {
    var calls', s' := calls + [DacWrites(p.x, p.y)], s + [p];
    forall k | 0 <= k < |s'|
      ensures FedAt(calls', s', k)
    {
      if k < |s| {
        assert FedAt(calls, s, k);
      }
    }
  }

  /** The pin-level output of feeding `s` to `writeDAC` is `Accepted(s)`. */
  lemma {:induction false} FlattenFed(calls: seq<seq<PinWrite>>, s: seq<Point>)
    requires Fed(calls, s)
    ensures Flatten(calls) == Accepted(s)
    decreases |s|
  {
    if s != [] {
      var n := |s| - 1;
      forall k | 0 <= k < n
        ensures FedAt(calls[..n], s[..n], k)
      {
        assert FedAt(calls, s, k);
      }
      FlattenFed(calls[..n], s[..n]);
      assert FedAt(calls, s, n);
    }
  }

  /** The pin writes produced by feeding a sequence of samples to `writeDAC`, in order. */
  function Accepted(samples: seq<Point>): seq<PinWrite>
  {
    if samples == [] then []
    else
      var last := samples[|samples| - 1];
      Accepted(samples[..|samples| - 1]) + DacWrites(last.x, last.y)
  }

  /** Feeding two runs of samples one after the other gives the two runs' writes, in order. */
  lemma {:induction false} AcceptedAppend(s: seq<Point>, t: seq<Point>)
    ensures Accepted(s + t) == Accepted(s) + Accepted(t)
    decreases |t|
  {
    if t == [] {
      assert s + t == s;
    } else {
      var t' := t[..|t| - 1];
      assert (s + t)[..|s + t| - 1] == s + t';
      AcceptedAppend(s, t');
    }
  }

  /** Every value the sink ever writes is within the channel's range. */
  lemma {:induction false} AcceptedInRange(s: seq<Point>)
    ensures forall w :: w in Accepted(s) ==> 0 <= w.value <= 4095
    decreases |s|
  {
    if s != [] {
      AcceptedInRange(s[..|s| - 1]);
    }
  }

  /** Two writes per in-range sample and none per out-of-range one: nothing is clamped. */
  lemma {:induction false} AcceptedCount(s: seq<Point>)
    ensures |Accepted(s)| == 2 * |InRangeSamples(s)|
    decreases |s|
  {
    if s != [] {
      AcceptedCount(s[..|s| - 1]);
    }
  }

  /** The writes of samples all of which pass the range test: X then Y, per sample, unchanged. */
  function PinPairs(s: seq<Point>): seq<PinWrite>
  {
    if s == [] then []
    else
      var last := s[|s| - 1];
      PinPairs(s[..|s| - 1]) + [PinWrite(DacXPin, last.x), PinWrite(DacYPin, last.y)]
  }

  lemma {:induction false} PinPairsAppend(s: seq<Point>, t: seq<Point>)
    ensures PinPairs(s + t) == PinPairs(s) + PinPairs(t)
    decreases |t|
  {
    if t == [] {
      assert s + t == s;
    } else {
      var t' := t[..|t| - 1];
      assert (s + t)[..|s + t| - 1] == s + t';
      PinPairsAppend(s, t');
    }
  }

  /** The sink's output is exactly the in-range samples, each written X then Y, unchanged. */
  lemma {:induction false} AcceptedIsFilteredPairs(s: seq<Point>)
    ensures Accepted(s) == PinPairs(InRangeSamples(s))
    decreases |s|
  {
    if s != [] {
      var s', last := s[..|s| - 1], s[|s| - 1];
      AcceptedIsFilteredPairs(s');
      if InDacRange(last.x, last.y) {
        PinPairsAppend(InRangeSamples(s'), [last]);
        assert PinPairs([last]) == PinPairs([]) + [PinWrite(DacXPin, last.x), PinWrite(DacYPin, last.y)];
      } else {
        assert InRangeSamples(s) == InRangeSamples(s');
      }
    }
  }

  /** The samples of `s` that `writeDAC` forwards, in order. */
  function InRangeSamples(s: seq<Point>): seq<Point>
  {
    if s == [] then []
    else
      var last := s[|s| - 1];
      InRangeSamples(s[..|s| - 1]) + if InDacRange(last.x, last.y) then [last] else []
  }
}
