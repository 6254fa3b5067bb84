/**
 * Fixed-point 2D rotation of vectors/vector.cpp: a `vector_rot_t` holds a
 * centre, a scale and an angle with its precomputed sine and cosine, and
 * `vector_rot_x` / `vector_rot_y` map a signed 8-bit offset (x, y) to an
 * unsigned 8-bit device coordinate around that centre.
 *
 * The sine and cosine tables are not part of this model; `vector_rot_init`
 * takes them as parameters.
 */
module Rotation {
  import opened CInt

  function Abs(v: int): nat
  {
    if v < 0 then -v else v
  }

  lemma AbsMul(a: int, b: int)
    ensures Abs(a * b) == Abs(a) * Abs(b)
  {
    if a < 0 && b < 0 {
      assert a * b == (-a) * (-b);
    } else if a < 0 {
      assert a * b == -((-a) * b);
    } else if b < 0 {
      assert a * b == -(a * (-b));
    }
  }

  /** |a * b| <= A * B whenever |a| <= A and |b| <= B. */
  lemma MulBound(a: int, b: int, A: nat, B: nat)
    requires Abs(a) <= A && Abs(b) <= B
    ensures Abs(a * b) <= A * B
  {
    AbsMul(a, b);
    var x, y := Abs(a), Abs(b);
    assert (A - x) * y >= 0;
    assert A * (B - y) >= 0;
  }

  /** A truncated quotient is no further from zero than any bound on the dividend allows. */
  lemma TruncDivAbs(a: int, b: int, M: nat)
    requires b > 0 && Abs(a) <= M * b
    ensures Abs(TruncDiv(a, b)) <= M
  {
    TruncDivBounds(a, b);
  }

  /** The rotated, scaled x term of the general path: `scale * (x*cos_t + y*sin_t)`. */
  function ProductX(scale: Int8, sinT: Int8, cosT: Int8, x: Int8, y: Int8): int
  {
    scale * (x * cosT + y * sinT)
  }

  /** The rotated, scaled y term of the general path: `scale * (y*cos_t - x*sin_t)`. */
  function ProductY(scale: Int8, sinT: Int8, cosT: Int8, x: Int8, y: Int8): int
  {
    scale * (y * cosT - x * sinT)
  }

  /** The products are at most 128 * (128*128 + 128*128) in magnitude. */
  lemma ProductBounds(scale: Int8, sinT: Int8, cosT: Int8, x: Int8, y: Int8)
    ensures Abs(ProductX(scale, sinT, cosT, x, y)) <= 4194304
    ensures Abs(ProductY(scale, sinT, cosT, x, y)) <= 4194304
  {
    MulBound(x, cosT, 128, 128);
    MulBound(y, sinT, 128, 128);
    MulBound(y, cosT, 128, 128);
    MulBound(x, sinT, 128, 128);
    MulBound(scale, x * cosT + y * sinT, 128, 32768);
    MulBound(scale, y * cosT - x * sinT, 128, 32768);
  }

  /** The `int32_t` intermediates of `vector_rot_x` and `vector_rot_y` never overflow. */
  lemma RotIntermediateFits(scale: Int8, sinT: Int8, cosT: Int8, x: Int8, y: Int8)
    ensures InInt32(ProductX(scale, sinT, cosT, x, y)) && InInt32(ProductY(scale, sinT, cosT, x, y))
    ensures InInt32(x * cosT) && InInt32(y * sinT) && InInt32(y * cosT) && InInt32(x * sinT)
    ensures InInt32(x * cosT + y * sinT) && InInt32(y * cosT - x * sinT)
    ensures InInt32(scale * x) && InInt32(scale * y)
  {
    MulBound(x, cosT, 128, 128);
    MulBound(y, sinT, 128, 128);
    MulBound(y, cosT, 128, 128);
    MulBound(x, sinT, 128, 128);
    ProductBounds(scale, sinT, cosT, x, y);
    MulBound(scale, x, 128, 128);
    MulBound(scale, y, 128, 128);
  }

  /**
   * The signed offset `vector_rot_x` adds to the centre: at angle 0 the fast
   * path `scale*x/64`, otherwise the rotated product over 32*256, both with
   * C's truncating division. Never more than 512 from the centre, and never
   * more than 256 on the fast path.
   */
  function OffsetX(scale: Int8, theta: UInt8, sinT: Int8, cosT: Int8, x: Int8, y: Int8): (w: int)
    ensures Abs(w) <= 512
    ensures theta == 0 ==> Abs(w) <= 256
  {
    if theta != 0 then
      ProductBounds(scale, sinT, cosT, x, y);
      TruncDivAbs(ProductX(scale, sinT, cosT, x, y), 32 * 256, 512);
      TruncDiv(ProductX(scale, sinT, cosT, x, y), 32 * 256)
    else
      MulBound(scale, x, 128, 128);
      TruncDivAbs(scale * x, 64, 256);
      TruncDiv(scale * x, 64)
  }

  /** The offset `vector_rot_y` adds to its centre, with the same bounds. */
  function OffsetY(scale: Int8, theta: UInt8, sinT: Int8, cosT: Int8, x: Int8, y: Int8): (z: int)
    ensures Abs(z) <= 512
    ensures theta == 0 ==> Abs(z) <= 256
  {
    if theta != 0 then
      ProductBounds(scale, sinT, cosT, x, y);
      TruncDivAbs(ProductY(scale, sinT, cosT, x, y), 32 * 256, 512);
      TruncDiv(ProductY(scale, sinT, cosT, x, y), 32 * 256)
    else
      MulBound(scale, y, 128, 128);
      TruncDivAbs(scale * y, 64, 256);
      TruncDiv(scale * y, 64)
  }

  /**
   * At angle 0 the x offset depends on x and the scale only (not on y nor on
   * the stored sine and cosine), and the y offset on y and the scale only.
   */
  lemma ZeroAngleIgnoresOther(scale: Int8, sinT: Int8, cosT: Int8, sinT': Int8, cosT': Int8,
                              x: Int8, y: Int8, x': Int8, y': Int8)
    ensures OffsetX(scale, 0, sinT, cosT, x, y) == OffsetX(scale, 0, sinT', cosT', x, y')
    ensures OffsetY(scale, 0, sinT, cosT, x, y) == OffsetY(scale, 0, sinT', cosT', x', y)
  {
  }

  /** At angle 0 the offsets are the fast path's `scale*x/64` and `scale*y/64`, truncated. */
  lemma ZeroAngleOffsets(scale: Int8, sinT: Int8, cosT: Int8, x: Int8, y: Int8)
    ensures OffsetX(scale, 0, sinT, cosT, x, y) == TruncDiv(scale * x, 64)
    ensures OffsetY(scale, 0, sinT, cosT, x, y) == TruncDiv(scale * y, 64)
  {
  }

  /**
   * Reflecting the input through the centre reflects the offset: truncating
   * division keeps both paths odd, so (-x, -y) lands exactly opposite (x, y).
   */
  lemma OffsetOdd(scale: Int8, theta: UInt8, sinT: Int8, cosT: Int8, x: Int8, y: Int8)
    requires x > -128 && y > -128
    ensures OffsetX(scale, theta, sinT, cosT, -x, -y) == -OffsetX(scale, theta, sinT, cosT, x, y)
    ensures OffsetY(scale, theta, sinT, cosT, -x, -y) == -OffsetY(scale, theta, sinT, cosT, x, y)
  {
    assert ProductX(scale, sinT, cosT, -x, -y) == -ProductX(scale, sinT, cosT, x, y);
    assert ProductY(scale, sinT, cosT, -x, -y) == -ProductY(scale, sinT, cosT, x, y);
    assert scale * -x == -(scale * x) && scale * -y == -(scale * y);
    TruncDivOdd(ProductX(scale, sinT, cosT, x, y), 32 * 256);
    TruncDivOdd(ProductY(scale, sinT, cosT, x, y), 32 * 256);
    TruncDivOdd(scale * x, 64);
    TruncDivOdd(scale * y, 64);
  }

  /**
   * The fast path is not the general path with the angle-0 sine and cosine:
   * no `int8_t` cosine makes them agree. At scale 127 and x = 127 the fast
   * path gives 252, while the general path gives at most 250 whatever the
   * cosine, because `cos_t` cannot reach 128.
   */
  lemma FastPathNotGeneralAtZero(sinT: Int8, cosT: Int8)
    ensures OffsetX(127, 0, sinT, cosT, 127, 0) == 252
    ensures TruncDiv(ProductX(127, sinT, cosT, 127, 0), 32 * 256) <= 250
  {
    var p := ProductX(127, sinT, cosT, 127, 0);
    assert p == 16129 * cosT;
    if cosT >= 0 {
      assert p <= 16129 * 127;
      TruncDivBounds(p, 32 * 256);
    } else {
      TruncDivBounds(p, 32 * 256);
    }
  }

  /** A rotation context (`vector_rot_t`): centre, scale, angle and its sine and cosine. */
  class VectorRot {
    var cx: UInt8
    var cy: UInt8
    var scale: Int8
    var theta: UInt8
    var sinT: Int8
    var cosT: Int8

    constructor (cx: UInt8, cy: UInt8, scale: Int8, theta: UInt8, sinT: Int8, cosT: Int8)
      ensures this.cx == cx && this.cy == cy && this.scale == scale
      ensures this.theta == theta && this.sinT == sinT && this.cosT == cosT
    {
      this.cx, this.cy, this.scale := cx, cy, scale;
      this.theta, this.sinT, this.cosT := theta, sinT, cosT;
    }

    /**
     * `vector_rot_init`: set the angle and look up its sine and cosine. The
     * centre and the scale are left as they were.
     */
    method Init(theta: UInt8, sinLookup: UInt8 -> Int8, cosLookup: UInt8 -> Int8)
      modifies this
      ensures this.theta == theta && sinT == sinLookup(theta) && cosT == cosLookup(theta)
      ensures cx == old(cx) && cy == old(cy) && scale == old(scale)
    {
      this.theta := theta;
      sinT := sinLookup(theta);
      cosT := cosLookup(theta);
    }

    /**
     * `vector_rot_x`: the centre plus the x offset, as a `uint8_t`. The result
     * is congruent to cx + offset modulo 256, and equal to it whenever that
     * sum is itself in 0..255.
     */
    function RotX(x: Int8, y: Int8): (v: UInt8)
      reads this
      ensures (cx + OffsetX(scale, theta, sinT, cosT, x, y) - v) % 256 == 0
      ensures 0 <= cx + OffsetX(scale, theta, sinT, cosT, x, y) < 256 ==> v == cx + OffsetX(scale, theta, sinT, cosT, x, y)
    {
      WrapU8(OffsetX(scale, theta, sinT, cosT, x, y) + cx)
    }

    /** `vector_rot_y`: the centre plus the y offset, as a `uint8_t`. */
    function RotY(x: Int8, y: Int8): (v: UInt8)
      reads this
      ensures (cy + OffsetY(scale, theta, sinT, cosT, x, y) - v) % 256 == 0
      ensures 0 <= cy + OffsetY(scale, theta, sinT, cosT, x, y) < 256 ==> v == cy + OffsetY(scale, theta, sinT, cosT, x, y)
    {
      WrapU8(OffsetY(scale, theta, sinT, cosT, x, y) + cy)
    }
  }

  /** At angle 0, `vector_rot_x` ignores y and `vector_rot_y` ignores x. */
  lemma ZeroAngleRot(r: VectorRot, x: Int8, y: Int8, x': Int8, y': Int8)
    requires r.theta == 0
    ensures r.RotX(x, y) == r.RotX(x, y') && r.RotY(x, y) == r.RotY(x', y)
    ensures r.RotX(x, y) == WrapU8(r.cx + TruncDiv(r.scale * x, 64))
    ensures r.RotY(x, y) == WrapU8(r.cy + TruncDiv(r.scale * y, 64))
  {
    ZeroAngleIgnoresOther(r.scale, r.sinT, r.cosT, r.sinT, r.cosT, x, y, x', y');
    ZeroAngleOffsets(r.scale, r.sinT, r.cosT, x, y);
    assert r.RotX(x, y) == WrapU8(OffsetX(r.scale, 0, r.sinT, r.cosT, x, y) + r.cx);
    assert r.RotY(x, y) == WrapU8(OffsetY(r.scale, 0, r.sinT, r.cosT, x, y) + r.cy);
  }

  /** `scaling`: the product of a length and a scale factor, converted to `uint16_t`. */
  function Scaling(d: UInt16, scale: UInt8): (r: UInt16)
    ensures (d * scale - r) % 65536 == 0
    ensures d * scale < 65536 ==> r == d * scale
  {
    WrapU16(d * scale)
  }
}
