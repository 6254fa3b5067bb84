# scope_class vector core, modelled in Dafny

This project models the integer core of the scope_class XY vector-display
driver. It has three layers.

- The cursor and line rasterizer of `vectors/vector.cpp` keeps the
  process-wide beam position `outX`/`outY`. It hands that position to the
  sink through `_out`, and it draws with `moveto`, `line_vert`,
  `line_horiz`, `line` (vertical, horizontal and Bresenham cases) and
  `lineto`.
- The Teensy DAC sink of `vectors/teensydac.h` is `writeDAC`. It forwards a
  pair to the X and Y pins only when both coordinates are in 0..4095.
- Two users of the rasterizer, both in `vectors/vector.cpp`:
  - the stroke-font renderer `draw_character`, `draw_string` and `size_string`;
  - the fixed-point rotation helpers `vector_rot_init`, `vector_rot_x` and `vector_rot_y`, with `scaling`.

Modules:

- `CInt` (`cint.dfy`) holds the C integer widths. It also has the
  conversions to `uint8_t`/`uint16_t` (reduction modulo 2^8 and 2^16) and
  C's truncating division `TruncDiv`.
- `TeensyDac` (`teensydac.dfy`) has the `Dac` class. Its ghost field
  `calls` records, for each `writeDAC` call, the `analogWrite`s it made;
  the range test that decides them is ordinary code.
  - `Accepted` and `InRangeSamples` describe what reaches the pins for a
    sequence of attempted samples.
- `Trace` (`trace.dfy`) covers where a run of samples leaves the beam and
  unit-step paths.
- `Bresenham` (`bresenham.dfy`) covers the general-slope loop of `line`:
  - its state, one iteration (`Next`, `StepSamples`) and its loop invariant;
  - termination on the target after exactly `dx + dy` samples;
  - unit steps and no overshoot.
- `Raster` (`raster.dfy`) has the `Beam` class. Its fields `outX`/`outY`
  are the beam. Its ghost `trace` is every sample handed to `_out`, in
  order. Its `dac` is the sink.
  - Each method mirrors the C code, loop for loop.
  - Each method is proved to append exactly the samples its specification
    function gives (`MovetoSamples`, `LineVertSamples`, `LineSamples`, …).
  - `Beam.Valid` is kept by every method: the DAC has been fed exactly
    the trace, and the beam sits on the last sample.
- `Rotation` (`rotation.dfy`) models `vector_rot_t` as a class.
  - `vector_rot_init` updates the record in place.
  - The signed offsets of `vector_rot_x`/`vector_rot_y` are pure functions
    with C's truncating division and the final `uint8_t` wrap.
- `Font` (`font.dfy`) has the renderer.
  - A glyph's entries become a sequence of `moveto`/`lineto` commands.
  - `GlyphRun`/`StringRun` give the samples a glyph or a string hands to
    `_out`, entry by entry.
  - They are proved equal to issuing the commands one after the other.
  - `DrawCharacter`/`DrawString` mirror the C loops. `DrawStrokes` and
    `DrawEntry` carry a ghost parameter `emit` that their precondition
    makes equal to the beam's per-command samples; `DrawCharacter` passes
    exactly those. It only keeps the proofs small and changes no behaviour.

The sink keeps two traces, as in the device:

- the beam's `trace` of attempted samples, which `outX`/`outY` follow even
  when the DAC rejects the pair;
- the DAC's per-call writes.

`FlattenFed` and `AcceptedIsFilteredPairs` relate the two. The pins see
exactly the in-range samples, each as an X write then a Y write, unchanged.

Behaviour of the code that a reader might not expect, all stated as
lemmas:

- A vertical or horizontal `line` given from the high end to the low end
  never emits (x0, y0), whatever its length. For a length |Δ| < 65536 it
  starts at (x1, y1) and runs up to one short of (x0, y0). When |Δ| ≥ 2
  it then jumps back to (x1, y1) (`LineVertical`, `LineHorizontal`).
- `line_vert` and `line_horiz` take their length as a `uint16_t`. An axis
  line with |Δ| ≥ 65536 therefore runs only |Δ| mod 65536 samples from its
  low end and then jumps to (x1, y1). When |Δ| is a multiple of 65536 it
  draws nothing between its two ends (`VerticalLengthWraps`,
  `HorizontalLengthWraps`).
- `writeDAC` drops an out-of-range pair entirely; it never clamps it
  (`AcceptedCount`, `AcceptedIsFilteredPairs`).
- The angle-0 fast path of `vector_rot_x` (`scale*x/64`) is not the general
  path evaluated at angle 0. The two would agree only with a cosine of 128,
  which an `int8_t` cannot hold (`FastPathNotGeneralAtZero`).

## Model

| member | source | states |
|---|---|---|
| CInt.WrapU8 | vectors/vector.cpp:180 | conversion to `uint8_t`: the result is in 0..255, congruent to the input modulo 256, and equal to it when it already fits |
| CInt.WrapU16 | vectors/vector.cpp:86-98 | conversion of a length to `uint16_t`: in 0..65535, congruent modulo 65536, unchanged when it fits |
| CInt.TruncDivBounds | vectors/vector.cpp:175-197 | C's `/` (`TruncDiv`) rounds toward zero: the quotient times the divisor is the multiple nearest zero within one divisor of the dividend, with the dividend's sign |
| CInt.TruncDivOdd | vectors/vector.cpp:175-177 | C's `/` is symmetric about zero: `(-a)/b == -(a/b)` |
| CInt.TruncDivFromEuclid | vectors/vector.cpp:175-197 | for every dividend and positive divisor, C's `/` equals Euclidean `/` when the dividend is non-negative or the division is exact, and is one more than it for a negative dividend with a remainder |
| TeensyDac.DacMaxIsFullScale | vectors/teensydac.h:11-14 | both ceilings equal 2^dacRes - 1 = 4095 |
| TeensyDac.InDacRange | vectors/teensydac.h:19-21 | the range test passes exactly when both coordinates fit an unsigned `dacRes`-bit code, i.e. lie in 0..2^12 - 1 |
| TeensyDac.DacWrites | vectors/teensydac.h:17-27 | a `writeDAC` call makes the X write then the Y write with the values unchanged, exactly when both coordinates are in range, and nothing otherwise |
| TeensyDac.DacBoundsInclusive | vectors/teensydac.h:19-21 | 0 and 4095 pass on both channels; -1 and 4096 are dropped |
| TeensyDac.Dac.constructor | vectors/teensydac.h:17-27 | no pin has been written yet |
| TeensyDac.Dac.WriteDAC | vectors/teensydac.h:17-27 | appends the writes of one call, as `DacWrites` gives them, and changes nothing else |
| TeensyDac.FlattenFed | vectors/teensydac.h:17-27 | feeding samples to `writeDAC` one by one produces, on the pins, `Accepted` of those samples |
| TeensyDac.AcceptedAppend | vectors/teensydac.h:17-27 | the pin output of two runs of samples is the first run's output followed by the second's |
| TeensyDac.AcceptedInRange | vectors/teensydac.h:19-24 | every value written to a pin lies in 0..4095 |
| TeensyDac.AcceptedCount | vectors/teensydac.h:19-26 | exactly two writes per in-range sample and none per other sample: both channels or neither, never clamped |
| TeensyDac.AcceptedIsFilteredPairs | vectors/teensydac.h:19-26 | the pin output is the in-range samples, in order, each as X then Y, unchanged |
| Bresenham.SlopeOf | vectors/vector.cpp:103-119 | `dx`, `dy` are non-negative, `sx`, `sy` are ±1, and start plus direction times delta is the target on each axis |
| Bresenham.InvAtStart | vectors/vector.cpp:121-123 | the loop invariant holds on entry, with `err = dx - dy` |
| Bresenham.StepKeepsInv | vectors/vector.cpp:125-145 | one iteration away from the target keeps the invariant, advances at least one axis, and brings each advanced axis one unit closer |
| Bresenham.RunUnfold | vectors/vector.cpp:125-145 | away from the target, the loop's samples are one iteration's samples followed by the loop's samples from the next state |
| Bresenham.RunLength | vectors/vector.cpp:125-145 | the loop emits exactly as many samples as the remaining distance, `dx + dy` from the start |
| Bresenham.RunEndsOnTarget | vectors/vector.cpp:125-128 | the loop stops exactly on (x1, y1) |
| Bresenham.RunUnitSteps | vectors/vector.cpp:130-142 | every loop sample moves one axis by one unit, x only by `sx` and y only by `sy` |
| Bresenham.RunNoOvershoot | vectors/vector.cpp:125-145 | no sample passes the target or falls behind the start, on either axis |
| Raster.MovetoSamples | vectors/vector.cpp:27-35 | `moveto` emits no sample exactly when the beam is already on the target, otherwise one, and leaves the beam on the target |
| Raster.MovetoTwice | vectors/vector.cpp:27-35 | a second `moveto` to the same point emits nothing more |
| Raster.VertRunAt | vectors/vector.cpp:49-54 | the loop of `line_vert` emits h samples, the k-th being (x0, y0 + k) |
| Raster.HorizRunAt | vectors/vector.cpp:61-66 | the loop of `line_horiz` emits w samples, the k-th being (x0 + k, y0) |
| Raster.LineVertSamples | vectors/vector.cpp:46-55 | `line_vert` emits the `moveto` sample (if any) and then h samples, the first repeating (x0, y0), and stops one short of y0 + h |
| Raster.LineHorizSamples | vectors/vector.cpp:58-67 | the same for `line_horiz` on x |
| Raster.LineEndsOnTarget | vectors/vector.cpp:76-146 | in each of the three cases of `line`, the last sample is (x1, y1) |
| Raster.LineZeroLength | vectors/vector.cpp:83-91 | a zero-length line emits at most one sample, and none when the beam is already there |
| Raster.LineGeneral | vectors/vector.cpp:103-145 | general case: a `moveto(x0, y0)`, then exactly `dx + dy` unit steps (absolute deltas) towards the target, all within the bounding box, the last on (x1, y1) |
| Raster.LineVertical | vectors/vector.cpp:83-91 | for a length below 65536: upward, every y from y0 to y1 in order; downward, from (x1, y1) up to y0 - 1, then back to (x1, y1) when the length is at least 2. Downward at any length, (x0, y0) is never emitted |
| Raster.LineHorizontal | vectors/vector.cpp:93-101 | the same on x for a horizontal line, for a length below 65536 |
| Raster.VerticalLengthWraps | vectors/vector.cpp:83-91 | at any length the `uint16_t` length makes the loop cover only the length mod 65536 samples from the low end: every sample is an end of the line or lies strictly inside that wrapped span, there are at most that many plus two, and a length that is a multiple of 65536 emits nothing but its ends |
| Raster.HorizontalLengthWraps | vectors/vector.cpp:93-101 | the same on x for a horizontal line |
| Raster.LinetoGeneral | vectors/vector.cpp:70-73 | `lineto` in the general case: the leading `moveto` of `line` emits nothing, and the samples form a unit-step path from the beam |
| Raster.Beam.constructor | vectors/vector.cpp:17-18 | the beam starts at (0, 0) with no sample emitted and no pin written |
| Raster.Beam.Out | vectors/vector.cpp:21-24 | `_out` appends the beam position to the trace and makes one `writeDAC` call with it; the beam does not move |
| Raster.Beam.Moveto | vectors/vector.cpp:27-35 | the beam ends on (x, y) and the trace grows by `MovetoSamples` |
| Raster.Beam.LineVert | vectors/vector.cpp:46-55 | the trace grows by exactly `LineVertSamples`, and the beam ends on its last sample |
| Raster.Beam.LineHoriz | vectors/vector.cpp:58-67 | the trace grows by exactly `LineHorizSamples`, and the beam ends on its last sample |
| Raster.Beam.Line | vectors/vector.cpp:76-146 | the beam ends on (x1, y1) and the trace grows by `LineSamples` |
| Raster.Beam.Vertical | vectors/vector.cpp:83-91 | the vertical case: `line_vert` from the low end with the length as `uint16_t`, then `moveto(x1, y1)` |
| Raster.Beam.Horizontal | vectors/vector.cpp:93-101 | the horizontal case, likewise |
| Raster.Beam.Slant | vectors/vector.cpp:103-145 | the general case terminates with the beam on (x1, y1), having emitted the `moveto` sample and then the Bresenham samples |
| Raster.Beam.Step | vectors/vector.cpp:130-142 | one loop iteration: both tests on the same doubled error, a sample after each advance |
| Raster.Beam.Lineto | vectors/vector.cpp:70-73 | `line` from the current beam position |
| Rotation.ProductBounds | vectors/vector.cpp:175-195 | the scaled rotated products are at most 2^22 in magnitude |
| Rotation.RotIntermediateFits | vectors/vector.cpp:169-197 | no `int32_t` intermediate of `vector_rot_x`/`vector_rot_y` can overflow for `int8_t` inputs: the four single products `x*cos_t`, `y*sin_t`, `y*cos_t`, `x*sin_t`, their sum and difference, the scaled products, and `scale*x`, `scale*y` |
| Rotation.OffsetX | vectors/vector.cpp:169-178 | the offset added to `cx` is within 512 of zero, and within 256 on the angle-0 path |
| Rotation.OffsetY | vectors/vector.cpp:190-197 | the same for the offset added to `cy` |
| Rotation.ZeroAngleOffsets | vectors/vector.cpp:176-197 | at angle 0 the offsets are `scale*x/64` and `scale*y/64` with C's truncating `/` |
| Rotation.ZeroAngleIgnoresOther | vectors/vector.cpp:171-197 | at angle 0 the x offset ignores y and the stored sine and cosine, and the y offset ignores x |
| Rotation.OffsetOdd | vectors/vector.cpp:169-197 | offsets are odd: (-x, -y) lands exactly opposite (x, y), because C's `/` truncates |
| Rotation.FastPathNotGeneralAtZero | vectors/vector.cpp:171-178 | at angle 0, scale 127 and x = 127, the fast path gives 252 while the general path gives at most 250 for every `int8_t` cosine |
| Rotation.VectorRot.constructor | vectors/vector.h:23-38 | a record holding the given `uint8_t` centre, `int8_t` scale, `uint8_t` angle and `int8_t` sine and cosine |
| Rotation.VectorRot.Init | vectors/vector.cpp:150-159 | sets the angle and its looked-up sine and cosine; the centre and the scale are unchanged |
| Rotation.VectorRot.RotX | vectors/vector.cpp:162-181 | a `uint8_t` congruent to cx plus the x offset modulo 256, and equal to it when that sum is in 0..255 |
| Rotation.VectorRot.RotY | vectors/vector.cpp:183-200 | the same for cy plus the y offset |
| Rotation.ZeroAngleRot | vectors/vector.cpp:171-197 | at angle 0, `vector_rot_x` is `(cx + scale*x/64) mod 256` and ignores y; `vector_rot_y` is `(cy + scale*y/64) mod 256` and ignores x |
| Rotation.Scaling | vectors/vector.cpp:290-292 | `scaling` is the product modulo 65536, equal to it when it fits |
| Font.ScaledBounds | vectors/vector.cpp:241-252 | the scaling `(d*size)*3/4` of glyph deltas and of the advance is three quarters of `d*size` rounded toward zero: within one unit below it for a non-negative product, above it for a negative one |
| Font.EntryCommands | vectors/vector.cpp:235-249 | a pen-up entry issues no command; any other entry issues exactly one |
| Font.StrokeCount | vectors/vector.cpp:231-250 | a glyph issues one command per entry that is not a pen-up marker |
| Font.StrokesStartWithMove | vectors/vector.cpp:229-249 | the first command a glyph issues is a `moveto`, and while nothing is issued the pen stays lifted |
| Font.StrokeTargets | vectors/vector.cpp:233-247 | every command goes to the glyph origin plus the scaled delta, `(d*size)*3/4`, of an entry that is not a pen-up marker |
| Font.PenUpOnlyGlyphIssuesNothing | vectors/vector.cpp:231-239 | a glyph with no entries, or with pen-up markers only, issues no command |
| Font.CmdSamples | vectors/vector.cpp:244-247 | a `moveto` or `lineto` leaves the beam on its target |
| Font.CmdSamplesEndsOnTarget | vectors/vector.cpp:244-247 | the same, for every beam position and every command |
| Font.RunEndIsLastSample | vectors/vector.cpp:231-250 | after a run of commands the beam is on the last command's target, which is the last sample emitted |
| Font.RunSamplesSnoc | vectors/vector.cpp:244-247 | one more command appends its samples, issued from where the run left the beam |
| Font.RunSamplesAppend | vectors/vector.cpp:258-262 | two runs of commands issued one after the other emit the first run's samples, then the second's from where the first left the beam |
| Font.SizeString | vectors/vector.cpp:267-277 | `size_string` is 0 for the empty string and one advance `(width*size)*3/4` for a single character; with `SizeStringAppend` this fixes it as the sum of the advances |
| Font.ExtentConcat | vectors/vector.cpp:267-277 | the extent of a prefix of `s + t` splits at the join |
| Font.SizeStringAppend | vectors/vector.cpp:267-277 | `size_string` of a concatenation is the sum of the two |
| Font.GlyphEndIsRunEnd | vectors/vector.cpp:231-250 | a glyph leaves the beam where its last command sends it, or where it was if it issues none |
| Font.GlyphRunIsRunSamples | vectors/vector.cpp:231-250 | a glyph emits exactly the samples of its commands, issued in order |
| Font.StringRunIsRunSamples | vectors/vector.cpp:256-264 | a string emits exactly the samples of its characters' commands, issued in order, and ends where they end |
| Font.StringSamplesAreCommandSamples | vectors/vector.cpp:256-264 | for the whole string, the samples and the end point are those of `StringCommands`, every glyph's commands placed at its running x |
| Font.PenUpStep | vectors/vector.cpp:235-239 | a pen-up entry leaves the beam and the emitted samples unchanged |
| Font.PenUpOnlyGlyphDrawsNothing | vectors/vector.cpp:231-239 | a glyph with no entries, or with pen-up markers only, leaves the beam and the trace unchanged |
| Font.PenDownStep | vectors/vector.cpp:241-249 | a drawn entry extends the glyph's samples by its command's and leaves the beam on its target |
| Font.CharacterStep | vectors/vector.cpp:258-262 | one character extends the string's samples by its glyph's, and the x position by its advance |
| Font.DrawEntry | vectors/vector.cpp:241-249 | a drawn entry is `moveto`'d when the pen is lifted and `lineto`'d otherwise |
| Font.DrawStrokes | vectors/vector.cpp:229-250 | the loop of `draw_character` emits exactly the glyph's samples and leaves the beam where the glyph ends |
| Font.DrawCharacter | vectors/vector.cpp:226-253 | draws the glyph of `c` and returns `(width*size)*3/4`, which does not depend on the strokes |
| Font.DrawString | vectors/vector.cpp:256-264 | draws every character on the same baseline at x plus the extent of the characters before it, and returns x + `size_string(s, size)` |

## Left out

- `vectors/quadrature.cpp` and `vectors/quadrature.h` are not part of this
  model. They use `float` arithmetic.
- `Point2`, `Point3` and `Matrix3` are not modelled. They hold `float` data,
  and `Point3::rotate` has no definition.
- `vSpace` is not modelled. It is a `double` product truncated to `uint16_t`.
- `pixel_delay` is not modelled. It is a delay compiled out by default, and
  timing is not modelled.
- `draw_char_rot` is declared but never defined.
- The commented-out block at the end of `vector.cpp` is not modelled. It is
  not compiled.
- `_trmm_scaling_TODO_` is not modelled. It is never called.
- `analogWrite` is observed as a ghost list of pin writes, one entry per
  `writeDAC` call. The hardware is not modelled.
- `sin_lookup`/`cos_lookup` are parameters of `VectorRot.Init`. `sin_table.h`
  is not part of this model.
- The glyph table `hershey_simplex` is a parameter: a sequence of `Glyph`
  values indexed by character code minus `' '`. `hershey_font.h` is not
  part of this model.
- Glyph table preconditions. `Font.DrawCharacter` and `Font.DrawString`
  require the entries they use to be well-formed: the character is at least
  `' '`, it indexes the table, and `count` pairs are present. The C code
  reads out of bounds otherwise, and that undefined behaviour is not modelled.
  They also require `count >= 0`, which the C does not need: a negative
  count makes its entry loop run zero times, which the model does not
  cover. A Dafny `char` can exceed 255, which a C `char` cannot; such
  characters are simply outside the modelled table.
- Overflow of C `int` is not modelled. Coordinates, Bresenham deltas and
  `(d*size)*3` are unbounded integers. The `uint16_t` and `uint8_t`
  conversions are modelled; `Rotation.RotIntermediateFits` shows the
  rotation's `int32_t` intermediates cannot overflow.
- Concurrency is not modelled. The beam is a single object owned by one
  caller.
