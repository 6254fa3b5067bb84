/**
 * The stroke-font renderer of vectors/vector.cpp: `draw_character` walks a
 * glyph's (dx, dy) stroke deltas, turning each into a `moveto` (first point,
 * or first after a pen-up entry) or a `lineto`, scaled by `size * 3/4`;
 * `draw_string` lays characters out left to right on one baseline; and
 * `size_string` adds up their advances without drawing.
 *
 * The glyph table itself (`hershey_simplex`) is not part of this model: it is
 * a parameter, a sequence of glyphs indexed by character code minus ' '.
 */
module Font {
  import opened CInt
  import opened TeensyDac
  import opened Trace
  import opened Raster

  /** One glyph table entry: its advance width and `count` (dx, dy) pairs, flattened. */
  datatype Glyph = Glyph(width: int, count: int, points: seq<int>)

  /** The dx value that marks a pen-up entry. */
  const PenUp: int := -1

  /** The entry holds `count` complete pairs. */
  predicate GlyphOk(g: Glyph)
  {
    0 <= g.count && 2 * g.count <= |g.points|
  }

  /** `c` indexes a well-formed entry of the table: `c - ' '` is in range. */
  predicate Drawable(font: seq<Glyph>, c: char)
  {
    ' ' <= c && (c as int) - (' ' as int) < |font| && GlyphOk(font[(c as int) - (' ' as int)])
  }

  predicate AllDrawable(font: seq<Glyph>, s: string)
  {
    forall i :: 0 <= i < |s| ==> Drawable(font, s[i])
  }

  function GlyphOf(font: seq<Glyph>, c: char): Glyph
    requires Drawable(font, c)
  {
    font[(c as int) - (' ' as int)]
  }

  /** A font coordinate scaled to device units: `(d * size) * 3 / 4`, truncating. */
  function Scaled(d: int, size: int): int
  {
    TruncDiv(d * size * 3, 4)
  }

  /**
   * The scaled coordinate is three quarters of `d * size`, rounded toward
   * zero: within one unit below it for a non-negative product, within one
   * unit above it for a negative one.
   */
  lemma ScaledBounds(d: int, size: int)
    ensures d * size >= 0 ==> 0 <= 4 * Scaled(d, size) <= 3 * (d * size) < 4 * Scaled(d, size) + 4
    ensures d * size < 0 ==> 4 * Scaled(d, size) - 4 < 3 * (d * size) <= 4 * Scaled(d, size) <= 0
  {
    TruncDivBounds(d * size * 3, 4);
  }

  /** The horizontal advance `draw_character` returns for glyph `g`. */
  function Advance(g: Glyph, size: int): int
  {
    Scaled(g.width, size)
  }

  /** A beam command of the renderer: `moveto` or `lineto` a device point. */
  datatype PenCmd = MoveTo(to: Point) | LineTo(to: Point)

  /** Entry k of `g` is a pen-up marker. */
  predicate IsPenUp(g: Glyph, k: int)
    requires GlyphOk(g) && 0 <= k < g.count
  {
    g.points[2 * k] == PenUp
  }

  /** The device point entry k of `g` is drawn at, for a glyph placed at (x, y). */
  function Target(g: Glyph, k: int, x: int, y: int, size: int): Point
    requires GlyphOk(g) && 0 <= k < g.count
  {
    Point(x + Scaled(g.points[2 * k], size), y + Scaled(g.points[2 * k + 1], size))
  }

  /**
   * The pen state before entry k: the entry is a `moveto` when it is the
   * first, or when the entry before it was a pen-up marker.
   */
  predicate PenLifted(g: Glyph, k: int)
    requires GlyphOk(g) && 0 <= k <= g.count
  {
    k == 0 || IsPenUp(g, k - 1)
  }

  /** The command a drawn entry k issues: `moveto` its target when the pen is lifted, else `lineto`. */
  function EntryCmd(g: Glyph, k: int, x: int, y: int, size: int): PenCmd
    requires GlyphOk(g) && 0 <= k < g.count
  {
    if PenLifted(g, k) then MoveTo(Target(g, k, x, y, size)) else LineTo(Target(g, k, x, y, size))
  }

  /** The commands entry k issues: none for a pen-up marker, else one `moveto` or `lineto`. */
  function EntryCommands(g: Glyph, k: int, x: int, y: int, size: int): (r: seq<PenCmd>)
    requires GlyphOk(g) && 0 <= k < g.count
    ensures |r| == if IsPenUp(g, k) then 0 else 1
  {
    if IsPenUp(g, k) then [] else [EntryCmd(g, k, x, y, size)]
  }

  /** The commands of the first n entries of `g`. */
  function StrokeCommands(g: Glyph, x: int, y: int, size: int, n: int): seq<PenCmd>
    requires GlyphOk(g) && 0 <= n <= g.count
  {
    if n == 0 then [] else StrokeCommands(g, x, y, size, n - 1) + EntryCommands(g, n - 1, x, y, size)
  }

  /** The commands `draw_character` issues for glyph `g` placed at (x, y). */
  function GlyphCommands(g: Glyph, x: int, y: int, size: int): seq<PenCmd>
    requires GlyphOk(g)
  {
    StrokeCommands(g, x, y, size, g.count)
  }

  /** The number of entries among the first n of `g` that are not pen-up markers. */
  function PenDownCount(g: Glyph, n: int): nat
    requires GlyphOk(g) && 0 <= n <= g.count
  {
    if n == 0 then 0 else PenDownCount(g, n - 1) + (if IsPenUp(g, n - 1) then 0 else 1)
  }

  /** Pen-up markers issue nothing; every other entry issues exactly one command. */
  lemma {:induction false} StrokeCount(g: Glyph, x: int, y: int, size: int, n: int)
    requires GlyphOk(g) && 0 <= n <= g.count
    ensures |StrokeCommands(g, x, y, size, n)| == PenDownCount(g, n)
  {
    if n > 0 {
      StrokeCount(g, x, y, size, n - 1);
    }
  }

  /** Whatever the entries before it, the first command a glyph issues is a `moveto`. */
  lemma {:induction false} StrokesStartWithMove(g: Glyph, x: int, y: int, size: int, n: int)
    requires GlyphOk(g) && 0 <= n <= g.count
    ensures |StrokeCommands(g, x, y, size, n)| > 0 ==> StrokeCommands(g, x, y, size, n)[0].MoveTo?
    ensures |StrokeCommands(g, x, y, size, n)| == 0 ==> PenLifted(g, n)
  {
    if n > 0 {
      StrokesStartWithMove(g, x, y, size, n - 1);
      var prev := StrokeCommands(g, x, y, size, n - 1);
      if |prev| > 0 {
        assert StrokeCommands(g, x, y, size, n)[0] == prev[0];
      }
    }
  }

  /**
   * Every command targets a drawn entry: a point that is not a pen-up marker,
   * moved to or lined to at the glyph's origin plus its scaled delta.
   */
  lemma {:induction false} StrokeTargets(g: Glyph, x: int, y: int, size: int, n: int)
    requires GlyphOk(g) && 0 <= n <= g.count
    ensures forall j :: 0 <= j < |StrokeCommands(g, x, y, size, n)| ==>
      exists k :: 0 <= k < n && !IsPenUp(g, k) && StrokeCommands(g, x, y, size, n)[j].to == Target(g, k, x, y, size)
  {
    if n > 0 {
      StrokeTargets(g, x, y, size, n - 1);
      var prev := StrokeCommands(g, x, y, size, n - 1);
      var cmds := StrokeCommands(g, x, y, size, n);
      forall j | 0 <= j < |cmds|
        ensures exists k :: 0 <= k < n && !IsPenUp(g, k) && cmds[j].to == Target(g, k, x, y, size)
      {
        if j < |prev| {
          assert cmds[j] == prev[j];
          var k :| 0 <= k < n - 1 && !IsPenUp(g, k) && prev[j].to == Target(g, k, x, y, size);
          assert 0 <= k < n && !IsPenUp(g, k) && cmds[j].to == Target(g, k, x, y, size);
        } else {
          assert cmds == prev + EntryCommands(g, n - 1, x, y, size);
          assert !IsPenUp(g, n - 1) && cmds[j].to == Target(g, n - 1, x, y, size);
        }
      }
    } else {
      assert StrokeCommands(g, x, y, size, n) == [];
    }
  }

  /** A glyph with no entries, or with pen-up markers only, issues no command at all. */
  lemma {:induction false} PenUpOnlyGlyphIssuesNothing(g: Glyph, x: int, y: int, size: int, n: int)
    requires GlyphOk(g) && 0 <= n <= g.count
    requires forall k :: 0 <= k < n ==> IsPenUp(g, k)
    ensures StrokeCommands(g, x, y, size, n) == []
  {
    if n > 0 {
      PenUpOnlyGlyphIssuesNothing(g, x, y, size, n - 1);
      assert EntryCommands(g, n - 1, x, y, size) == [];
    }
  }

  /** The samples one command hands to `_out` from beam position `b`. */
  function CmdSamples(b: Point, cmd: PenCmd): (r: seq<Point>)
    ensures LastOr(b, r) == cmd.to
  {
    match cmd
    case MoveTo(p) => MovetoSamples(b, p)
    case LineTo(p) => LineEndsOnTarget(b, b.x, b.y, p.x, p.y); LineSamples(b, b.x, b.y, p.x, p.y)
  }

  /** Where the first k commands of a run leave the beam: the k-th command's target, or `b` if k is 0. */
  function EndAfter(b: Point, cmds: seq<PenCmd>, k: int): Point
    requires 0 <= k <= |cmds|
  {
    if k == 0 then b else cmds[k - 1].to
  }

  /**
   * The samples the first k commands of a run hand to `_out`, each command
   * issued from where the previous one left the beam; `emit` gives the
   * samples of one command.
   */
  function RunPrefix(emit: (Point, PenCmd) -> seq<Point>, b: Point, cmds: seq<PenCmd>, k: int): seq<Point>
    requires 0 <= k <= |cmds|
  {
    if k == 0 then [] else RunPrefix(emit, b, cmds, k - 1) + emit(EndAfter(b, cmds, k - 1), cmds[k - 1])
  }

  /** Where a whole run of commands leaves the beam. */
  function RunEnd(b: Point, cmds: seq<PenCmd>): Point
  {
    EndAfter(b, cmds, |cmds|)
  }

  /** The samples a whole run of commands hands to `_out`. */
  function RunSamples(emit: (Point, PenCmd) -> seq<Point>, b: Point, cmds: seq<PenCmd>): seq<Point>
  {
    RunPrefix(emit, b, cmds, |cmds|)
  }

  /** `emit(b, cmd)` is a run of samples from `b` that ends on the command's target. */
  ghost predicate EndsOnTarget(emit: (Point, PenCmd) -> seq<Point>)
  {
    forall b, cmd :: LastOr(b, emit(b, cmd)) == cmd.to
  }

  lemma CmdSamplesEndsOnTarget()
    ensures EndsOnTarget(CmdSamples)
  {
    forall b, cmd
      ensures LastOr(b, CmdSamples(b, cmd)) == cmd.to
    {
    }
  }

  /** The beam ends where the last command of the run told it to go, which is where its samples end. */
  lemma {:induction false} RunEndIsLastSample(emit: (Point, PenCmd) -> seq<Point>, b: Point, cmds: seq<PenCmd>, k: int)
    requires EndsOnTarget(emit) && 0 <= k <= |cmds|
    ensures LastOr(b, RunPrefix(emit, b, cmds, k)) == EndAfter(b, cmds, k)
  {
    if k > 0 {
      RunEndIsLastSample(emit, b, cmds, k - 1);
      LastOrAppend(b, RunPrefix(emit, b, cmds, k - 1), emit(EndAfter(b, cmds, k - 1), cmds[k - 1]));
    }
  }

  /** Commands issued later do not change the samples of the ones before them. */
  lemma {:induction false} RunPrefixStable(emit: (Point, PenCmd) -> seq<Point>, b: Point, cmds: seq<PenCmd>,
                                           more: seq<PenCmd>, k: int)
    requires 0 <= k <= |cmds|
    ensures RunPrefix(emit, b, cmds + more, k) == RunPrefix(emit, b, cmds, k)
    ensures EndAfter(b, cmds + more, k) == EndAfter(b, cmds, k)
  {
    if k > 0 {
      RunPrefixStable(emit, b, cmds, more, k - 1);
      assert (cmds + more)[k - 1] == cmds[k - 1];
    }
  }

  /** Issuing one more command appends its samples and moves the beam to its target. */
  lemma RunSamplesSnoc(emit: (Point, PenCmd) -> seq<Point>, b: Point, cmds: seq<PenCmd>, cmd: PenCmd)
    ensures RunSamples(emit, b, cmds + [cmd]) == RunSamples(emit, b, cmds) + emit(RunEnd(b, cmds), cmd)
    ensures RunEnd(b, cmds + [cmd]) == cmd.to
  {
    RunPrefixStable(emit, b, cmds, [cmd], |cmds|);
  }

  /** Two runs issued one after the other hand `_out` the first run's samples, then the second's. */
  lemma {:induction false} RunPrefixAppend(emit: (Point, PenCmd) -> seq<Point>, b: Point, c1: seq<PenCmd>, c2: seq<PenCmd>, k: int)
    requires 0 <= k <= |c2|
    ensures RunPrefix(emit, b, c1 + c2, |c1| + k) == RunSamples(emit, b, c1) + RunPrefix(emit, RunEnd(b, c1), c2, k)
    ensures EndAfter(b, c1 + c2, |c1| + k) == EndAfter(RunEnd(b, c1), c2, k)
  {
    if k == 0 {
      RunPrefixStable(emit, b, c1, c2, |c1|);
    } else {
      RunPrefixAppend(emit, b, c1, c2, k - 1);
      assert (c1 + c2)[|c1| + k - 1] == c2[k - 1];
      var e := RunEnd(b, c1);
      var last := emit(EndAfter(e, c2, k - 1), c2[k - 1]);
      assert RunPrefix(emit, b, c1 + c2, |c1| + k) == RunPrefix(emit, b, c1 + c2, |c1| + k - 1) + last;
      Regroup(RunPrefix(emit, b, c1 + c2, |c1| + k), RunSamples(emit, b, c1), RunPrefix(emit, e, c2, k - 1), last);
    }
  }

  lemma RunSamplesAppend(emit: (Point, PenCmd) -> seq<Point>, b: Point, c1: seq<PenCmd>, c2: seq<PenCmd>)
    ensures RunSamples(emit, b, c1 + c2) == RunSamples(emit, b, c1) + RunSamples(emit, RunEnd(b, c1), c2)
    ensures RunEnd(b, c1 + c2) == RunEnd(RunEnd(b, c1), c2)
  {
    RunPrefixAppend(emit, b, c1, c2, |c2|);
  }

  /** The extent of the first n characters of `s`: the sum of their advances. */
  function Extent(font: seq<Glyph>, s: string, size: int, n: int): int
    requires AllDrawable(font, s) && 0 <= n <= |s|
  {
    if n == 0 then 0 else Extent(font, s, size, n - 1) + Advance(GlyphOf(font, s[n - 1]), size)
  }

  /**
   * `size_string`: the sum of the advances of all the characters of `s`;
   * nothing for the empty string, one advance for a single character, and
   * additive over concatenation (`SizeStringAppend`).
   */
  function SizeString(font: seq<Glyph>, s: string, size: int): (r: int)
    requires AllDrawable(font, s)
    ensures |s| == 0 ==> r == 0
    ensures |s| == 1 ==> r == Advance(GlyphOf(font, s[0]), size)
  {
    assert |s| == 1 ==> Extent(font, s, size, 1) == Extent(font, s, size, 0) + Advance(GlyphOf(font, s[0]), size);
    Extent(font, s, size, |s|)
  }

  /** Over a concatenation, a prefix's extent is that within `s`, or all of `s` and then that within `t`. */
  lemma {:induction false} ExtentConcat(font: seq<Glyph>, s: string, t: string, size: int, n: int)
    requires AllDrawable(font, s) && AllDrawable(font, t) && AllDrawable(font, s + t)
    requires 0 <= n <= |s| + |t|
    ensures Extent(font, s + t, size, n)
         == if n <= |s| then Extent(font, s, size, n) else SizeString(font, s, size) + Extent(font, t, size, n - |s|)
  {
    if n > 0 {
      ExtentConcat(font, s, t, size, n - 1);
      assert (s + t)[n - 1] == if n - 1 < |s| then s[n - 1] else t[n - 1 - |s|];
    }
  }

  /** The extent of a concatenation is the sum of the extents. */
  lemma SizeStringAppend(font: seq<Glyph>, s: string, t: string, size: int)
    requires AllDrawable(font, s) && AllDrawable(font, t)
    ensures AllDrawable(font, s + t)
    ensures SizeString(font, s + t, size) == SizeString(font, s, size) + SizeString(font, t, size)
  {
    assert forall i :: 0 <= i < |s + t| ==> (s + t)[i] == if i < |s| then s[i] else t[i - |s|];
    ExtentConcat(font, s, t, size, |s| + |t|);
  }

  /**
   * The commands `draw_string` issues for the first n characters of `s`:
   * each character's glyph, placed on the same baseline y at x plus the
   * extent of the characters before it.
   */
  function PrefixCommands(font: seq<Glyph>, s: string, x: int, y: int, size: int, n: int): seq<PenCmd>
    requires AllDrawable(font, s) && 0 <= n <= |s|
  {
    if n == 0 then []
    else
      PrefixCommands(font, s, x, y, size, n - 1)
        + GlyphCommands(GlyphOf(font, s[n - 1]), x + Extent(font, s, size, n - 1), y, size)
  }

  /** The commands `draw_string` issues for all of `s`. */
  function StringCommands(font: seq<Glyph>, s: string, x: int, y: int, size: int): seq<PenCmd>
    requires AllDrawable(font, s)
  {
    PrefixCommands(font, s, x, y, size, |s|)
  }

  /** Where the first n entries of `g`, placed at (x, y), leave a beam that starts at `b`. */
  function GlyphEnd(g: Glyph, x: int, y: int, size: int, b: Point, n: int): Point
    requires GlyphOk(g) && 0 <= n <= g.count
  {
    if n == 0 then b
    else if IsPenUp(g, n - 1) then GlyphEnd(g, x, y, size, b, n - 1)
    else Target(g, n - 1, x, y, size)
  }

  /**
   * The samples the first n entries of `g` hand to `_out`, entry by entry:
   * nothing for a pen-up marker, else the samples of its command issued
   * from where the entries before it left the beam.
   */
  function GlyphRun(emit: (Point, PenCmd) -> seq<Point>, g: Glyph, x: int, y: int, size: int, b: Point, n: int): seq<Point>
    requires GlyphOk(g) && 0 <= n <= g.count
  {
    if n == 0 then []
    else
      GlyphRun(emit, g, x, y, size, b, n - 1)
        + if IsPenUp(g, n - 1) then [] else emit(GlyphEnd(g, x, y, size, b, n - 1), EntryCmd(g, n - 1, x, y, size))
  }

  /** Entry by entry, a glyph leaves the beam where its last command sends it. */
  lemma {:induction false} GlyphEndIsRunEnd(g: Glyph, x: int, y: int, size: int, b: Point, n: int)
    requires GlyphOk(g) && 0 <= n <= g.count
    ensures GlyphEnd(g, x, y, size, b, n) == RunEnd(b, StrokeCommands(g, x, y, size, n))
  {
    if n > 0 {
      GlyphEndIsRunEnd(g, x, y, size, b, n - 1);
      var prev := StrokeCommands(g, x, y, size, n - 1);
      if IsPenUp(g, n - 1) {
        assert StrokeCommands(g, x, y, size, n) == prev;
      } else {
        assert StrokeCommands(g, x, y, size, n) == prev + [EntryCmd(g, n - 1, x, y, size)];
      }
    }
  }

  /** Entry by entry, a glyph hands `_out` exactly the samples of its commands. */
  lemma {:induction false} GlyphRunIsRunSamples(emit: (Point, PenCmd) -> seq<Point>, g: Glyph, x: int, y: int, size: int,
                                                b: Point, n: int)
    requires GlyphOk(g) && 0 <= n <= g.count
    ensures GlyphRun(emit, g, x, y, size, b, n) == RunSamples(emit, b, StrokeCommands(g, x, y, size, n))
  {
    if n > 0 {
      GlyphRunIsRunSamples(emit, g, x, y, size, b, n - 1);
      var prev := StrokeCommands(g, x, y, size, n - 1);
      if IsPenUp(g, n - 1) {
        assert StrokeCommands(g, x, y, size, n) == prev;
      } else {
        GlyphEndIsRunEnd(g, x, y, size, b, n - 1);
        assert StrokeCommands(g, x, y, size, n) == prev + [EntryCmd(g, n - 1, x, y, size)];
        RunSamplesSnoc(emit, b, prev, EntryCmd(g, n - 1, x, y, size));
      }
    }
  }

  /** Where the first n characters of `s` leave a beam that starts at `b`. */
  function StringEnd(font: seq<Glyph>, s: string, x: int, y: int, size: int, b: Point, n: int): Point
    requires AllDrawable(font, s) && 0 <= n <= |s|
  {
    if n == 0 then b
    else
      var g := GlyphOf(font, s[n - 1]);
      GlyphEnd(g, x + Extent(font, s, size, n - 1), y, size, StringEnd(font, s, x, y, size, b, n - 1), g.count)
  }

  /** The samples the first n characters of `s` hand to `_out`, character by character. */
  function StringRun(emit: (Point, PenCmd) -> seq<Point>, font: seq<Glyph>, s: string, x: int, y: int, size: int,
                     b: Point, n: int): seq<Point>
    requires AllDrawable(font, s) && 0 <= n <= |s|
  {
    if n == 0 then []
    else
      var g := GlyphOf(font, s[n - 1]);
      StringRun(emit, font, s, x, y, size, b, n - 1)
        + GlyphRun(emit, g, x + Extent(font, s, size, n - 1), y, size, StringEnd(font, s, x, y, size, b, n - 1), g.count)
  }

  /** Character by character, a string hands `_out` exactly the samples of its commands, and ends where they end. */
  lemma {:induction false} StringRunIsRunSamples(emit: (Point, PenCmd) -> seq<Point>, font: seq<Glyph>, s: string,
                                                 x: int, y: int, size: int, b: Point, n: int)
    requires AllDrawable(font, s) && 0 <= n <= |s|
    ensures StringRun(emit, font, s, x, y, size, b, n) == RunSamples(emit, b, PrefixCommands(font, s, x, y, size, n))
    ensures StringEnd(font, s, x, y, size, b, n) == RunEnd(b, PrefixCommands(font, s, x, y, size, n))
  {
    if n > 0 {
      StringRunIsRunSamples(emit, font, s, x, y, size, b, n - 1);
      var g, gx := GlyphOf(font, s[n - 1]), x + Extent(font, s, size, n - 1);
      var e := StringEnd(font, s, x, y, size, b, n - 1);
      GlyphRunIsRunSamples(emit, g, gx, y, size, e, g.count);
      GlyphEndIsRunEnd(g, gx, y, size, e, g.count);
      RunSamplesAppend(emit, b, PrefixCommands(font, s, x, y, size, n - 1), GlyphCommands(g, gx, y, size));
    }
  }

  /**
   * What `DrawString` hands to `_out` and where it leaves the beam are those
   * of the commands the whole string issues, run one after the other.
   */
  lemma StringSamplesAreCommandSamples(emit: (Point, PenCmd) -> seq<Point>, font: seq<Glyph>, s: string,
                                       x: int, y: int, size: int, b: Point)
    requires AllDrawable(font, s)
    ensures StringRun(emit, font, s, x, y, size, b, |s|) == RunSamples(emit, b, StringCommands(font, s, x, y, size))
    ensures StringEnd(font, s, x, y, size, b, |s|) == RunEnd(b, StringCommands(font, s, x, y, size))
  {
    StringRunIsRunSamples(emit, font, s, x, y, size, b, |s|);
  }

  /** A pen-up entry leaves both the beam and the samples as they were. */
  lemma PenUpStep(emit: (Point, PenCmd) -> seq<Point>, g: Glyph, x: int, y: int, size: int, b: Point, i: int)
    requires GlyphOk(g) && 0 <= i < g.count && IsPenUp(g, i)
    ensures GlyphEnd(g, x, y, size, b, i + 1) == GlyphEnd(g, x, y, size, b, i)
    ensures GlyphRun(emit, g, x, y, size, b, i + 1) == GlyphRun(emit, g, x, y, size, b, i)
  {
    assert GlyphRun(emit, g, x, y, size, b, i + 1) == GlyphRun(emit, g, x, y, size, b, i) + [];
  }

  /** A glyph whose entries are all pen-up markers (or that has none) hands `_out` nothing and leaves the beam where it was. */
  lemma {:induction false} PenUpOnlyGlyphDrawsNothing(emit: (Point, PenCmd) -> seq<Point>, g: Glyph, x: int, y: int, size: int,
                                                      b: Point, n: int)
    requires GlyphOk(g) && 0 <= n <= g.count
    requires forall k :: 0 <= k < n ==> IsPenUp(g, k)
    ensures GlyphRun(emit, g, x, y, size, b, n) == [] && GlyphEnd(g, x, y, size, b, n) == b
  {
    if n > 0 {
      PenUpOnlyGlyphDrawsNothing(emit, g, x, y, size, b, n - 1);
      PenUpStep(emit, g, x, y, size, b, n - 1);
    }
  }

  /**
   * A drawn entry: issuing its command (`moveto` when the pen is lifted,
   * `lineto` otherwise) from where the entries before it left the beam
   * extends the glyph's samples and leaves the beam on the entry's target.
   */
  lemma PenDownStep(emit: (Point, PenCmd) -> seq<Point>, g: Glyph, x: int, y: int, size: int, b: Point, i: int,
                    start: seq<Point>, t0: seq<Point>, t1: seq<Point>, p0: Point, p1: Point)
    requires GlyphOk(g) && 0 <= i < g.count && !IsPenUp(g, i)
    requires p0 == GlyphEnd(g, x, y, size, b, i) && p1 == Target(g, i, x, y, size)
    requires t0 == start + GlyphRun(emit, g, x, y, size, b, i)
    requires t1 == t0 + emit(p0, EntryCmd(g, i, x, y, size))
    ensures p1 == GlyphEnd(g, x, y, size, b, i + 1)
    ensures t1 == start + GlyphRun(emit, g, x, y, size, b, i + 1)
  {
  }

  /**
   * One character of a string: drawing its glyph at x plus the extent of the
   * characters before it, from where they left the beam, extends the
   * string's samples and its extent by the glyph's advance.
   */
  lemma CharacterStep(emit: (Point, PenCmd) -> seq<Point>, font: seq<Glyph>, s: string, x: int, y: int, size: int,
                      b: Point, i: int, start: seq<Point>, t0: seq<Point>, t1: seq<Point>, gx: int, p0: Point, p1: Point)
    requires AllDrawable(font, s) && 0 <= i < |s|
    requires gx == x + Extent(font, s, size, i)
    requires p0 == StringEnd(font, s, x, y, size, b, i)
    requires t0 == start + StringRun(emit, font, s, x, y, size, b, i)
    requires p1 == GlyphEnd(GlyphOf(font, s[i]), gx, y, size, p0, GlyphOf(font, s[i]).count)
    requires t1 == t0 + GlyphRun(emit, GlyphOf(font, s[i]), gx, y, size, p0, GlyphOf(font, s[i]).count)
    ensures gx + Advance(GlyphOf(font, s[i]), size) == x + Extent(font, s, size, i + 1)
    ensures p1 == StringEnd(font, s, x, y, size, b, i + 1)
    ensures t1 == start + StringRun(emit, font, s, x, y, size, b, i + 1)
  {
  }

  /**
   * `emit` hands `_out` exactly what the beam does for one command. The
   * trigger keeps the equation out of sight until a caller names
   * `CmdSamples` at a particular point and command.
   */
  ghost predicate BeamEmit(emit: (Point, PenCmd) -> seq<Point>)
  {
    forall p, cmd {:trigger CmdSamples(p, cmd)} :: emit(p, cmd) == CmdSamples(p, cmd)
  }

  /**
   * The part of `draw_character`'s loop body for a drawn entry i of `g`:
   * `moveto` its device point (px, py) when the pen is lifted, else `lineto` it.
   */
  method DrawEntry(beam: Beam, moveto: bool, px: int, py: int,
                   ghost g: Glyph, ghost i: int, ghost x: int, ghost y: int, ghost size: int,
                   ghost b: Point, ghost start: seq<Point>, ghost emit: (Point, PenCmd) -> seq<Point>)
    requires BeamEmit(emit) && beam.Valid()
    requires GlyphOk(g) && 0 <= i < g.count && !IsPenUp(g, i)
    requires moveto == PenLifted(g, i) && Point(px, py) == Target(g, i, x, y, size)
    requires beam.Pos() == GlyphEnd(g, x, y, size, b, i)
    requires beam.trace == start + GlyphRun(emit, g, x, y, size, b, i)
    modifies beam, beam.dac
    ensures beam.Valid()
    ensures beam.Pos() == GlyphEnd(g, x, y, size, b, i + 1)
    ensures beam.trace == start + GlyphRun(emit, g, x, y, size, b, i + 1)
  {
    ghost var t0, p0 := beam.trace, beam.Pos();
    if moveto {
      beam.Moveto(px, py);
    } else {
      beam.Lineto(px, py);
    }
    assert emit(p0, EntryCmd(g, i, x, y, size)) == CmdSamples(p0, EntryCmd(g, i, x, y, size));
    PenDownStep(emit, g, x, y, size, b, i, start, t0, beam.trace, p0, Point(px, py));
  }

  /**
   * The loop of `draw_character` over the entries of `g`, placed at (x, y):
   * a pen-up marker lifts the pen; any other entry is scaled, then
   * `moveto`'d when the pen is lifted and `lineto`'d otherwise.
   */
  method DrawStrokes(beam: Beam, g: Glyph, x: int, y: int, size: int, ghost emit: (Point, PenCmd) -> seq<Point>)
    requires BeamEmit(emit) && beam.Valid() && GlyphOk(g)
    modifies beam, beam.dac
    ensures beam.Valid()
    ensures beam.Pos() == GlyphEnd(g, x, y, size, old(beam.Pos()), g.count)
    ensures beam.trace == old(beam.trace) + GlyphRun(emit, g, x, y, size, old(beam.Pos()), g.count)
  {
    ghost var b0, start := beam.Pos(), beam.trace;
    var nextMoveto := true;
    for i := 0 to g.count
      invariant beam.Valid()
      invariant nextMoveto == PenLifted(g, i)
      invariant beam.Pos() == GlyphEnd(g, x, y, size, b0, i)
      invariant beam.trace == start + GlyphRun(emit, g, x, y, size, b0, i)
    {
      var dx := g.points[2 * i];
      var dy := g.points[2 * i + 1];
      if dx == PenUp {
        nextMoveto := true;
        PenUpStep(emit, g, x, y, size, b0, i);
        continue;
      }
      dx := Scaled(dx, size);
      dy := Scaled(dy, size);
      DrawEntry(beam, nextMoveto, x + dx, y + dy, g, i, x, y, size, b0, start, emit);
      nextMoveto := false;
    }
  }

  /**
   * `draw_character`: draw glyph c's entries at (x, y), then return its
   * advance, which depends on the width alone and not on the strokes.
   */
  method DrawCharacter(beam: Beam, font: seq<Glyph>, c: char, x: int, y: int, size: int) returns (advance: int)
    requires beam.Valid() && Drawable(font, c)
    modifies beam, beam.dac
    ensures beam.Valid()
    ensures advance == Advance(GlyphOf(font, c), size)
    ensures beam.Pos() == GlyphEnd(GlyphOf(font, c), x, y, size, old(beam.Pos()), GlyphOf(font, c).count)
    ensures beam.trace == old(beam.trace) + GlyphRun(CmdSamples, GlyphOf(font, c), x, y, size, old(beam.Pos()), GlyphOf(font, c).count)
  {
    var f := font[(c as int) - (' ' as int)];
    DrawStrokes(beam, f, x, y, size, CmdSamples);
    return Advance(f, size);
  }

  /**
   * `draw_string`: draw each character of `s` on the baseline y, advancing x
   * by each character's width; return the final x, which is the starting x
   * plus `size_string(s, size)`.
   */
  method DrawString(beam: Beam, font: seq<Glyph>, s: string, x: int, y: int, size: int) returns (endX: int)
    requires beam.Valid() && AllDrawable(font, s)
    modifies beam, beam.dac
    ensures beam.Valid()
    ensures endX == x + SizeString(font, s, size)
    ensures beam.Pos() == StringEnd(font, s, x, y, size, old(beam.Pos()), |s|)
    ensures beam.trace == old(beam.trace) + StringRun(CmdSamples, font, s, x, y, size, old(beam.Pos()), |s|)
  {
    ghost var b0, start := beam.Pos(), beam.trace;
    endX := x;
    var i := 0;
    while i < |s|
      invariant 0 <= i <= |s|
      invariant beam.Valid()
      invariant endX == x + Extent(font, s, size, i)
      invariant beam.Pos() == StringEnd(font, s, x, y, size, b0, i)
      invariant beam.trace == start + StringRun(CmdSamples, font, s, x, y, size, b0, i)
    {
      ghost var t0, p0 := beam.trace, beam.Pos();
      var advance := DrawCharacter(beam, font, s[i], endX, y, size);
      CharacterStep(CmdSamples, font, s, x, y, size, b0, i, start, t0, beam.trace, endX, p0, beam.Pos());
      endX := endX + advance;
      i := i + 1;
    }
  }
}
