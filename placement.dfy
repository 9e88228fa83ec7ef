/** Text placement of draw/draw_x11.cpp: where `drawTextRuns` and
    `drawTextRunsOutline` put each run, the outline thickness, and the
    background rectangle of `Draw::drawStringBackground`. A draw call is
    recorded as a `GlyphDraw` instead of being sent to Xft. */
module Placement {
  import opened Common
  import opened Shaper

  /** Which colour a glyph draw uses: the text colour or the outline colour. */
  datatype Ink = Fill | Outline

  /** One `XftDrawStringUtf8(back_draw, colour, font, x, y, bytes, n)`. */
  datatype GlyphDraw = GlyphDraw(ink: Ink, font: Handle, bytes: seq<byte>, x: int, y: int)

  /** One operation on a back buffer: a rectangle cleared to transparent,
      a rectangle filled with a colour, or a glyph draw. Colours are not
      modelled. */
  datatype Paint = ClearRect(area: Rect) | FillRect(area: Rect) | Glyph(draw: GlyphDraw)

  /** The glyph draws as back-buffer operations, in order. */
  function Glyphs(ds: seq<GlyphDraw>): (ps: seq<Paint>)
    ensures |ps| == |ds| && forall i :: 0 <= i < |ds| ==> ps[i] == Glyph(ds[i])
  {
    seq(|ds|, i requires 0 <= i < |ds| => Glyph(ds[i]))
  }

  /** The parameters of `drawTextRuns` besides the runs: the line widths of
      the metrics, the anchor x, the first baseline, the font height and
      the alignment. */
  datatype Layout = Layout(lineWidths: seq<int>, x: int, baseline: int, fontHeight: int, align: Align)

  /** The locals of the drawing loop: line index, pen position, and the
      draw calls issued so far. */
  datatype Pen = Pen(line: nat, x: int, y: int, draws: seq<GlyphDraw>)

  /** The pen x at which line `k` starts: the anchor for left alignment or
      for a line without a width entry, otherwise the aligned start. */
  function LineStart(lay: Layout, k: nat): int
  {
    if lay.align != Left && k < |lay.lineWidths| then AlignX(lay.x, lay.lineWidths[k], lay.align) else lay.x
  }

  /** `offsets[8][2]` of `drawTextRunsOutline`, in its order. */
  const OFFSETS: seq<(int, int)> := [(-1, -1), (-1, 0), (-1, 1), (0, -1), (0, 1), (1, -1), (1, 0), (1, 1)]

  /** Each offset is a non-zero step of the 3 by 3 neighbourhood, and no
      two offsets are the same. */
  lemma OffsetsAreSteps()
    ensures |OFFSETS| == 8
    ensures forall i :: 0 <= i < 8 ==> OFFSETS[i] != (0, 0) && -1 <= OFFSETS[i].0 <= 1 && -1 <= OFFSETS[i].1 <= 1
    ensures forall i, j :: 0 <= i < j < 8 ==> OFFSETS[i] != OFFSETS[j]
  {
  }

  /** The offsets cover the whole neighbourhood: every non-zero step
      appears, so with the previous lemma the eight are exactly the eight
      neighbours. */
  lemma OffsetsCoverNeighbourhood()
    ensures forall dx, dy :: -1 <= dx <= 1 && -1 <= dy <= 1 && (dx, dy) != (0, 0) ==> (dx, dy) in OFFSETS
  {
  }

  /** The eight outline draws of one run at pen (`px`, `py`), each shifted by
      an offset times the thickness. */
  function OutlinePasses(r: Run, px: int, py: int, thickness: int): (ds: seq<GlyphDraw>)
    ensures |ds| == 8
  {
    seq(8, i requires 0 <= i < 8 => GlyphDraw(Outline, r.font, r.bytes, px + Scale(OFFSETS[i].0, thickness), py + Scale(OFFSETS[i].1, thickness)))
  }

  /** An offset component times the thickness, for the components -1, 0
      and 1 the table holds, written without a product. */
  function Scale(d: int, t: int): int
  {
    if d == 1 then t else if d == -1 then -t else 0
  }

  /** `Scale` is the product `dx * thickness` of the source. */
  lemma ScaleStep(d: int, t: int)
    requires -1 <= d <= 1
    ensures d * t == Scale(d, t)
  {
  }

  /** Around a glyph drawn at (px, py), the outline draws of a thickness
      t >= 1 sit on the square ring at distance exactly t, at eight distinct
      points, all in the outline colour. */
  lemma OutlineRing(r: Run, px: int, py: int, t: int)
    requires t >= 1
    ensures forall i :: 0 <= i < 8 ==>
              var d := OutlinePasses(r, px, py, t)[i];
              d.ink == Outline && d.font == r.font && d.bytes == r.bytes
              && -t <= d.x - px <= t && -t <= d.y - py <= t
              && (d.x - px == t || d.x - px == -t || d.y - py == t || d.y - py == -t)
    ensures forall i, j :: 0 <= i < j < 8 ==>
              (OutlinePasses(r, px, py, t)[i].x, OutlinePasses(r, px, py, t)[i].y)
              != (OutlinePasses(r, px, py, t)[j].x, OutlinePasses(r, px, py, t)[j].y)
  {
    OffsetsAreSteps();
    var ds := OutlinePasses(r, px, py, t);
    forall i | 0 <= i < 8
      ensures ds[i].ink == Outline && ds[i].font == r.font && ds[i].bytes == r.bytes
      ensures -t <= ds[i].x - px <= t && -t <= ds[i].y - py <= t
      ensures ds[i].x - px == t || ds[i].x - px == -t || ds[i].y - py == t || ds[i].y - py == -t
    {
      ScaleStep(OFFSETS[i].0, t);
      ScaleStep(OFFSETS[i].1, t);
    }
    forall i, j | 0 <= i < j < 8
      ensures (ds[i].x, ds[i].y) != (ds[j].x, ds[j].y)
    {
      ScaleStep(OFFSETS[i].0, t);
      ScaleStep(OFFSETS[i].1, t);
      ScaleStep(OFFSETS[j].0, t);
      ScaleStep(OFFSETS[j].1, t);
    }
  }

  /** One run of the drawing loop. A marker moves to the start of the next
      line one font height lower; a glyph run is drawn at the pen (after
      its eight outline passes when `outline` holds a thickness) and the
      pen advances by the run's `xOff`. */
  function DrawStep(p: Pen, r: Run, lay: Layout, advance: (Handle, seq<byte>) -> int, outline: Option<int>): Pen
  {
    if IsMarker(r) then
      Pen(p.line + 1, LineStart(lay, p.line + 1), p.y + lay.fontHeight, p.draws)
    else
      var passes := if outline.Some? then OutlinePasses(r, p.x, p.y, outline.value) else [];
      Pen(p.line, p.x + advance(r.font, r.bytes), p.y, p.draws + passes + [GlyphDraw(Fill, r.font, r.bytes, p.x, p.y)])
  }

  /** The pen after drawing `runs`, starting at line 0 and the first baseline. */
  function PenAfter(runs: seq<Run>, lay: Layout, advance: (Handle, seq<byte>) -> int, outline: Option<int>): Pen
  {
    if runs == [] then Pen(0, LineStart(lay, 0), lay.baseline, [])
    else DrawStep(PenAfter(runs[..|runs| - 1], lay, advance, outline), runs[|runs| - 1], lay, advance, outline)
  }

  /** Drawing one more run is one more step of the loop. */
  lemma PenAfterStep(runs: seq<Run>, k: nat, lay: Layout, advance: (Handle, seq<byte>) -> int, outline: Option<int>)
    requires k < |runs|
    ensures PenAfter(runs[..k + 1], lay, advance, outline) == DrawStep(PenAfter(runs[..k], lay, advance, outline), runs[k], lay, advance, outline)
  {
    assert runs[..k + 1][..k] == runs[..k];
  }

  /** The number of runs that are not markers. */
  function GlyphRunCount(runs: seq<Run>): nat
  {
    if runs == [] then 0 else GlyphRunCount(runs[..|runs| - 1]) + (if IsMarker(runs[|runs| - 1]) then 0 else 1)
  }

  /** While drawing, the pen is on line `MarkerCount`, at the baseline of
      that line, and as far right of the line's start as the runs drawn on
      it advance. */
  lemma {:induction false} PenTracksLines(runs: seq<Run>, lay: Layout, advance: (Handle, seq<byte>) -> int, outline: Option<int>)
    ensures PenAfter(runs, lay, advance, outline).line == MarkerCount(runs)
    ensures PenAfter(runs, lay, advance, outline).y == lay.baseline + MarkerCount(runs) * lay.fontHeight
    ensures PenAfter(runs, lay, advance, outline).x == LineStart(lay, MarkerCount(runs)) + Widths(runs, advance).cur
  {
    if runs != [] {
      var front := runs[..|runs| - 1];
      PenTracksLines(front, lay, advance, outline);
      var m := MarkerCount(front);
      assert (m + 1) * lay.fontHeight == m * lay.fontHeight + lay.fontHeight;
    }
  }

  /** Every glyph run is drawn once, and eight more times in outline mode;
      markers draw nothing. */
  lemma {:induction false} DrawCount(runs: seq<Run>, lay: Layout, advance: (Handle, seq<byte>) -> int, outline: Option<int>)
    ensures |PenAfter(runs, lay, advance, outline).draws| == GlyphRunCount(runs) * (if outline.Some? then 9 else 1)
  {
    if runs != [] {
      var front := runs[..|runs| - 1];
      DrawCount(front, lay, advance, outline);
      var g := GlyphRunCount(front);
      var per := if outline.Some? then 9 else 1;
      assert (g + 1) * per == g * per + per;
    }
  }

  /** With the line widths of the metrics, each line is placed as aligned:
      it starts at `AlignX` of its own width, and at its end (a marker or
      the end of the runs) the pen stands one line width further. */
  lemma LinesAreAligned(runs: seq<Run>, j: nat, lay: Layout, advance: (Handle, seq<byte>) -> int, outline: Option<int>)
    requires lay.lineWidths == LineWidths(runs, advance)
    requires j <= |runs| && (j == |runs| || IsMarker(runs[j]))
    ensures var k := MarkerCount(runs[..j]);
            k < |lay.lineWidths|
            && LineStart(lay, k) == AlignX(lay.x, lay.lineWidths[k], lay.align)
            && PenAfter(runs[..j], lay, advance, outline).x == AlignX(lay.x, lay.lineWidths[k], lay.align) + lay.lineWidths[k]
  {
    LineWidthAtLineEnd(runs, j, advance);
    PenTracksLines(runs[..j], lay, advance, outline);
  }

  /** Right-aligned lines end exactly at the anchor, left-aligned lines
      start there. */
  lemma RightAlignedLinesEndAtAnchor(runs: seq<Run>, j: nat, lay: Layout, advance: (Handle, seq<byte>) -> int, outline: Option<int>)
    requires lay.lineWidths == LineWidths(runs, advance) && lay.align == Right
    requires j <= |runs| && (j == |runs| || IsMarker(runs[j]))
    ensures PenAfter(runs[..j], lay, advance, outline).x == lay.x
  {
    LinesAreAligned(runs, j, lay, advance, outline);
  }

  /** The pen x of the drawing functions at the start of line `line`:
      the anchor, moved left by half the line width (centre) or the whole
      line width (right) when the metrics hold a width for that line. */
  method LineStartX(ghost lay: Layout, lineWidths: seq<int>, x: int, align: Align, line: nat) returns (penX: int)
    requires lay.lineWidths == lineWidths && lay.x == x && lay.align == align
    ensures penX == LineStart(lay, line)
  {
    penX := x;
    if align != Left && line < |lineWidths| {
      if align == Center {
        penX := x - CDiv(lineWidths[line], 2);
      } else if align == Right {
        penX := x - lineWidths[line];
      }
    }
  }

  /** `drawTextRuns(tm, x, baselineY, col, font_set, alignment)`. */
  method DrawTextRuns(tm: TextMetrics, x: int, baselineY: int, fontHeight: int, align: Align,
                      advance: (Handle, seq<byte>) -> int) returns (draws: seq<GlyphDraw>)
    ensures draws == PenAfter(tm.runs, Layout(tm.lineWidths, x, baselineY, fontHeight, align), advance, None).draws
  {
    ghost var lay := Layout(tm.lineWidths, x, baselineY, fontHeight, align);
    var line: nat := 0;
    var penX := LineStartX(lay, tm.lineWidths, x, align, 0);
    var penY := baselineY;
    draws := [];
    var k := 0;
    while k < |tm.runs|
      invariant 0 <= k <= |tm.runs|
      invariant PenAfter(tm.runs[..k], lay, advance, None) == Pen(line, penX, penY, draws)
    {
      PenAfterStep(tm.runs, k, lay, advance, None);
      var r := tm.runs[k];
      ghost var next := DrawStep(Pen(line, penX, penY, draws), r, lay, advance, None);
      if r.font == Null && r.bytes == [0x0A] {
        line := line + 1;
        penY := penY + fontHeight;
        penX := LineStartX(lay, tm.lineWidths, x, align, line);
        assert Pen(line, penX, penY, draws) == next;
      } else {
        draws := draws + [GlyphDraw(Fill, r.font, r.bytes, penX, penY)];
        penX := penX + advance(r.font, r.bytes);
        assert Pen(line, penX, penY, draws) == next;
      }
      k := k + 1;
    }
    assert tm.runs[..k] == tm.runs;
  }

  /** The eight outline draws of one run: the loop over `offsets`, each
      scaled by the thickness. */
  method OutlineRunPasses(r: Run, penX: int, penY: int, thickness: int) returns (draws: seq<GlyphDraw>)
    ensures draws == OutlinePasses(r, penX, penY, thickness)
  {
    draws := [];
    var i := 0;
    while i < 8
      invariant 0 <= i <= 8
      invariant draws == OutlinePasses(r, penX, penY, thickness)[..i]
    {
      OffsetsAreSteps();
      ScaleStep(OFFSETS[i].0, thickness);
      ScaleStep(OFFSETS[i].1, thickness);
      draws := draws + [GlyphDraw(Outline, r.font, r.bytes, penX + OFFSETS[i].0 * thickness, penY + OFFSETS[i].1 * thickness)];
      i := i + 1;
    }
  }

  /** `drawTextRunsOutline(tm, x, baselineY, fg, outline, font_set,
      alignment, outline_thickness)`: the same walk, drawing each run eight
      times around the pen in the outline colour before drawing it at the
      pen. */
  method DrawTextRunsOutline(tm: TextMetrics, x: int, baselineY: int, fontHeight: int, align: Align,
                             advance: (Handle, seq<byte>) -> int, thickness: int) returns (draws: seq<GlyphDraw>)
    ensures draws == PenAfter(tm.runs, Layout(tm.lineWidths, x, baselineY, fontHeight, align), advance, Some(thickness)).draws
  {
    ghost var lay := Layout(tm.lineWidths, x, baselineY, fontHeight, align);
    var line: nat := 0;
    var penX := LineStartX(lay, tm.lineWidths, x, align, 0);
    var penY := baselineY;
    draws := [];
    var k := 0;
    while k < |tm.runs|
      invariant 0 <= k <= |tm.runs|
      invariant PenAfter(tm.runs[..k], lay, advance, Some(thickness)) == Pen(line, penX, penY, draws)
    {
      PenAfterStep(tm.runs, k, lay, advance, Some(thickness));
      var r := tm.runs[k];
      ghost var next := DrawStep(Pen(line, penX, penY, draws), r, lay, advance, Some(thickness));
      if r.font == Null && r.bytes == [0x0A] {
        line := line + 1;
        penY := penY + fontHeight;
        penX := LineStartX(lay, tm.lineWidths, x, align, line);
        assert Pen(line, penX, penY, draws) == next;
      } else {
        var passes := OutlineRunPasses(r, penX, penY, thickness);
        draws := draws + passes + [GlyphDraw(Fill, r.font, r.bytes, penX, penY)];
        penX := penX + advance(r.font, r.bytes);
        assert Pen(line, penX, penY, draws) == next;
      }
      k := k + 1;
    }
    assert tm.runs[..k] == tm.runs;
  }

  /** `(int)std::max(1.0, outline_width)`: at least one pixel, otherwise the
      requested width truncated. */
  function OutlineThickness(w: real): (t: int)
    ensures t >= 1
    ensures w >= 1.0 ==> t as real <= w < t as real + 1.0
    ensures w < 1.0 ==> t == 1
  {
    if w < 1.0 then 1 else w.Floor
  }

  /** The background rectangle of `Draw::drawStringBackground` for a text
      of `width` by `height` anchored at (`x`, `y`) with `padding`. */
  function BackgroundRect(x: int, y: int, width: int, height: int, padding: int, align: Align): Rect
  {
    var rw := width + 2 * padding;
    var rh := height + 2 * padding;
    var bx := match align
      case Left => x - padding
      case Center => x - CDiv(rw, 2)
      case Right => x - rw + padding;
    Rect(bx, y - padding, rw, rh)
  }

  /** The rectangle surrounds the text block (the widest line aligned at
      the anchor, `height` pixels down from `y`) with exactly `padding`
      pixels on every side, for each alignment. */
  lemma BackgroundSurroundsText(x: int, y: int, width: int, height: int, padding: int, align: Align)
    requires width >= 0 && padding >= 0
    ensures var r := BackgroundRect(x, y, width, height, padding, align);
            var left := AlignX(x, width, align);
            && r.x + padding == left
            && r.x + r.w - padding == left + width
            && r.y + padding == y
            && r.y + r.h - padding == y + height
  {
    if align == Center {
      assert CDiv(width + 2 * padding, 2) == CDiv(width, 2) + padding;
    }
  }
}
