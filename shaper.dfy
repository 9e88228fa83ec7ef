/** Text shaping of draw/draw_x11.cpp: `utf8ToFontRuns` cuts a UTF-8 string
    into runs of one font each, with a marker run for every line feed, and
    `computeTextMetrics` measures the lines those runs form. */
module Shaper {
  import opened Common
  import opened Utf8
  import opened FontSets

  /** One element of `TextMetrics::runs`: a font and the bytes drawn with it. */
  datatype Run = Run(font: Handle, bytes: seq<byte>)

  /** The line-break marker `{nullptr, "\n"}`. */
  const LINE_BREAK: Run := Run(Null, [0x0A])

  /** The test `r.first == nullptr && r.second == "\n"` of the consumers. */
  predicate IsMarker(r: Run)
  {
    r.font == Null && r.bytes == [0x0A]
  }

  /** A run that draws glyphs: a loaded font and at least one byte. */
  predicate IsGlyphRun(r: Run)
  {
    r.font.Font? && r.bytes != []
  }

  // ---------------------------------------------------------------------
  // utf8ToFontRuns
  // ---------------------------------------------------------------------

  /** The locals of `utf8ToFontRuns` between iterations: the runs pushed so
      far, the font of the run being collected (`Null` for none) and its
      bytes. */
  datatype ShapeState = ShapeState(runs: seq<Run>, current: Handle, buf: seq<byte>)

  const START: ShapeState := ShapeState([], Null, [])

  /** One iteration of the loop, for the code point `u.cp` read from the
      bytes `u.bytes`. A line feed closes the collected run (only when there
      is a font to close it with; otherwise the bytes stay in the buffer),
      pushes the marker and forgets the font. Any other code point picks its
      font; a change of font closes the collected run; the bytes are then
      appended. */
  function ShapeStep(st: ShapeState, u: Unit, fs: FontSet, fonts: FontOracle): ShapeState
  {
    if u.cp == LINE_FEED then
      if st.buf != [] && st.current != Null then
        ShapeState(st.runs + [Run(st.current, st.buf)] + [LINE_BREAK], Null, [])
      else
        ShapeState(st.runs + [LINE_BREAK], Null, st.buf)
    else
      var f := PickFontForChar(fs, u.cp, fonts);
      var cur := if st.current == Null then f else st.current;
      if f != cur then
        ShapeState(if st.buf != [] then st.runs + [Run(cur, st.buf)] else st.runs, f, u.bytes)
      else
        ShapeState(st.runs, cur, st.buf + u.bytes)
  }

  /** The loop run over the units `us`, starting from `st`. */
  function ShapeUnits(st: ShapeState, us: seq<Unit>, fs: FontSet, fonts: FontOracle): ShapeState
    decreases |us|
  {
    if us == [] then st else ShapeUnits(ShapeStep(st, us[0], fs, fonts), us[1..], fs, fonts)
  }

  /** The final push after the loop. */
  function Flush(st: ShapeState): seq<Run>
  {
    if st.buf != [] && st.current != Null then st.runs + [Run(st.current, st.buf)] else st.runs
  }

  /** The runs `utf8ToFontRuns(text, len, runs, font_set)` appends. */
  function FontRuns(text: seq<byte>, fs: FontSet, fonts: FontOracle): seq<Run>
  {
    Flush(ShapeUnits(START, UnitsLenient(text, 0), fs, fonts))
  }

  /** `utf8ToFontRuns`: the decoding loop over `text`, with the lenient
      `utf8_next` and `pickFontForChar`. */
  method Utf8ToFontRuns(text: seq<byte>, fs: FontSet, fonts: FontOracle) returns (runs: seq<Run>)
    ensures runs == FontRuns(text, fs, fonts)
  {
    runs := [];
    var i := 0;
    var current := Null;
    var buf: seq<byte> := [];
    while i < |text|
      invariant 0 <= i <= |text|
      invariant ShapeUnits(START, UnitsLenient(text, 0), fs, fonts)
                == ShapeUnits(ShapeState(runs, current, buf), UnitsLenient(text, i), fs, fonts)
      decreases |text| - i
    {
      var before := i;
      var step := NextLenient(text, i).value;
      i := step.next;
      var cp := step.cp;
      ghost var u := Unit(text[before..i], cp);
      assert UnitsLenient(text, before) == [u] + UnitsLenient(text, i);
      ghost var next := ShapeStep(ShapeState(runs, current, buf), u, fs, fonts);
      assert ShapeUnits(START, UnitsLenient(text, 0), fs, fonts) == ShapeUnits(next, UnitsLenient(text, i), fs, fonts) by {
        assert ([u] + UnitsLenient(text, i))[1..] == UnitsLenient(text, i);
      }
      if cp == LINE_FEED {
        if buf != [] && current != Null {
          runs := runs + [Run(current, buf)];
          buf := [];
        }
        runs := runs + [LINE_BREAK];
        current := Null;
        assert ShapeState(runs, current, buf) == next;
        continue;
      }
      var f := PickFontForChar(fs, cp, fonts);
      if current == Null {
        current := f;
      }
      if f != current {
        if buf != [] {
          runs := runs + [Run(current, buf)];
        }
        buf := [];
        current := f;
      }
      buf := buf + text[before..i];
      assert ShapeState(runs, current, buf) == next;
    }
    if buf != [] && current != Null {
      runs := runs + [Run(current, buf)];
    }
  }

  // ---------------------------------------------------------------------
  // Properties of the runs
  // ---------------------------------------------------------------------

  /** The number of marker runs. */
  function MarkerCount(runs: seq<Run>): nat
  {
    if runs == [] then 0
    else MarkerCount(runs[..|runs| - 1]) + (if IsMarker(runs[|runs| - 1]) then 1 else 0)
  }

  /** The bytes of the glyph runs, in order (markers contribute nothing). */
  function GlyphBytes(runs: seq<Run>): seq<byte>
  {
    if runs == [] then []
    else GlyphBytes(runs[..|runs| - 1]) + (if IsMarker(runs[|runs| - 1]) then [] else runs[|runs| - 1].bytes)
  }

  /** The number of decoded line feeds. */
  function LineFeeds(us: seq<Unit>): nat
  {
    if us == [] then 0 else (if us[0].cp == LINE_FEED then 1 else 0) + LineFeeds(us[1..])
  }

  /** The bytes of the units that are not line feeds. */
  function NonLineFeedBytes(us: seq<Unit>): seq<byte>
  {
    if us == [] then [] else (if us[0].cp == LINE_FEED then [] else us[0].bytes) + NonLineFeedBytes(us[1..])
  }

  lemma MarkerCountAppend(runs: seq<Run>, r: Run)
    ensures MarkerCount(runs + [r]) == MarkerCount(runs) + (if IsMarker(r) then 1 else 0)
    ensures GlyphBytes(runs + [r]) == GlyphBytes(runs) + (if IsMarker(r) then [] else r.bytes)
  {
    assert (runs + [r])[..|runs|] == runs;
  }

  /** Every run is a marker or a glyph run. */
  predicate WellFormed(runs: seq<Run>)
  {
    forall k :: 0 <= k < |runs| ==> IsMarker(runs[k]) || IsGlyphRun(runs[k])
  }

  lemma WellFormedAppend(runs: seq<Run>, r: Run)
    requires WellFormed(runs) && (IsMarker(r) || IsGlyphRun(r))
    ensures WellFormed(runs + [r])
  {
    assert forall k :: 0 <= k < |runs| ==> (runs + [r])[k] == runs[k];
  }

  /** One step keeps the runs well formed and counts markers exactly. */
  lemma ShapeStepCounts(st: ShapeState, u: Unit, fs: FontSet, fonts: FontOracle)
    requires u.bytes != []
    requires WellFormed(st.runs)
    ensures WellFormed(ShapeStep(st, u, fs, fonts).runs)
    ensures MarkerCount(ShapeStep(st, u, fs, fonts).runs)
            == MarkerCount(st.runs) + (if u.cp == LINE_FEED then 1 else 0)
  {
    var st' := ShapeStep(st, u, fs, fonts);
    if u.cp == LINE_FEED {
      if st.buf != [] && st.current != Null {
        MarkerCountAppend(st.runs, Run(st.current, st.buf));
        WellFormedAppend(st.runs, Run(st.current, st.buf));
        MarkerCountAppend(st.runs + [Run(st.current, st.buf)], LINE_BREAK);
        WellFormedAppend(st.runs + [Run(st.current, st.buf)], LINE_BREAK);
      } else {
        MarkerCountAppend(st.runs, LINE_BREAK);
        WellFormedAppend(st.runs, LINE_BREAK);
      }
    } else {
      var f := PickFontForChar(fs, u.cp, fonts);
      var cur := if st.current == Null then f else st.current;
      if f != cur && st.buf != [] {
        MarkerCountAppend(st.runs, Run(cur, st.buf));
        WellFormedAppend(st.runs, Run(cur, st.buf));
      }
    }
  }

  lemma {:induction false} ShapeUnitsCounts(st: ShapeState, us: seq<Unit>, fs: FontSet, fonts: FontOracle)
    requires forall k :: 0 <= k < |us| ==> us[k].bytes != []
    requires WellFormed(st.runs)
    ensures WellFormed(ShapeUnits(st, us, fs, fonts).runs)
    ensures MarkerCount(ShapeUnits(st, us, fs, fonts).runs) == MarkerCount(st.runs) + LineFeeds(us)
    decreases |us|
  {
    if us != [] {
      ShapeStepCounts(st, us[0], fs, fonts);
      ShapeUnitsCounts(ShapeStep(st, us[0], fs, fonts), us[1..], fs, fonts);
    }
  }

  /** Whatever the font set, every run is either the line-break marker or a
      non-empty run with a loaded font, and there is exactly one marker per
      decoded line feed. */
  lemma FontRunsShape(text: seq<byte>, fs: FontSet, fonts: FontOracle)
    ensures WellFormed(FontRuns(text, fs, fonts))
    ensures MarkerCount(FontRuns(text, fs, fonts)) == LineFeeds(UnitsLenient(text, 0))
  {
    var us := UnitsLenient(text, 0);
    ShapeUnitsCounts(START, us, fs, fonts);
    var st := ShapeUnits(START, us, fs, fonts);
    if st.buf != [] && st.current != Null {
      MarkerCountAppend(st.runs, Run(st.current, st.buf));
      WellFormedAppend(st.runs, Run(st.current, st.buf));
    }
  }

  /** Neighbouring glyph runs are in different fonts. */
  predicate FontChangesAtBoundaries(runs: seq<Run>)
  {
    forall k :: 0 <= k < |runs| - 1 && !IsMarker(runs[k]) && !IsMarker(runs[k + 1]) ==>
      runs[k].font != runs[k + 1].font
  }

  /** The loop state while the primary font is loaded (so that every
      picked font is loaded): a font is being collected exactly when bytes
      are buffered, and the last pushed glyph run is in a different font. */
  predicate Coherent(st: ShapeState)
  {
    && (st.buf != [] <==> st.current != Null)
    && (st.runs != [] && !IsMarker(st.runs[|st.runs| - 1]) ==>
          st.current != Null && st.runs[|st.runs| - 1].font != st.current)
    && FontChangesAtBoundaries(st.runs)
  }

  lemma BoundariesAppend(runs: seq<Run>, r: Run)
    requires FontChangesAtBoundaries(runs)
    requires runs != [] && !IsMarker(runs[|runs| - 1]) && !IsMarker(r) ==> runs[|runs| - 1].font != r.font
    ensures FontChangesAtBoundaries(runs + [r])
  {
    assert forall k :: 0 <= k < |runs| ==> (runs + [r])[k] == runs[k];
  }

  lemma StepCoherent(st: ShapeState, u: Unit, fs: FontSet, fonts: FontOracle)
    requires fs.primary.Font? && u.bytes != []
    requires Coherent(st)
    ensures Coherent(ShapeStep(st, u, fs, fonts))
  {
    if u.cp == LINE_FEED {
      if st.buf != [] {
        BoundariesAppend(st.runs, Run(st.current, st.buf));
        BoundariesAppend(st.runs + [Run(st.current, st.buf)], LINE_BREAK);
      } else {
        BoundariesAppend(st.runs, LINE_BREAK);
      }
    } else {
      PickFontInSet(fs, u.cp, fonts);
      var f := PickFontForChar(fs, u.cp, fonts);
      var cur := if st.current == Null then f else st.current;
      if f != cur {
        BoundariesAppend(st.runs, Run(cur, st.buf));
      }
    }
  }

  lemma StepGlyphBytes(st: ShapeState, u: Unit, fs: FontSet, fonts: FontOracle)
    requires st.buf != [] <==> st.current != Null
    ensures GlyphBytes(ShapeStep(st, u, fs, fonts).runs) + ShapeStep(st, u, fs, fonts).buf
            == GlyphBytes(st.runs) + st.buf + (if u.cp == LINE_FEED then [] else u.bytes)
  {
    if u.cp == LINE_FEED {
      if st.buf != [] {
        MarkerCountAppend(st.runs, Run(st.current, st.buf));
        MarkerCountAppend(st.runs + [Run(st.current, st.buf)], LINE_BREAK);
      } else {
        MarkerCountAppend(st.runs, LINE_BREAK);
      }
    } else {
      var f := PickFontForChar(fs, u.cp, fonts);
      var cur := if st.current == Null then f else st.current;
      if f != cur && st.buf != [] {
        MarkerCountAppend(st.runs, Run(cur, st.buf));
      }
    }
  }

  lemma {:induction false} ShapeUnitsCoherent(st: ShapeState, us: seq<Unit>, fs: FontSet, fonts: FontOracle)
    requires fs.primary.Font?
    requires forall k :: 0 <= k < |us| ==> us[k].bytes != []
    requires Coherent(st)
    ensures Coherent(ShapeUnits(st, us, fs, fonts))
    ensures GlyphBytes(ShapeUnits(st, us, fs, fonts).runs) + ShapeUnits(st, us, fs, fonts).buf
            == GlyphBytes(st.runs) + st.buf + NonLineFeedBytes(us)
    decreases |us|
  {
    if us != [] {
      StepCoherent(st, us[0], fs, fonts);
      StepGlyphBytes(st, us[0], fs, fonts);
      ShapeUnitsCoherent(ShapeStep(st, us[0], fs, fonts), us[1..], fs, fonts);
    }
  }

  /** With a loaded primary font, a boundary between two glyph runs is
      always a change of font, and the glyph runs hold exactly the bytes of
      the decoded code points other than line feeds, in order: no byte is
      lost or duplicated. */
  lemma FontRunsLossless(text: seq<byte>, fs: FontSet, fonts: FontOracle)
    requires fs.primary.Font?
    ensures FontChangesAtBoundaries(FontRuns(text, fs, fonts))
    ensures GlyphBytes(FontRuns(text, fs, fonts)) == NonLineFeedBytes(UnitsLenient(text, 0))
  {
    var us := UnitsLenient(text, 0);
    ShapeUnitsCoherent(START, us, fs, fonts);
    var st := ShapeUnits(START, us, fs, fonts);
    assert GlyphBytes(START.runs) + START.buf + NonLineFeedBytes(us) == NonLineFeedBytes(us);
    if st.buf != [] {
      MarkerCountAppend(st.runs, Run(st.current, st.buf));
      BoundariesAppend(st.runs, Run(st.current, st.buf));
    } else {
      assert GlyphBytes(st.runs) + st.buf == GlyphBytes(st.runs);
    }
  }

  // ---------------------------------------------------------------------
  // Runs as merged pieces
  // ---------------------------------------------------------------------

  /** Adding one piece to a list of runs: a glyph piece in the font of a
      last glyph run extends that run; anything else starts a new one. */
  function MergeInto(m: seq<Run>, p: Run): seq<Run>
  {
    if m != [] && !IsMarker(p) && !IsMarker(m[|m| - 1]) && m[|m| - 1].font == p.font then
      m[..|m| - 1] + [Run(p.font, m[|m| - 1].bytes + p.bytes)]
    else m + [p]
  }

  /** The runs made from `pieces` by joining neighbouring glyph pieces of
      one font: every run is a stretch of consecutive pieces in the run's
      own font. */
  function Merge(pieces: seq<Run>): seq<Run>
  {
    MergeFrom([], pieces)
  }

  /** The pieces merged, one after the other, onto the runs `m`. */
  function MergeFrom(m: seq<Run>, pieces: seq<Run>): seq<Run>
    decreases |pieces|
  {
    if pieces == [] then m else MergeFrom(MergeInto(m, pieces[0]), pieces[1..])
  }

  /** Merging never loses the last run: the result is empty only when
      there was nothing to merge. */
  lemma {:induction false} MergeFromEmpty(m: seq<Run>, pieces: seq<Run>)
    ensures MergeFrom(m, pieces) == [] <==> m == [] && pieces == []
    decreases |pieces|
  {
    if pieces != [] {
      MergeFromEmpty(MergeInto(m, pieces[0]), pieces[1..]);
    }
  }

  /** A decoded unit on its own: a line feed is the marker, any other code
      point a run of its bytes in the font `pickFontForChar` picks for it. */
  function Piece(u: Unit, fs: FontSet, fonts: FontOracle): Run
  {
    if u.cp == LINE_FEED then LINE_BREAK else Run(PickFontForChar(fs, u.cp, fonts), u.bytes)
  }

  function Pieces(us: seq<Unit>, fs: FontSet, fonts: FontOracle): seq<Run>
  {
    if us == [] then [] else [Piece(us[0], fs, fonts)] + Pieces(us[1..], fs, fonts)
  }

  /** One step of the loop is one piece merged into the flushed runs. */
  lemma StepMerges(st: ShapeState, u: Unit, fs: FontSet, fonts: FontOracle)
    requires fs.primary.Font? && u.bytes != []
    requires Coherent(st)
    ensures Flush(ShapeStep(st, u, fs, fonts)) == MergeInto(Flush(st), Piece(u, fs, fonts))
  {
    var m := Flush(st);
    if u.cp == LINE_FEED {
      assert IsMarker(Piece(u, fs, fonts));
      if st.buf != [] {
        assert ShapeStep(st, u, fs, fonts) == ShapeState(m + [LINE_BREAK], Null, []);
      } else {
        assert ShapeStep(st, u, fs, fonts) == ShapeState(st.runs + [LINE_BREAK], Null, st.buf);
      }
    } else {
      PickFontInSet(fs, u.cp, fonts);
      var f := PickFontForChar(fs, u.cp, fonts);
      assert Piece(u, fs, fonts) == Run(f, u.bytes) && !IsMarker(Run(f, u.bytes));
      if st.current == Null {
        assert st.buf == [] && m == st.runs;
        assert m == [] || IsMarker(m[|m| - 1]);
        assert ShapeStep(st, u, fs, fonts) == ShapeState(st.runs, f, u.bytes);
      } else {
        var last := Run(st.current, st.buf);
        assert m == st.runs + [last] && !IsMarker(last);
        assert m[..|m| - 1] == st.runs;
        if f != st.current {
          assert ShapeStep(st, u, fs, fonts) == ShapeState(m, f, u.bytes);
        } else {
          assert ShapeStep(st, u, fs, fonts) == ShapeState(st.runs, f, st.buf + u.bytes);
        }
      }
    }
  }

  lemma {:induction false} ShapeUnitsMerge(st: ShapeState, us: seq<Unit>, fs: FontSet, fonts: FontOracle)
    requires fs.primary.Font?
    requires forall k :: 0 <= k < |us| ==> us[k].bytes != []
    requires Coherent(st)
    ensures Flush(ShapeUnits(st, us, fs, fonts)) == MergeFrom(Flush(st), Pieces(us, fs, fonts))
    decreases |us|
  {
    if us != [] {
      var ps := Pieces(us, fs, fonts);
      StepMerges(st, us[0], fs, fonts);
      StepCoherent(st, us[0], fs, fonts);
      ShapeUnitsMerge(ShapeStep(st, us[0], fs, fonts), us[1..], fs, fonts);
      assert ps[0] == Piece(us[0], fs, fonts) && ps[1..] == Pieces(us[1..], fs, fonts);
    }
  }

  /** With a loaded primary font, the runs of `utf8ToFontRuns` are the
      decoded code points, each in the font `pickFontForChar` picks for it,
      with neighbouring code points of one font joined into one run and a
      marker for every line feed. So every byte of a glyph run belongs to a
      code point whose picked font is the run's font. */
  lemma FontRunsMerge(text: seq<byte>, fs: FontSet, fonts: FontOracle)
    requires fs.primary.Font?
    ensures FontRuns(text, fs, fonts) == Merge(Pieces(UnitsLenient(text, 0), fs, fonts))
  {
    ShapeUnitsMerge(START, UnitsLenient(text, 0), fs, fonts);
  }

  lemma {:induction false} NoLineFeedKeepsAll(us: seq<Unit>)
    requires forall k :: 0 <= k < |us| ==> us[k].cp != LINE_FEED
    ensures NonLineFeedBytes(us) == Concat(us)
    ensures LineFeeds(us) == 0
  {
    if us != [] {
      NoLineFeedKeepsAll(us[1..]);
    }
  }

  /** A single-line text with a loaded primary font: its glyph runs spell
      out the whole input and there is no marker. */
  lemma SingleLineRunsSpellText(text: seq<byte>, fs: FontSet, fonts: FontOracle)
    requires fs.primary.Font?
    requires forall k :: 0 <= k < |UnitsLenient(text, 0)| ==> UnitsLenient(text, 0)[k].cp != LINE_FEED
    ensures GlyphBytes(FontRuns(text, fs, fonts)) == text
    ensures MarkerCount(FontRuns(text, fs, fonts)) == 0
  {
    FontRunsLossless(text, fs, fonts);
    FontRunsShape(text, fs, fonts);
    NoLineFeedKeepsAll(UnitsLenient(text, 0));
    LenientTiles(text, 0);
  }

  // ---------------------------------------------------------------------
  // computeTextMetrics
  // ---------------------------------------------------------------------

  /** The locals of the measuring loop: widths of the finished lines and the
      width of the line being measured. */
  datatype WidthState = WidthState(done: seq<int>, cur: int)

  /** The measuring loop over `runs`: a marker finishes the current line,
      a glyph run adds its advance `XftTextExtentsUtf8(...).xOff`. */
  function Widths(runs: seq<Run>, advance: (Handle, seq<byte>) -> int): (w: WidthState)
    ensures |w.done| == MarkerCount(runs)
  {
    if runs == [] then WidthState([], 0)
    else
      var w := Widths(runs[..|runs| - 1], advance);
      var r := runs[|runs| - 1];
      if IsMarker(r) then WidthState(w.done + [w.cur], 0)
      else WidthState(w.done, w.cur + advance(r.font, r.bytes))
  }

  /** `tm.line_widths`: the finished lines plus the last one. */
  function LineWidths(runs: seq<Run>, advance: (Handle, seq<byte>) -> int): (lw: seq<int>)
    ensures |lw| == MarkerCount(runs) + 1
  {
    Widths(runs, advance).done + [Widths(runs, advance).cur]
  }

  /** The summed advance of a list of runs. */
  function Advance(runs: seq<Run>, advance: (Handle, seq<byte>) -> int): int
  {
    if runs == [] then 0 else Advance(runs[..|runs| - 1], advance) + advance(runs[|runs| - 1].font, runs[|runs| - 1].bytes)
  }

  lemma {:induction false} WidthsAfterBreak(a: seq<Run>, b: seq<Run>, advance: (Handle, seq<byte>) -> int)
    ensures Widths(a + [LINE_BREAK] + b, advance)
            == WidthState(LineWidths(a, advance) + Widths(b, advance).done, Widths(b, advance).cur)
    decreases |b|
  {
    if b == [] {
      assert a + [LINE_BREAK] + b == a + [LINE_BREAK];
      assert (a + [LINE_BREAK])[..|a|] == a;
    } else {
      var b' := b[..|b| - 1];
      WidthsAfterBreak(a, b', advance);
      assert (a + [LINE_BREAK] + b)[..|a + [LINE_BREAK] + b| - 1] == a + [LINE_BREAK] + b';
    }
  }

  /** A marker splits the line widths: the lines before it, then the lines
      after it. So line k's width is measured over exactly the runs between
      the k-th and the (k+1)-th marker. */
  lemma LineWidthsSplit(a: seq<Run>, b: seq<Run>, advance: (Handle, seq<byte>) -> int)
    ensures LineWidths(a + [LINE_BREAK] + b, advance) == LineWidths(a, advance) + LineWidths(b, advance)
  {
    WidthsAfterBreak(a, b, advance);
  }

  /** Runs without a marker form one line whose width is their summed advance. */
  lemma {:induction false} SingleLineWidth(runs: seq<Run>, advance: (Handle, seq<byte>) -> int)
    requires MarkerCount(runs) == 0
    ensures LineWidths(runs, advance) == [Advance(runs, advance)]
  {
    if runs != [] {
      var front := runs[..|runs| - 1];
      SingleLineWidth(front, advance);
      var w := Widths(front, advance);
      assert w.done + [w.cur] == [Advance(front, advance)];
      assert w.done == [];
      assert w.done + [w.cur] == [w.cur];
    }
  }

  /** Finished lines stay finished: measuring a longer prefix only appends
      line widths. */
  lemma {:induction false} WidthsDonePrefix(runs: seq<Run>, i: nat, j: nat, advance: (Handle, seq<byte>) -> int)
    requires i <= j <= |runs|
    ensures Widths(runs[..i], advance).done <= Widths(runs[..j], advance).done
    decreases j - i
  {
    if i < j {
      WidthsDonePrefix(runs, i + 1, j, advance);
      assert runs[..i + 1][..i] == runs[..i];
    }
  }

  /** At the end of a line (before a marker, or at the end of the runs),
      the width measured since the last marker is that line's entry in
      `LineWidths`. */
  lemma LineWidthAtLineEnd(runs: seq<Run>, j: nat, advance: (Handle, seq<byte>) -> int)
    requires j <= |runs| && (j == |runs| || IsMarker(runs[j]))
    ensures MarkerCount(runs[..j]) < |LineWidths(runs, advance)|
    ensures LineWidths(runs, advance)[MarkerCount(runs[..j])] == Widths(runs[..j], advance).cur
  {
    if j == |runs| {
      assert runs[..j] == runs;
    } else {
      assert runs[..j + 1][..j] == runs[..j];
      WidthsDonePrefix(runs, j + 1, |runs|, advance);
      assert runs[..|runs|] == runs;
    }
  }

  /** The largest of `ws`, starting from 0: the `tm.width` loop. */
  function MaxWidth(ws: seq<int>): (m: int)
    ensures m >= 0
    ensures forall k :: 0 <= k < |ws| ==> ws[k] <= m
    ensures m == 0 || exists k :: 0 <= k < |ws| && ws[k] == m
  {
    if ws == [] then 0
    else
      var m0 := MaxWidth(ws[..|ws| - 1]);
      assert forall k :: 0 <= k < |ws| - 1 ==> ws[..|ws| - 1][k] == ws[k];
      if ws[|ws| - 1] > m0 then ws[|ws| - 1] else m0
  }

  /** `TextMetrics` without its cache. */
  datatype TextMetrics = TextMetrics(runs: seq<Run>, lineWidths: seq<int>, width: int, height: int)

  /** The height of `lines` lines of `fontHeight` each, stacked one font
      height at a time (so that unfolding it stays linear). */
  function StackedHeight(lines: nat, fontHeight: int): int
  {
    if lines == 0 then 0 else StackedHeight(lines - 1, fontHeight) + fontHeight
  }

  /** Stacking is the product `lines * font_height` of the source. */
  lemma {:induction false} StackedHeightIsProduct(lines: nat, fontHeight: int)
    ensures StackedHeight(lines, fontHeight) == lines * fontHeight
  {
    if lines > 0 {
      StackedHeightIsProduct(lines - 1, fontHeight);
      assert (lines - 1) * fontHeight + fontHeight == lines * fontHeight;
    }
  }

  /** What `computeTextMetrics` computes on a cache miss. */
  function Measure(text: seq<byte>, fs: FontSet, fonts: FontOracle): (tm: TextMetrics)
    ensures |tm.lineWidths| == MarkerCount(tm.runs) + 1
    ensures tm.width >= 0 && forall k :: 0 <= k < |tm.lineWidths| ==> tm.lineWidths[k] <= tm.width
  {
    var runs := FontRuns(text, fs, fonts);
    var lw := LineWidths(runs, fonts.advance);
    TextMetrics(runs, lw, MaxWidth(lw), StackedHeight(MarkerCount(runs) + 1, fs.fontHeight))
  }

  /** The measured height is one font height per line, and a text has one
      line more than it has decoded line feeds; the width is the widest line. */
  lemma MeasureHeight(text: seq<byte>, fs: FontSet, fonts: FontOracle)
    ensures Measure(text, fs, fonts).height == (LineFeeds(UnitsLenient(text, 0)) + 1) * fs.fontHeight
    ensures |Measure(text, fs, fonts).lineWidths| == LineFeeds(UnitsLenient(text, 0)) + 1
    ensures Measure(text, fs, fonts).width == 0
            || exists k :: 0 <= k < |Measure(text, fs, fonts).lineWidths|
                           && Measure(text, fs, fonts).lineWidths[k] == Measure(text, fs, fonts).width
  {
    FontRunsShape(text, fs, fonts);
    StackedHeightIsProduct(LineFeeds(UnitsLenient(text, 0)) + 1, fs.fontHeight);
  }

  /** The empty text is one empty line: width 0, one font height. */
  lemma MeasureEmpty(fs: FontSet, fonts: FontOracle)
    ensures Measure([], fs, fonts) == TextMetrics([], [0], 0, fs.fontHeight)
  {
    assert StackedHeight(1, fs.fontHeight) == StackedHeight(0, fs.fontHeight) + fs.fontHeight;
  }

  /** The line-width loop of `computeTextMetrics`. */
  method MeasureLines(runs: seq<Run>, advance: (Handle, seq<byte>) -> int) returns (lineWidths: seq<int>)
    ensures lineWidths == LineWidths(runs, advance)
  {
    lineWidths := [];
    var current := 0;
    var k := 0;
    while k < |runs|
      invariant 0 <= k <= |runs|
      invariant Widths(runs[..k], advance) == WidthState(lineWidths, current)
    {
      assert runs[..k + 1][..k] == runs[..k];
      var r := runs[k];
      if IsMarker(r) {
        lineWidths := lineWidths + [current];
        current := 0;
      } else {
        current := current + advance(r.font, r.bytes);
      }
      k := k + 1;
    }
    assert runs[..k] == runs;
    lineWidths := lineWidths + [current];
  }

  /** The maximum loop of `computeTextMetrics`. */
  method MaxLineWidth(lineWidths: seq<int>) returns (width: int)
    ensures width == MaxWidth(lineWidths)
  {
    width := 0;
    var k := 0;
    while k < |lineWidths|
      invariant 0 <= k <= |lineWidths|
      invariant width == MaxWidth(lineWidths[..k])
    {
      assert lineWidths[..k + 1][..k] == lineWidths[..k];
      if lineWidths[k] > width {
        width := lineWidths[k];
      }
      k := k + 1;
    }
    assert lineWidths[..k] == lineWidths;
  }

  /** The cache-miss body of `computeTextMetrics`: shape, measure each
      line, take the widest, and count the lines for the height. */
  method BuildTextMetrics(text: seq<byte>, fs: FontSet, fonts: FontOracle) returns (tm: TextMetrics)
    ensures tm == Measure(text, fs, fonts)
  {
    var runs := Utf8ToFontRuns(text, fs, fonts);
    var lineWidths := MeasureLines(runs, fonts.advance);
    var width := MaxLineWidth(lineWidths);
    var lineCount := |lineWidths|;
    tm := TextMetrics(runs, lineWidths, width, lineCount * fs.fontHeight);
    StackedHeightIsProduct(lineCount, fs.fontHeight);
  }
}
