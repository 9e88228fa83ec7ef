# X11 window overlay: text and window-tracking core in Dafny

The X11 window overlay draws text on a transparent, click-through window
that sits above a target application's window. The target is found by its
`WM_CLASS` and followed as it moves and resizes. The repository has three
implementations of this core:

- `draw/draw_x11.cpp`: the Xft backend. It keeps font sets with emoji and
  symbol fallbacks, a cache of measured text, multi-line and aligned text,
  outlines and backgrounds, and an ARGB overlay window with a back-buffer
  pixmap.
- `overlay.cpp`: a single-file overlay. It decodes UTF-8 strictly, finds a
  fallback font for each code point through fontconfig and caches it by
  file, shapes strings into runs of one font each, and draws plain, boxed
  and outlined text.
- `draw/draw_cairo.cpp`: the Cairo/Pango backend. It has the same window
  life cycle, an off-screen buffer sized to the window, and text drawn as
  Pango layouts.

The model keeps the decisions these files make and treats every X11, Xft,
fontconfig, Cairo and Pango call as data:

- The window tree is a `Desktop` value: the windows, their classes,
  geometries and origins, and whether an ARGB visual exists.
- Fonts are a `FontOracle` value, which supplies coverage, ascent, descent
  and advance.
- Fontconfig matching is a `Fontconfig` value.
- Every X resource id (colormap, window, pixmap, draw, GC, surface, cairo
  context) comes from a counter. So "a new buffer" and "the same buffer"
  can be told apart.
- Drawing appends operations to a `canvas` sequence. Showing a frame
  copies the canvas to `shown`.

Modules, one per file:

- `common.dfy` (`Common`): bytes, nullable handles, `Option`, alignment,
  C's truncating division, rectangles, and the horizontal alignment rule
  that all backends share.
- `utf8.dfy` (`Utf8`): the lenient decoder of `draw_x11.cpp`, the strict
  decoder of `overlay.cpp`, an encoder, and the tiling of a byte string
  into decoded units.
- `windows.dfy` (`WindowTree`): the window tree, the depth-first class
  search that all three backends use, and geometry queries.
- `fontset.dfy` (`FontSets`): the font-request normalisation, font-set
  loading with fallbacks and line metrics, and the per-character font
  choice of `draw_x11.cpp`.
- `shaper.dfy` (`Shaper`): `utf8ToFontRuns` and `computeTextMetrics`,
  which cover line breaks, per-line widths, the widest line and the
  stacked height.
- `placement.dfy` (`Placement`): `drawTextRuns` and `drawTextRunsOutline`
  as lists of glyph draws, the eight outline offsets, and the background
  rectangle.
- `x11_overlay.dfy` (`X11Overlay`): the state of `draw_x11.cpp` as class
  `Overlay`. It covers the life cycle, window following, the font and
  metrics caches, and the `draw*` entry points.
- `standalone.dfy` (`StandaloneOverlay`): `overlay.cpp`. It covers the
  fallback cache, `shape_to_runs`, measuring, `draw_runs`,
  `draw_runs_outline` and the three `drawString*` functions on class
  `Renderer`.
- `cairo_overlay.dfy` (`CairoOverlay`): the state of `draw_cairo.cpp` as
  class `Overlay`, with its life cycle, off-screen buffer, frames and text
  drawing.

## Model

| member | source | states |
|---|---|---|
| Common.AlignOf | draw/draw.h:3-5 | code 1 selects centring and code 3 selects right alignment, in both directions; every other code, including 2, falls to left alignment as the `default:` branches do |
| Common.CDiv | overlay.cpp:464 | the quotient truncates toward zero: the remainder has the sign of the dividend and is smaller than the divisor |
| Common.Max | draw/draw_x11.cpp:280-288 | the result is at least both arguments and equals one of them |
| Common.TextX | overlay.cpp:461-468 | the x where text of width `w` starts, for the integer alignment code, is the shared alignment rule applied to the decoded code |
| Common.AlignXPlacesText | draw/draw_cairo.cpp:319-324 | left-aligned text starts at the anchor; right-aligned text ends at it; centred text has at most one pixel more on the right of the anchor than on the left |
| Utf8.LeadLength | draw/draw_x11.cpp:79-93 | a lead byte announces at most four bytes |
| Utf8.NextLenient | draw/draw_x11.cpp:69-96 | no unit past the end; otherwise it advances 1 to 4 bytes, staying within the string; a multi-byte lead consumes its announced length whenever that fits and one byte otherwise; ASCII is decoded as itself; a one-byte non-ASCII unit is U+FFFD; a longer unit assembles its payload bits |
| Utf8.NextStrict | overlay.cpp:67-92 | no unit past the end; a unit consumes its announced length exactly when the lead byte and all its continuation bytes are well formed and fit, and one byte otherwise; one-byte non-ASCII units are U+FFFD |
| Utf8.AssembleBounds | draw/draw_x11.cpp:81-91 | an assembled two-, three- or four-byte code point is non-negative and below 0x800, 0x10000 or 0x200000 respectively |
| Utf8.StrictAgreesWithLenient | overlay.cpp:67-92 | on ASCII and on well-formed sequences the strict and the lenient decoder consume the same bytes and yield the same code point |
| Utf8.Encode | overlay.cpp:67-92 | the encoding of a code point below 0x200000 has 1 to 4 bytes |
| Utf8.StrictDecodesEncode | overlay.cpp:67-92 | the strict decoder reads back every encoded code point with its exact length, whatever follows it |
| Utf8.LenientDecodesEncode | draw/draw_x11.cpp:69-96 | the lenient decoder also reads back every encoded code point with its exact length, whatever follows it |
| Utf8.UnitsLenient | draw/draw_x11.cpp:324-328 | the units the lenient decoder splits a string into have 1 to 4 bytes each |
| Utf8.UnitsStrict | overlay.cpp:157-160 | the units the strict decoder splits a string into have 1 to 4 bytes each |
| Utf8.LenientTiles | draw/draw_x11.cpp:324-328 | the lenient units, concatenated, give back the rest of the string: no byte is skipped or repeated |
| Utf8.StrictTiles | overlay.cpp:157-171 | the strict units, concatenated, give back the rest of the string |
| WindowTree.GeometryAfter | draw/draw_x11.cpp:179-203 | the recorded geometry changes only when the display is open, the window is non-zero and both its attributes and its origin can be read |
| WindowTree.FirstMatchNone | draw/draw_x11.cpp:135-177 | the search finds nothing exactly when no window in the sequence has the class |
| WindowTree.FirstMatchIsFirst | draw/draw_x11.cpp:135-177 | a found window has the class, and no window before it does |
| WindowTree.FirstMatchConcat | draw/draw_x11.cpp:143-172 | searching two sequences one after the other finds the first sequence's match, or else the second's |
| WindowTree.FindWindowByClass | draw/draw_x11.cpp:135-177 | the recursive loop over the children finds the first window, in pre-order below the root, whose class matches; the same function is at draw/draw_cairo.cpp:60-100 |
| WindowTree.FindSoundAndComplete | draw/draw_x11.cpp:135-177 | a window is found exactly when some descendant has the class, and the found one is the first such in pre-order |
| WindowTree.SubtreeBeforeLaterSibling | draw/draw_x11.cpp:143-172 | a match inside a child's subtree wins over every later sibling |
| WindowTree.SkipNonMatching | draw/draw_x11.cpp:143-172 | children that do not match and whose subtrees hold no match can be skipped without changing the result |
| WindowTree.SkipOne | draw/draw_x11.cpp:143-172 | one child that does not match, with no match in its subtree, is skipped without changing the result |
| FontSets.RequestFamily | draw/draw_x11.cpp:224 | a null family becomes "Consolas"; any other family is kept |
| FontSets.RequestSize | draw/draw_x11.cpp:225-238 | a positive size is scaled by 20/16 and truncated; a size of 0 or less becomes 25 |
| FontSets.RequestSizeGrows | draw/draw_x11.cpp:225-238 | the requested size is at least 1 and never smaller than a positive size asked for |
| FontSets.OpenedFallbacks | draw/draw_x11.cpp:263-273 | only the fallback families that opened are kept, in order, and all of them are fonts |
| FontSets.MaxMetric | draw/draw_x11.cpp:275-290 | the line metric is at least 0, at least the metric of every opened font, and 0 or equal to one font's metric |
| FontSets.LoadedFontSet | draw/draw_x11.cpp:250-293 | every fallback is a font; the line ascent and descent bound every font's ascent and descent; the font height is their sum |
| FontSets.LoadedFontSetPrimary | draw/draw_x11.cpp:254-261 | the primary font is the requested one if it opened, and otherwise "Consolas" at size 20; the line ascent is 0 or some member's ascent |
| FontSets.OpenFallbackFonts | draw/draw_x11.cpp:263-273 | the loop keeps exactly the families that opened |
| FontSets.AccumulateMetric | draw/draw_x11.cpp:275-290 | the loop over the primary font and the fallbacks computes their maximum metric |
| FontSets.LoadFontSet | draw/draw_x11.cpp:250-293 | the font set that is built is the loaded font set of the normalised request |
| FontSets.FirstCovering | draw/draw_x11.cpp:301-303 | no fallback is chosen exactly when none covers the code point; a chosen one covers it and no earlier one does |
| FontSets.PickFontPriority | draw/draw_x11.cpp:296-306 | the primary font wins when it covers the character; otherwise the first covering fallback wins; with none covering, the primary font is used |
| FontSets.PickFontInSet | draw/draw_x11.cpp:296-306 | the chosen font is always the primary font or one of the fallbacks, and is a real font when the primary font is |
| Shaper.Utf8ToFontRuns | draw/draw_x11.cpp:318-357 | the loop builds exactly the runs of the fold over the decoded units |
| Shaper.MarkerCountAppend | draw/draw_x11.cpp:332-356 | appending a run adds one line break if it is the break marker, and adds its bytes to the glyph text otherwise |
| Shaper.WellFormedAppend | draw/draw_x11.cpp:332-356 | appending a break marker or a non-empty run of a real font keeps the runs well formed |
| Shaper.ShapeStepCounts | draw/draw_x11.cpp:326-353 | one decoding step keeps the runs well formed and adds a break marker exactly for a line feed |
| Shaper.ShapeUnitsCounts | draw/draw_x11.cpp:324-356 | shaping any units keeps the runs well formed and yields one marker per line feed |
| Shaper.FontRunsShape | draw/draw_x11.cpp:318-357 | the runs of any text are well formed, and there are as many break markers as line feeds |
| Shaper.BoundariesAppend | draw/draw_x11.cpp:344-352 | consecutive glyph runs change font at each boundary, and appending a run of a different font keeps that so |
| Shaper.StepCoherent | draw/draw_x11.cpp:326-353 | one step keeps the pending bytes non-empty exactly while a current font is set, and keeps fonts changing at run boundaries |
| Shaper.StepGlyphBytes | draw/draw_x11.cpp:326-353 | one step adds the unit's bytes to the glyph text, unless the unit is a line feed |
| Shaper.ShapeUnitsCoherent | draw/draw_x11.cpp:324-356 | shaping keeps coherence, and the glyph text grows by exactly the non-line-feed bytes |
| Shaper.FontRunsLossless | draw/draw_x11.cpp:318-357 | the runs spell out every byte of the text except the line feeds, in order, and adjacent glyph runs differ in font |
| Shaper.NoLineFeedKeepsAll | draw/draw_x11.cpp:330-353 | units without a line feed lose no bytes and make no line breaks |
| Shaper.SingleLineRunsSpellText | draw/draw_x11.cpp:318-357 | the runs of a single line spell out the text exactly, with no break marker |
| Shaper.MergeFromEmpty | draw/draw_x11.cpp:318-357 | merging pieces yields no run only when there was nothing to merge |
| Shaper.StepMerges | draw/draw_x11.cpp:324-354 | one iteration of the loop merges the unit's piece (its bytes in its picked font, or the marker) into the runs so far |
| Shaper.ShapeUnitsMerge | draw/draw_x11.cpp:324-354 | the loop merges the pieces of all units, in order |
| Shaper.FontRunsMerge | draw/draw_x11.cpp:318-357 | with a loaded primary font, the runs are the units' pieces, each in the font `pickFontForChar` picks for its code point, with neighbouring pieces of one font joined and a marker per line feed |
| Shaper.Widths | draw/draw_x11.cpp:368-390 | one finished width is recorded per line break |
| Shaper.LineWidths | draw/draw_x11.cpp:368-390 | there is one width per line, that is, one more than the number of break markers |
| Shaper.WidthsAfterBreak | draw/draw_x11.cpp:374-380 | after a break marker the earlier lines' widths are final and measuring restarts from 0 |
| Shaper.LineWidthsSplit | draw/draw_x11.cpp:368-390 | the line widths of two pieces joined by a break are the widths of the first followed by the widths of the second |
| Shaper.SingleLineWidth | draw/draw_x11.cpp:368-390 | a text without breaks has one line, as wide as the sum of its runs' advances |
| Shaper.WidthsDonePrefix | draw/draw_x11.cpp:368-390 | the finished widths only grow as more runs are measured |
| Shaper.LineWidthAtLineEnd | draw/draw_x11.cpp:368-390 | at the end of each line, the width being accumulated is that line's entry |
| Shaper.MaxWidth | draw/draw_x11.cpp:392-398 | the width is at least 0, at least every line's width, and 0 or equal to one of them |
| Shaper.StackedHeightIsProduct | draw/draw_x11.cpp:400 | the stacked height is the number of lines times the font height |
| Shaper.Measure | draw/draw_x11.cpp:359-404 | there is one line width per line, and the text width is at least 0 and bounds every line |
| Shaper.MeasureHeight | draw/draw_x11.cpp:359-404 | the height is (line feeds + 1) times the font height; there are that many line widths; the width is 0 or some line's width |
| Shaper.MeasureEmpty | draw/draw_x11.cpp:359-404 | the empty text measures to no runs, one line of width 0, and the height of one line |
| Shaper.MeasureLines | draw/draw_x11.cpp:368-390 | the loop computes exactly the per-line widths |
| Shaper.MaxLineWidth | draw/draw_x11.cpp:392-398 | the loop computes exactly the widest line |
| Shaper.BuildTextMetrics | draw/draw_x11.cpp:359-404 | building metrics gives exactly the measure of the text in the font set |
| Placement.Glyphs | draw/draw_x11.cpp:445-446 | each glyph draw becomes one painted glyph, in order |
| Placement.OffsetsAreSteps | draw/draw_x11.cpp:455 | there are eight distinct outline offsets, each one step in x and in y and none the zero offset |
| Placement.OffsetsCoverNeighbourhood | draw/draw_x11.cpp:455 | every one of the eight neighbouring directions is an outline offset |
| Placement.OutlinePasses | draw/draw_x11.cpp:489-500 | every glyph run is outlined in eight passes |
| Placement.OutlineRing | draw/draw_x11.cpp:489-500 | the eight passes draw the run's bytes in its font with outline ink, at distinct positions on the square ring at the thickness around the pen |
| Placement.PenAfterStep | draw/draw_x11.cpp:422-448 | drawing one more run is one more step of the pen |
| Placement.PenTracksLines | draw/draw_x11.cpp:422-448 | after any runs, the pen is on the line numbered by the breaks seen, one font height lower per line, at that line's start plus the advance measured on it |
| Placement.DrawCount | draw/draw_x11.cpp:422-510 | plain drawing issues one draw per glyph run; outlined drawing issues nine |
| Placement.LinesAreAligned | draw/draw_x11.cpp:413-437 | every line starts at the alignment rule applied to its own width and ends at that start plus its width |
| Placement.RightAlignedLinesEndAtAnchor | draw/draw_x11.cpp:418-436 | with right alignment every line ends exactly at the anchor x |
| Placement.LineStartX | draw/draw_x11.cpp:413-437 | the pen x chosen at the start of a line is that line's aligned start |
| Placement.DrawTextRuns | draw/draw_x11.cpp:406-449 | the loop issues exactly the glyph draws of the pen walk over the runs |
| Placement.OutlineRunPasses | draw/draw_x11.cpp:489-500 | the inner loop issues exactly the eight outline passes of a run |
| Placement.DrawTextRunsOutline | draw/draw_x11.cpp:451-510 | the loop issues exactly the outlined pen walk: the eight outline passes, then the fill, per run |
| Placement.OutlineThickness | draw/draw_x11.cpp:704 | the thickness is at least 1: the width truncated when it is 1 or more, and 1 below that |
| Placement.BackgroundSurroundsText | draw/draw_x11.cpp:730-741 | for every alignment the background extends exactly `padding` beyond the aligned text on all four sides |
| X11Overlay.PaintText | draw/draw_x11.cpp:682-683 | painting a measured string draws its runs from the baseline one line ascent below `y` |
| X11Overlay.FontCacheExtend | draw/draw_x11.cpp:240-293 | adding a newly loaded font set under a new key keeps every cache entry equal to the set loaded for its key |
| X11Overlay.MetricsCacheExtend | draw/draw_x11.cpp:402 | storing freshly computed metrics keeps every cache entry equal to the measure of its key |
| X11Overlay.MetricsLookupAsWritten | draw/draw_x11.cpp:359-404 | the cache keyed by text alone: a hit returns the stored entry unchanged; a miss stores and returns the measure of the text |
| X11Overlay.StaleMetricsAcrossFontSizes | draw/draw_x11.cpp:361-363 | measuring a text in one font set and then in another of a different height returns the first set's metrics, whose height is wrong for the second |
| X11Overlay.MetricsHitIgnoresFontSet | draw/draw_x11.cpp:361-363 | as written, a cache hit returns the stored entry whatever font set the caller passes |
| X11Overlay.Overlay.constructor | draw/draw_x11.cpp:30-47 | the library starts with no display, no binding, zero geometry, empty caches and no recorded size |
| X11Overlay.Overlay.GetWindowGeometry | draw/draw_x11.cpp:179-203 | the geometry becomes the window's size and absolute origin when both can be read, and is otherwise unchanged |
| X11Overlay.Overlay.CreateOverlayWindow | draw/draw_x11.cpp:512-553 | without a 32-bit visual nothing changes; otherwise a new colormap, window, back buffer, draw and GC are made, with the window over the target geometry and the buffer its size |
| X11Overlay.Overlay.CleanupOverlayInternal | draw/draw_x11.cpp:611-664 | every window, buffer, draw, GC and font resource is released, and the overlay is no longer initialized |
| X11Overlay.Overlay.InitializeOverlayInternal | draw/draw_x11.cpp:569-609 | the display is opened if needed; binding succeeds exactly when the display is open and a window has the class; on failure nothing is held and the geometry is kept; on success the first matching window is bound with its geometry and a fresh overlay |
| X11Overlay.Overlay.BindTarget | draw/draw_x11.cpp:592-606 | binding a found window records it, reads its geometry and creates the overlay over it |
| X11Overlay.Overlay.TryInitialize | draw/draw_x11.cpp:776-804 | a live binding to an existing target is kept untouched, font cache included; otherwise the font cache is empty afterwards, the class given or else the remembered one is used, and the result is exactly whether it could be bound |
| X11Overlay.Overlay.Initialize | draw/draw_x11.cpp:806-810 | the class given, or "" when it is null, is remembered; a live binding keeps every resource, the geometry, the buffer and the font cache; otherwise the font cache is empty afterwards and the result is exactly whether the class could be bound |
| X11Overlay.Overlay.Shutdown | draw/draw_x11.cpp:812-821 | everything is released, the display is closed, and the metrics cache is cleared |
| X11Overlay.Overlay.BeginFrame | draw/draw_x11.cpp:823-830 | when initialized, the back buffer is cleared over the whole overlay; otherwise nothing changes |
| X11Overlay.Overlay.EndFrame | draw/draw_x11.cpp:832-839 | when initialized, the back buffer is shown over the whole overlay; otherwise nothing changes |
| X11Overlay.Overlay.RecreateBackBuffer | draw/draw_x11.cpp:860-880 | a new back buffer, draw and GC of the current size replace the old ones, and the buffer is empty |
| X11Overlay.Overlay.ResizeAsWritten | draw/draw_x11.cpp:857-884 | as written: the buffer is recreated and the recorded size updated exactly when the size differs from the recorded one; otherwise nothing changes |
| X11Overlay.Overlay.FollowTargetAsWritten | draw/draw_x11.cpp:854-884 | as written: the geometry and overlay window follow the target, and the buffer is recreated only when the size differs from the recorded `last_w`/`last_h`; otherwise the buffer, its draw and its GC are kept |
| X11Overlay.Overlay.UpdateWindowPositionAsWritten | draw/draw_x11.cpp:841-885 | as written: nothing happens unless bound; a lost target unbinds and keeps the recorded size; otherwise the overlay window, colormap, colours and font cache are kept, and the overlay follows the target as above |
| X11Overlay.Overlay.FollowTarget | draw/draw_x11.cpp:854-884 | corrected: the buffer is recreated exactly when the new size differs from the buffer's own size, so the buffer always fits the overlay; otherwise the buffer, its draw and its GC are kept |
| X11Overlay.Overlay.UpdateWindowPosition | draw/draw_x11.cpp:841-885 | corrected: nothing happens unless bound; a lost target unbinds and releases everything; a live target keeps the overlay window, colormap, colours and font cache, is followed, and the buffer keeps fitting the overlay |
| X11Overlay.UpdateThenDraw | draw/draw_x11.cpp:841-885 | after an update of a live target the caches stay coherent and the back buffer is still drawable, so a string drawn next ends the back buffer with its paint |
| X11Overlay.Overlay.GetWidth | draw/draw_x11.cpp:887-892 | the overlay width when initialized, and 0 otherwise |
| X11Overlay.Overlay.GetHeight | draw/draw_x11.cpp:894-899 | the overlay height when initialized, and 0 otherwise |
| X11Overlay.Overlay.GetFontSet | draw/draw_x11.cpp:222-294 | the result is the font set loaded for the normalised request; a hit leaves the cache as it was, and a miss appends exactly one entry |
| X11Overlay.Overlay.ComputeTextMetrics | draw/draw_x11.cpp:359-404 | corrected: the result is the measure of the text in the requested set; the cache is keyed by family, size and text and gains only that key on a miss |
| X11Overlay.Overlay.ResolveText | draw/draw_x11.cpp:678-679 | corrected: the font set is the one loaded for the request, and the metrics, found through the request-keyed cache, are always the text's exact measure in that set; the caches stay coherent |
| X11Overlay.Overlay.LayOutString | draw/draw_x11.cpp:678-683 | corrected: the paint for a string is the pen walk over the runs of its exact measure in the requested set |
| X11Overlay.Overlay.DrawStringPlain | draw/draw_x11.cpp:670-686 | corrected: nothing is drawn unless initialized with a back-buffer draw; otherwise the aligned runs of the text's exact measure in the requested set are appended to the back buffer |
| X11Overlay.Overlay.DrawStringOutline | draw/draw_x11.cpp:688-708 | corrected: the same guard; the outlined pen walk over the exact measure, at a thickness of at least 1, is appended |
| X11Overlay.Overlay.DrawStringBackground | draw/draw_x11.cpp:710-747 | corrected: the same guard; a background rectangle padded around the exact measure is filled, then the text is drawn |
| X11Overlay.Overlay.GetTextSize | draw/draw_x11.cpp:749-761 | corrected: nothing is reported unless initialized; otherwise the width and height of the text's exact measure in the requested set |
| X11Overlay.SingleChildFound | draw/draw_x11.cpp:135-177 | a root whose only child has the class yields that child |
| X11Overlay.FirstBinding | draw/draw_x11.cpp:806-884 | binding to an 800 by 600 window and following it once records 800 by 600 |
| X11Overlay.FirstSession | draw/draw_x11.cpp:812-821 | shutting down after the first binding releases everything and closes the display, but the recorded 800 by 600 survives |
| X11Overlay.StaleBufferAfterRebind | draw/draw_x11.cpp:857-884 | after shutdown, initializing again on a 640 by 480 window that then grows to 800 by 600 makes the as-written update keep a 640-wide buffer under an 800-wide overlay |
| StandaloneOverlay.MatchFontCache | overlay.cpp:96-145 | matching only adds to the fallback cache, only under the matched file, and caches the opened font for a newly opened file |
| StandaloneOverlay.MatchFontResult | overlay.cpp:96-145 | the primary font wins when it covers the code point; a cached file gives its cached font; the null font comes back only when there is no primary font |
| StandaloneOverlay.ExtendsTrans | overlay.cpp:131-144 | the fallback cache only ever grows, across any number of matches |
| StandaloneOverlay.RunBytesAppend | overlay.cpp:166-173 | appending a run appends its bytes to the shaped text |
| StandaloneOverlay.RunsAppend | overlay.cpp:165-173 | runs are non-empty with a real font, and neighbours differ in font |
| StandaloneOverlay.ShapingStepInv | overlay.cpp:157-172 | one shaping step keeps runs non-empty and neighbour fonts distinct |
| StandaloneOverlay.ShapingStepBytes | overlay.cpp:157-172 | one shaping step keeps a unit's bytes exactly when a font was found for it |
| StandaloneOverlay.ShapingUnitsInv | overlay.cpp:157-172 | shaping any units keeps the run invariant |
| StandaloneOverlay.ShapingUnitsBytes | overlay.cpp:157-172 | the shaped text is exactly the bytes of the units that found a font |
| StandaloneOverlay.ShapingUnitsCache | overlay.cpp:157-172 | shaping only extends the fallback cache, and a cache holding only opened fonts keeps doing so |
| StandaloneOverlay.ShapedFallbacks | overlay.cpp:148-176 | shaping only extends the fallback cache, and keeps it holding only opened fonts |
| StandaloneOverlay.ShapedRuns | overlay.cpp:148-176 | the fallback cache only grows and keeps holding only opened fonts; there is at least one run; empty text gives one empty run of the primary font; otherwise runs are non-empty, neighbours differ in font, and they spell the bytes that found a font |
| StandaloneOverlay.KeptBytesAll | overlay.cpp:96-145 | with a primary font every unit finds a font, so no bytes are dropped |
| StandaloneOverlay.ShapedSpellsText | overlay.cpp:148-176 | with a primary font the runs spell out the text exactly |
| StandaloneOverlay.ShapingStepMerges | overlay.cpp:157-171 | one iteration merges the unit's piece, in the font the matcher returned for it, into the runs so far, or skips a unit whose font is null |
| StandaloneOverlay.ShapingUnitsMerge | overlay.cpp:157-172 | the loop merges the pieces of all units, with the fallback state threaded as the loop does |
| StandaloneOverlay.ShapedMerge | overlay.cpp:148-176 | the runs are the pieces of the kept code points, each in the font `match_font_for_char` returns for it, with neighbouring pieces of one font joined; no kept code point gives the single run of the primary font |
| StandaloneOverlay.RunPassAt | overlay.cpp:428-436 | the k-th run is drawn at the start x plus the advance of the runs before it |
| StandaloneOverlay.OutlineDrawsAppend | overlay.cpp:440-453 | outlining over two offset lists is outlining over the first, then over the second |
| StandaloneOverlay.RowUpToMembers | overlay.cpp:441-442 | one column of offsets up to a row holds exactly the offsets below it, except the origin |
| StandaloneOverlay.RowsUpToMembers | overlay.cpp:440-442 | the columns before a given one hold exactly the offsets to their left, except the origin |
| StandaloneOverlay.RowUpToCount | overlay.cpp:441-442 | the count of one column's offsets, less one for the origin |
| StandaloneOverlay.RowsUpToCount | overlay.cpp:440-442 | the count of several columns' offsets, less one for the origin |
| StandaloneOverlay.SquareOffsetsMembers | overlay.cpp:440-442 | the outline offsets are exactly the non-zero offsets within the thickness in x and in y |
| StandaloneOverlay.SquareOffsetsCount | overlay.cpp:440-442 | a thickness t gives (2t+1)^2 - 1 offsets, and a negative thickness none |
| StandaloneOverlay.OutlineDrawsCount | overlay.cpp:438-454 | outlining issues one draw per offset and run |
| StandaloneOverlay.DrawRuns | overlay.cpp:428-436 | the loop draws every run at the accumulated pen position |
| StandaloneOverlay.RowStep | overlay.cpp:441-451 | one more inner iteration adds a full pass of the runs at that offset, except at the origin |
| StandaloneOverlay.RowEnd | overlay.cpp:441 | the inner loop ends with the whole column |
| StandaloneOverlay.RowsEnd | overlay.cpp:440 | the outer loop ends with the whole square |
| StandaloneOverlay.RowsStep | overlay.cpp:440-452 | one more outer iteration adds a whole column of passes |
| StandaloneOverlay.OutlineRow | overlay.cpp:441-452 | the inner loop draws one column of outline passes |
| StandaloneOverlay.DrawRunsOutline | overlay.cpp:438-454 | the nested loops draw one pass of the runs per non-zero offset in the square of the thickness, column by column |
| StandaloneOverlay.BoxAsWrittenIsLopsided | overlay.cpp:478-499 | as written, a left-aligned box has all `2*padding` of its extra width on the right, and a right-aligned box has it all on the left |
| StandaloneOverlay.Box | overlay.cpp:478-499 | corrected: the box extends `padding` beyond the aligned text on both sides, starts at `y` and is `padding` below the line's height at the bottom |
| StandaloneOverlay.CenteredBoxAsWrittenIsPadded | overlay.cpp:485-488 | the centred box as written already has equal padding, and agrees with the corrected box |
| StandaloneOverlay.Renderer.constructor | overlay.cpp:32-63 | the renderer starts with its primary font and font height and an empty fallback cache and canvas |
| StandaloneOverlay.Renderer.MatchFontForChar | overlay.cpp:96-145 | the font returned and the new fallback cache are exactly those of the matching function; a cache holding only opened fonts keeps doing so |
| StandaloneOverlay.Renderer.ShapeToRuns | overlay.cpp:148-176 | the loop returns exactly the runs of the shaping fold and leaves its cache; a cache holding only opened fonts keeps doing so |
| StandaloneOverlay.Renderer.MeasureTextWidth | overlay.cpp:179-189 | the width is the total advance of the shaped runs; a cache holding only opened fonts keeps doing so |
| StandaloneOverlay.Renderer.ShapeAndMeasure | overlay.cpp:459-460 | the runs come from one shaping, and the width from a second shaping done from the cache the first one left; a cache holding only opened fonts keeps doing so |
| StandaloneOverlay.Renderer.DrawString | overlay.cpp:457-472 | the runs are drawn from the aligned x at the baseline; a cache holding only opened fonts keeps doing so |
| StandaloneOverlay.Renderer.DrawStringBackground | overlay.cpp:475-503 | corrected: a box padded on all sides is filled, then the runs are drawn `padding` lower; a cache holding only opened fonts keeps doing so |
| StandaloneOverlay.Renderer.DrawStringOutline | overlay.cpp:506-525 | the outline passes for every non-zero offset within the thickness, then the fill, all from the aligned x; a cache holding only opened fonts keeps doing so |
| CairoOverlay.FontOf | draw/draw_cairo.cpp:48-58 | the size is always positive: the one asked for, or 20; the family is the one asked for, or "Consolas" |
| CairoOverlay.Backdrop | draw/draw_cairo.cpp:410-418 | the backdrop extends exactly `padding` beyond the laid-out text on all four sides |
| CairoOverlay.Overlay.constructor | draw/draw_cairo.cpp:14-31 | the library starts with no display, no binding, zero geometry and no recorded size |
| CairoOverlay.Overlay.GetWindowGeometry | draw/draw_cairo.cpp:102-145 | the result says whether both the attributes and the origin could be read, and the geometry follows it |
| CairoOverlay.Overlay.CreateOverlayWindow | draw/draw_cairo.cpp:154-182 | without a 32-bit visual nothing changes; otherwise a new colormap, window and surface are made over the target geometry |
| CairoOverlay.Overlay.EnsureOffscreenBuffer | draw/draw_cairo.cpp:184-195 | afterwards there is an off-screen buffer the window's size; it is new and empty exactly when there was none or the size changed since last time |
| CairoOverlay.Overlay.CleanupOverlayInternal | draw/draw_cairo.cpp:255-290 | everything is released and the overlay is not initialized; releasing twice changes nothing |
| CairoOverlay.Overlay.InitializeOverlayInternal | draw/draw_cairo.cpp:221-253 | the display is opened if needed; binding succeeds exactly when the first matching window's geometry can be read; a failure keeps the geometry and holds no window |
| CairoOverlay.Overlay.AdoptTarget | draw/draw_cairo.cpp:243-252 | the window is recorded as the target, and binding succeeds exactly when its geometry can be read |
| CairoOverlay.Overlay.TryInitialize | draw/draw_cairo.cpp:460-488 | a live binding to an existing target is kept untouched; otherwise the class given, or else the remembered one, is used and the result is exactly whether it could be bound |
| CairoOverlay.Overlay.Initialize | draw/draw_cairo.cpp:490-494 | the class given, or "" when it is null, is remembered, then as for TryInitialize |
| CairoOverlay.Overlay.Shutdown | draw/draw_cairo.cpp:496-504 | everything is released and the display is closed |
| CairoOverlay.Overlay.BeginFrame | draw/draw_cairo.cpp:506-520 | when initialized, a new cairo context draws on an empty off-screen buffer the window's size; otherwise nothing changes |
| CairoOverlay.Overlay.EndFrame | draw/draw_cairo.cpp:522-540 | with a context, the buffer is shown and the context dropped; otherwise nothing changes |
| CairoOverlay.Overlay.UpdateWindowPosition | draw/draw_cairo.cpp:542-564 | nothing happens unless bound; the binding survives exactly when the target's geometry can be read; a lost target releases everything; otherwise the window, surface, colormap and contexts are kept and follow the target |
| CairoOverlay.Overlay.Width | draw/draw_cairo.cpp:566-571 | the overlay width when initialized, and 0 otherwise |
| CairoOverlay.Overlay.Height | draw/draw_cairo.cpp:573-578 | the overlay height when initialized, and 0 otherwise |
| CairoOverlay.Overlay.DrawStringPlain | draw/draw_cairo.cpp:296-331 | without a current context nothing is drawn; otherwise the layout is shown at the aligned x from its pixel width |
| CairoOverlay.Overlay.DrawStringOutline | draw/draw_cairo.cpp:333-377 | the same guard; the layout is stroked and then filled at the aligned x |
| CairoOverlay.Overlay.DrawStringBackground | draw/draw_cairo.cpp:379-425 | the same guard; a padded backdrop is filled around the laid-out text, then the layout is shown |
| CairoOverlay.Overlay.GetTextSize | draw/draw_cairo.cpp:427-445 | there is a result exactly when there is a current context, and it is the layout's pixel size in the requested font |

## Left out

- X11, Xft, fontconfig, Cairo and Pango calls are modelled as data. The
  window tree, the fonts, the fontconfig match and the Pango pixel size
  are values passed in, and drawing appends operations to a list. No
  pixels, colours or alpha are modelled. Colours (`createXftColor`,
  `rgba_to_pixel`) are left out.
- The Xlib error handler and the `x_error` flag of draw/draw_cairo.cpp
  are folded into `Desktop`: a window whose attributes or origin cannot be
  read is absent from those maps, and the read returns false.
- X11Overlay.Overlay.GetWindowGeometry: draw/draw_x11.cpp installs no
  error handler, so reading a destroyed window raises BadWindow through
  Xlib's default handler, which ends the process. The model treats the
  failed read as a false return, as draw_cairo.cpp's handler does.
- X11Overlay.Overlay.TryInitialize: the lost-target branch (cleanup, then
  a new search) rests on that false return; in the source a destroyed
  target ends the process instead.
- X11Overlay.Overlay.UpdateWindowPositionAsWritten: the lost-target
  branch rests on the same false return.
- X11Overlay.Overlay.UpdateWindowPosition: the lost-target branch rests on
  the same false return.
- X11Overlay.Overlay.RecreateBackBuffer: without a 32-bit visual the
  overlay window is 0, and `XCreatePixmap` on drawable 0 with the depth of
  an unfilled `XVisualInfo` (draw/draw_x11.cpp:876-878) is an X error
  that ends the process. The model allocates a buffer, draw and GC.
- X11Overlay.Overlay.ResizeAsWritten: in that case the first size change
  ends the process through `XCreatePixmap`; the model recreates the buffer.
- X11Overlay.Overlay.FollowTargetAsWritten: without a 32-bit visual,
  `XMoveResizeWindow` on window 0 (draw/draw_x11.cpp:855) is an X error
  that ends the process. The model moves the recorded overlay rectangle.
- X11Overlay.Overlay.FollowTarget: the same `XMoveResizeWindow` on window
  0, and the same `XCreatePixmap` on drawable 0, are modelled as success.
- X11Overlay.Overlay.UpdateWindowPositionAsWritten: the live-target branch
  reaches both calls, so without a 32-bit visual it ends the process where
  the model follows the target.
- X11Overlay.Overlay.UpdateWindowPosition: the same no-visual case is
  modelled as success.
- Floating point appears only where it decides an integer. The size
  compensation is exact as `(size * 5) / 4`. The X11 outline thickness
  is the truncated `max(1.0, width)`. The Cairo outline stroke width is
  left out.
- The programs' `main` loops, timers, sleeping and signal handling are
  left out. The copies under `cairo/` and `src/` and the declarations in
  `x11/draw_x11.h` repeat the modelled files and are not part of this
  model.
- X11Overlay.Overlay.CleanupOverlayInternal: fonts are closed but
  `textMetricsCache` keeps the raw `XftFont*` pointers inside its runs.
  The model's runs hold handles that stay comparable, so the dangling
  pointers are not captured.
- StandaloneOverlay.MatchFont: fontconfig's pattern construction and
  scoring are one oracle from code point to match. The cache is keyed by
  the file path, as in the source.
- StandaloneOverlay.Renderer.ShapeAndMeasure: the source shapes each
  string twice, once to draw and once to measure. This is kept, but the
  XftFont reference counting behind repeated opens is not.
- StandaloneOverlay.Renderer.constructor: the primary `font` and
  `font_height` are fixed when the renderer is made. Their loading at
  start-up (`XftFontOpenName`, `createXftFont`) is left out.
- CairoOverlay.Overlay.DrawStringPlain: Pango places each line of a
  multi-line layout itself. The model takes the layout's pixel size from
  the `pixelSize` oracle and does not model the lines inside it.
- CairoOverlay.Overlay.EndFrame: when no 32-bit visual exists, the
  source paints onto a null window surface. The model records the frame
  as shown and does not model the failing cairo call.
- CairoOverlay.Overlay.BeginFrame: a second `beginFrame` without an
  `endFrame` leaks the first cairo context. The model only records that
  a new context replaces it.
- Utf8.NextLenient: for three- and four-byte forms draw/draw_x11.cpp
  reads the continuation bytes with several `s[i++]` in one unsequenced
  expression, so C++ fixes no order between them. The model assumes the
  left-to-right, most-significant-first reading. The number of bytes
  consumed does not depend on that order.
- X11Overlay.Overlay.ResolveText: models the corrected, request-keyed
  metrics cache, not the text-keyed `textMetricsCache` of
  draw/draw_x11.cpp:361-363. The source's lookup is
  X11Overlay.MetricsLookupAsWritten, and the stale hit it allows is
  Findings row A.
- X11Overlay.Overlay.LayOutString: paints the exact measure through the
  corrected cache, not the text-keyed cached runs (Findings row A).
- X11Overlay.Overlay.DrawStringPlain: draws the runs of the exact measure
  through the corrected cache, not the text-keyed cached runs (Findings
  row A).
- X11Overlay.Overlay.DrawStringOutline: the same as DrawStringPlain.
- X11Overlay.Overlay.DrawStringBackground: the box and the runs come from
  the exact measure through the corrected cache, where the source can use
  a stale size cached under the text alone (Findings row A).
- X11Overlay.Overlay.GetTextSize: reports the exact measure through the
  corrected cache, where the source can report a stale size cached under
  the text alone (Findings row A).
- X11Overlay.Overlay.BeginFrame: without a 32-bit visual,
  `createOverlayWindow` returns before it makes a GC or a back buffer, yet
  the overlay counts as initialized. `beginFrame` then clears through a
  null GC, which the model records as an ordinary clear.
- X11Overlay.Overlay.EndFrame: in the same case `endFrame` copies with a
  null GC to a zero window. The model records the frame as shown.
- StandaloneOverlay.Renderer.DrawStringBackground: fills the corrected box,
  padded on both sides, where overlay.cpp:483-497 fills a rectangle that
  starts at the text's own left edge (left alignment) or ends at it
  (right alignment). The as-written box is StandaloneOverlay.BoxAsWritten,
  Findings row C.
- CairoOverlay.Overlay.UpdateWindowPosition: without a 32-bit visual there
  is no overlay window or surface, and the source moves a zero window and
  resizes a null cairo surface. The model records the new surface size.
- `draw/draw.h` declares entry points whose signatures differ from
  `draw_cairo.cpp`'s definitions (colour arguments, optional parameters).
  The model follows the definitions.
- Integer overflow is not modelled: widths, heights and positions are
  unbounded integers.

## Findings

| source | as written | input that shows it | evidently intended | confidence | as-written member | corrected member |
|---|---|---|---|---|---|---|
| draw/draw_x11.cpp:361-363 | `textMetricsCache` is keyed by the text alone, so a string measured in one font family or size is returned with those metrics when asked for in another | measure "A" at size 20, then "A" at size 40: the second call returns the size-20 height | key the cache by family, size and text | not executed | X11Overlay.StaleMetricsAcrossFontSizes | X11Overlay.Overlay.ComputeTextMetrics |
| draw/draw_x11.cpp:857-884 | the function-local statics `last_w`/`last_h` survive `shutdown()` and `cleanupOverlayInternal()`, and buffer creation does not set them, so a rebound target whose size later returns to the previous session's value keeps a buffer of the creation size | initialize on an 800x600 window and update; shutdown(); initialize on a 640x480 window; it grows to 800x600; update: the buffer stays 640x480 under an 800x600 overlay | recreate the buffer whenever its own size differs from the window's | not executed | X11Overlay.StaleBufferAfterRebind | X11Overlay.Overlay.UpdateWindowPosition |
| overlay.cpp:478-499 | for left and right alignment the box is `text_width + 2*padding` wide but is anchored at the text's own edge, so all the padding lands on one side | left alignment, padding 4, x 10: the text starts at 10 and so does the box, with 8 pixels of padding on the right | pad by `padding` on both sides, as the centred case already does | not executed | StandaloneOverlay.BoxAsWrittenIsLopsided | StandaloneOverlay.Box |
