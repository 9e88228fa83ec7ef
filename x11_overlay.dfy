/** The Xlib/Xft backend of draw/draw_x11.cpp: the overlay's lifecycle
    (bind to a target window found by class, follow its geometry, rebind
    when it disappears, release everything on cleanup), its two caches,
    and the `Draw::` entry points that paint into the back buffer. */
module X11Overlay {
  import opened Common
  import opened Utf8
  import opened WindowTree
  import opened FontSets
  import opened Shaper
  import opened Placement

  /** The key under which measured text is cached: the normalised font
      request and the text. */
  datatype MetricsKey = MetricsKey(family: string, size: int, text: seq<byte>)

  /** The font set `getFontSet(font_family, font_size)` resolves to. */
  function RequestedFontSet(family: Option<string>, size: int, fonts: FontOracle): FontSet
  {
    LoadedFontSet(RequestFamily(family), RequestSize(size), fonts)
  }

  /** What `Draw::drawString*` paints for a text measured as `tm` in the
      font set `fs`, anchored at `x` with its first baseline one line ascent
      below `y`: the glyph draws of `drawTextRuns` (or, with a thickness,
      `drawTextRunsOutline`) as back-buffer operations. */
  function MeasuredPaint(tm: TextMetrics, x: int, y: int, fs: FontSet, align: Align, outline: Option<int>,
                         advance: (Handle, seq<byte>) -> int): seq<Paint>
  {
    Glyphs(PenAfter(tm.runs, Layout(tm.lineWidths, x, y + fs.lineAscent, fs.fontHeight, align), advance, outline).draws)
  }

  /** The drawing step shared by the `Draw::drawString*` functions. */
  method PaintText(tm: TextMetrics, x: int, y: int, fs: FontSet, align: Align, outline: Option<int>,
                   advance: (Handle, seq<byte>) -> int) returns (paint: seq<Paint>)
    ensures paint == MeasuredPaint(tm, x, y, fs, align, outline, advance)
  {
    var draws;
    if outline.None? {
      draws := DrawTextRuns(tm, x, y + fs.lineAscent, fs.fontHeight, align, advance);
    } else {
      draws := DrawTextRunsOutline(tm, x, y + fs.lineAscent, fs.fontHeight, align, advance, outline.value);
    }
    paint := Glyphs(draws);
  }

  /** A cache entry for the normalised key (`family`, `size`). */
  predicate HasKey(cache: seq<FontCacheEntry>, family: string, size: int)
  {
    exists k :: 0 <= k < |cache| && cache[k].family == family && cache[k].size == size
  }

  /** Every cached font set is what `getFontSet` loads for its key, and no
      key is cached twice. */
  predicate FontCacheHolds(cache: seq<FontCacheEntry>, fonts: FontOracle)
  {
    && (forall k :: 0 <= k < |cache| ==>
          cache[k].fontSet == LoadedFontSet(cache[k].family, cache[k].size, fonts))
    && (forall i, j :: 0 <= i < j < |cache| ==>
          cache[i].family != cache[j].family || cache[i].size != cache[j].size)
  }

  /** Every cached measurement is the measurement of its text in the font
      set of its key. */
  predicate MetricsCacheHolds(cache: map<MetricsKey, TextMetrics>, fonts: FontOracle)
  {
    forall key :: key in cache ==>
      cache[key] == Measure(key.text, LoadedFontSet(key.family, key.size, fonts), fonts)
  }

  /** Adding the loaded set for a key not yet cached keeps the font cache
      coherent. */
  lemma FontCacheExtend(cache: seq<FontCacheEntry>, family: string, size: int, fonts: FontOracle)
    requires FontCacheHolds(cache, fonts) && !HasKey(cache, family, size)
    ensures FontCacheHolds(cache + [FontCacheEntry(family, size, LoadedFontSet(family, size, fonts))], fonts)
  {
  }

  /** Storing the measurement of a key keeps the metrics cache coherent. */
  lemma MetricsCacheExtend(cache: map<MetricsKey, TextMetrics>, key: MetricsKey, fonts: FontOracle)
    requires MetricsCacheHolds(cache, fonts)
    ensures MetricsCacheHolds(cache[key := Measure(key.text, LoadedFontSet(key.family, key.size, fonts), fonts)], fonts)
  {
  }

  /** `computeTextMetrics(text, font_set)` as written: the cache is keyed
      by the text alone, so a hit returns the measurement made for whatever
      font set the text was first drawn with. The result is the
      measurement and the cache afterwards. */
  function MetricsLookupAsWritten(cache: map<seq<byte>, TextMetrics>, text: seq<byte>, fs: FontSet,
                                  fonts: FontOracle): (r: (TextMetrics, map<seq<byte>, TextMetrics>))
    ensures text in cache ==> r.1 == cache
    ensures text !in cache ==> r.1.Keys == cache.Keys + {text} && r.1[text] == Measure(text, fs, fonts)
    ensures text in r.1 && r.0 == r.1[text]
  {
    if text in cache then (cache[text], cache)
    else
      var tm := Measure(text, fs, fonts);
      (tm, cache[text := tm])
  }

  /** The same text drawn first in one font set and then in a set with a
      different font height: the second call reports the first call's
      height, which is not the height of the text in the second set. */
  lemma StaleMetricsAcrossFontSizes(text: seq<byte>, fs1: FontSet, fs2: FontSet, fonts: FontOracle)
    requires fs1.fontHeight != fs2.fontHeight
    ensures var first := MetricsLookupAsWritten(map[], text, fs1, fonts);
            var second := MetricsLookupAsWritten(first.1, text, fs2, fonts);
            second.0 == first.0 && second.0.height != Measure(text, fs2, fonts).height
  {
    var first := MetricsLookupAsWritten(map[], text, fs1, fonts);
    var second := MetricsLookupAsWritten(first.1, text, fs2, fonts);
    assert second.0 == first.0 == Measure(text, fs1, fonts);
    MeasureHeight(text, fs1, fonts);
    MeasureHeight(text, fs2, fonts);
    ScaledHeightsDiffer(LineFeeds(UnitsLenient(text, 0)) + 1, fs1.fontHeight, fs2.fontHeight);
  }

  lemma ScaledHeightsDiffer(n: int, h1: int, h2: int)
    requires n >= 1 && h1 != h2
    ensures n * h1 != n * h2
  {
    assert n * h1 - n * h2 == n * (h1 - h2);
  }

  /** A hit in the text-keyed cache answers the same whatever font set the
      caller passes: the font set is consulted only on a miss. */
  lemma MetricsHitIgnoresFontSet(cache: map<seq<byte>, TextMetrics>, text: seq<byte>, fs1: FontSet, fs2: FontSet,
                                 fonts: FontOracle)
    requires text in cache
    ensures MetricsLookupAsWritten(cache, text, fs1, fonts) == MetricsLookupAsWritten(cache, text, fs2, fonts)
    ensures MetricsLookupAsWritten(cache, text, fs1, fonts).0 == cache[text]
  {
  }

  /** The overlay state: the globals of draw/draw_x11.cpp's anonymous
      namespace. X resources are numbered from `nextXid`, so every resource
      created is new; 0 is "none". The static `last_w`/`last_h` of
      `updateWindowPosition` are `lastW`/`lastH`; `bufferW`/`bufferH` record
      the size the back buffer was created with. `canvas` is what has been
      painted into the current back buffer, `shown` what `endFrame` last
      copied to the overlay window. */
  class Overlay {
    const fonts: FontOracle
    var displayOpen: bool
    var targetWindow: nat
    var overlayWindow: nat
    var overlayRect: Rect
    var colormap: nat
    var backBuffer: nat
    var backDraw: nat
    var gc: nat
    var posX: int
    var posY: int
    var width: int
    var height: int
    var initialized: bool
    var currentClass: string
    var colorsInitialized: bool
    var fontCache: seq<FontCacheEntry>
    var metricsCache: map<MetricsKey, TextMetrics>
    var lastW: int
    var lastH: int
    var bufferW: int
    var bufferH: int
    var nextXid: nat
    var canvas: seq<Paint>
    var shown: seq<Paint>
    var shownArea: Rect

    function Geo(): Geometry
      reads this
    {
      Geometry(posX, posY, width, height)
    }

    /** `checkTargetWindowExists()`: a display, a target, and the target
        still answers `XGetWindowAttributes`. */
    predicate TargetExists(d: Desktop)
      reads this
    {
      displayOpen && targetWindow != 0 && targetWindow in d.attributes
    }

    /** The font cache is coherent with the loader. */
    predicate FontCacheCoherent()
      reads this`fontCache
    {
      FontCacheHolds(fontCache, fonts)
    }

    /** The metrics cache is coherent with measurement. */
    predicate MetricsCacheCoherent()
      reads this`metricsCache
    {
      MetricsCacheHolds(metricsCache, fonts)
    }

    /** Nothing held: the state `cleanupOverlayInternal` leaves. */
    predicate Released()
      reads this
    {
      && overlayWindow == 0 && colormap == 0 && backBuffer == 0 && backDraw == 0 && gc == 0
      && targetWindow == 0 && !colorsInitialized && fontCache == [] && canvas == []
    }

    /** The resource bookkeeping: every id was allocated, an unbound
        overlay holds nothing, a bound one has its display and colours, and
        the overlay window covers the target's geometry. */
    predicate Valid()
      reads this
    {
      && nextXid >= 1
      && overlayWindow < nextXid && colormap < nextXid && backBuffer < nextXid && backDraw < nextXid && gc < nextXid
      && (!initialized ==>
            && overlayWindow == 0 && colormap == 0 && backBuffer == 0 && backDraw == 0 && gc == 0
            && targetWindow == 0 && !colorsInitialized && fontCache == [] && canvas == [])
      && (initialized ==> displayOpen && colorsInitialized)
      && (initialized && overlayWindow != 0 ==> overlayRect == Rect(posX, posY, width, height))
    }

    /** Both caches agree with what they cache. */
    predicate CachesCoherent()
      reads this`fontCache, this`metricsCache
    {
      FontCacheCoherent() && MetricsCacheCoherent()
    }

    /** While bound, a back buffer has the size of the window it is copied to. */
    predicate BufferFits()
      reads this
    {
      initialized && backBuffer != 0 ==> bufferW == width && bufferH == height
    }

    /** The state right after a successful bind to `win`, from geometry `g0`
        and resource counter `xid0`. */
    predicate Bound(d: Desktop, win: nat, g0: Geometry, xid0: nat)
      reads this
    {
      && initialized && colorsInitialized && displayOpen
      && targetWindow == win
      && Geo() == GeometryAfter(d, true, win, g0)
      && (d.argbVisual ==>
            && colormap == xid0 && overlayWindow == xid0 + 1 && backBuffer == xid0 + 2
            && backDraw == xid0 + 3 && gc == xid0 + 4 && nextXid == xid0 + 5
            && bufferW == width && bufferH == height && canvas == []
            && overlayRect == Rect(posX, posY, width, height))
      && (!d.argbVisual ==> overlayWindow == 0 && backBuffer == 0 && nextXid == xid0)
    }

    constructor(fonts: FontOracle)
      ensures this.fonts == fonts
      ensures Valid() && CachesCoherent() && BufferFits() && !initialized && !displayOpen
      ensures Geo() == Geometry(0, 0, 0, 0) && lastW == 0 && lastH == 0
      ensures currentClass == "" && metricsCache == map[] && nextXid == 1
    {
      this.fonts := fonts;
      displayOpen := false;
      targetWindow := 0;
      overlayWindow := 0;
      overlayRect := Rect(0, 0, 0, 0);
      colormap := 0;
      backBuffer := 0;
      backDraw := 0;
      gc := 0;
      posX, posY, width, height := 0, 0, 0, 0;
      initialized := false;
      currentClass := "";
      colorsInitialized := false;
      fontCache := [];
      metricsCache := map[];
      lastW, lastH := 0, 0;
      bufferW, bufferH := 0, 0;
      nextXid := 1;
      canvas := [];
      shown := [];
      shownArea := Rect(0, 0, 0, 0);
    }

    /** `getWindowGeometry(win)`: silently keeps the old values on failure. */
    method GetWindowGeometry(d: Desktop, win: nat)
      modifies this`posX, this`posY, this`width, this`height
      ensures Geo() == GeometryAfter(d, displayOpen, win, old(Geo()))
    {
      if !displayOpen || win == 0 {
        return;
      }
      if win !in d.attributes {
        return;
      }
      if win !in d.origins {
        return;
      }
      posX, posY := d.origins[win].0, d.origins[win].1;
      width, height := d.attributes[win].0, d.attributes[win].1;
    }

    /** `createOverlayWindow()`: without a 32-bit TrueColor visual nothing
        is created; otherwise a colormap, the overlay window over the
        target's geometry, a back buffer of the target's size, its Xft draw
        and a GC. */
    method CreateOverlayWindow(d: Desktop)
      modifies this`colormap, this`overlayWindow, this`overlayRect, this`backBuffer, this`bufferW, this`bufferH,
               this`canvas, this`backDraw, this`gc, this`nextXid
      ensures !d.argbVisual ==> unchanged(this)
      ensures d.argbVisual ==>
        && colormap == old(nextXid) && overlayWindow == old(nextXid) + 1 && backBuffer == old(nextXid) + 2
        && backDraw == old(nextXid) + 3 && gc == old(nextXid) + 4 && nextXid == old(nextXid) + 5
        && overlayRect == Rect(posX, posY, width, height)
        && bufferW == width && bufferH == height && canvas == []
    {
      if !d.argbVisual {
        return;
      }
      colormap := nextXid;
      overlayWindow := nextXid + 1;
      overlayRect := Rect(posX, posY, width, height);
      backBuffer := nextXid + 2;
      bufferW, bufferH := width, height;
      canvas := [];
      backDraw := nextXid + 3;
      gc := nextXid + 4;
      nextXid := nextXid + 5;
    }

    /** `cleanupOverlayInternal()`: every X resource and font is released
        and the overlay is unbound. The display, the geometry, the metrics
        cache and `last_w`/`last_h` survive. */
    method CleanupOverlayInternal()
      requires Valid()
      modifies this`backDraw, this`backBuffer, this`gc, this`fontCache, this`colorsInitialized,
               this`overlayWindow, this`colormap, this`targetWindow, this`initialized, this`canvas
      ensures Valid() && BufferFits()
      ensures !initialized && Released()
    {
      backDraw := 0;
      backBuffer := 0;
      gc := 0;
      canvas := [];
      fontCache := [];
      colorsInitialized := false;
      overlayWindow := 0;
      colormap := 0;
      targetWindow := 0;
      initialized := false;
    }

    /** `initializeOverlayInternal(window_class)`, called only while
        unbound: open the display if needed, find the first window of class
        `cls` below the root, take its geometry and create the overlay. */
    method InitializeOverlayInternal(d: Desktop, cls: string) returns (ok: bool)
      requires Valid() && !initialized
      modifies this`displayOpen, this`targetWindow, this`posX, this`posY, this`width, this`height,
               this`colormap, this`overlayWindow, this`overlayRect, this`backBuffer, this`bufferW, this`bufferH,
               this`canvas, this`backDraw, this`gc, this`nextXid, this`colorsInitialized, this`initialized
      ensures Valid() && BufferFits()
      ensures displayOpen == (old(displayOpen) || d.displayAvailable)
      ensures ok == initialized
      ensures ok == (displayOpen && FirstMatch(Descendants(d.root), cls).Some?)
      ensures !ok ==> Released() && Geo() == old(Geo()) && nextXid == old(nextXid)
      ensures ok ==> Bound(d, FirstMatch(Descendants(d.root), cls).value, old(Geo()), old(nextXid))
    {
      if !displayOpen {
        if !d.displayAvailable {
          return false;
        }
        displayOpen := true;
      }
      var found := FindWindowByClass(d.root, cls);
      if found.None? {
        return false;
      }
      BindTarget(d, found.value);
      return true;
    }

    /** The success path of `initializeOverlayInternal`: adopt `win` as the
        target, take its geometry, create the overlay and mark it bound. */
    method BindTarget(d: Desktop, win: nat)
      requires Valid() && !initialized && displayOpen
      modifies this`targetWindow, this`posX, this`posY, this`width, this`height,
               this`colormap, this`overlayWindow, this`overlayRect, this`backBuffer, this`bufferW, this`bufferH,
               this`canvas, this`backDraw, this`gc, this`nextXid, this`colorsInitialized, this`initialized
      ensures Valid() && BufferFits()
      ensures Bound(d, win, old(Geo()), old(nextXid))
    {
      targetWindow := win;
      GetWindowGeometry(d, targetWindow);
      CreateOverlayWindow(d);
      if !colorsInitialized {
        colorsInitialized := true;
      }
      initialized := true;
    }

    /** `Overlay::tryInitialize(window_class)`: while bound to a live target
        nothing happens; a lost target is cleaned up first; then a given
        class replaces the remembered one, and a non-empty remembered class
        is searched for. */
    method TryInitialize(d: Desktop, cls: Option<string>) returns (ok: bool)
      requires Valid()
      modifies this`displayOpen, this`targetWindow, this`posX, this`posY, this`width, this`height,
               this`colormap, this`overlayWindow, this`overlayRect, this`backBuffer, this`bufferW, this`bufferH,
               this`canvas, this`backDraw, this`gc, this`nextXid, this`colorsInitialized, this`initialized,
               this`fontCache, this`currentClass
      ensures Valid()
      ensures old(initialized && TargetExists(d)) ==> fontCache == old(fontCache)
      ensures !old(initialized && TargetExists(d)) ==> fontCache == []
      ensures old(BufferFits()) ==> BufferFits()
      ensures old(initialized && TargetExists(d)) ==> ok && unchanged(this)
      ensures !old(initialized && TargetExists(d)) ==>
        var cls' := if cls.Some? then cls.value else old(currentClass);
        && currentClass == cls'
        && ok == initialized
        && ok == (cls' != "" && (old(displayOpen) || d.displayAvailable) && FirstMatch(Descendants(d.root), cls').Some?)
        && displayOpen == (old(displayOpen) || (cls' != "" && d.displayAvailable))
        && (!ok ==> Released() && Geo() == old(Geo()) && nextXid == old(nextXid))
        && (ok ==> Bound(d, FirstMatch(Descendants(d.root), cls').value, old(Geo()), old(nextXid)))
    {
      if initialized {
        if !TargetExists(d) {
          CleanupOverlayInternal();
        } else {
          return true;
        }
      }
      if cls.Some? {
        currentClass := cls.value;
      }
      if currentClass != "" {
        ok := InitializeOverlayInternal(d, currentClass);
        return;
      }
      return false;
    }

    /** `Overlay::initialize(window_class)`: remember the class (empty when
        none is given), then `tryInitialize`. */
    method Initialize(d: Desktop, cls: Option<string>) returns (ok: bool)
      requires Valid()
      modifies this`displayOpen, this`targetWindow, this`posX, this`posY, this`width, this`height,
               this`colormap, this`overlayWindow, this`overlayRect, this`backBuffer, this`bufferW, this`bufferH,
               this`canvas, this`backDraw, this`gc, this`nextXid, this`colorsInitialized, this`initialized,
               this`fontCache, this`currentClass
      ensures Valid()
      ensures old(initialized && TargetExists(d)) ==> fontCache == old(fontCache)
      ensures !old(initialized && TargetExists(d)) ==> fontCache == []
      ensures old(BufferFits()) ==> BufferFits()
      ensures currentClass == cls.GetOr("")
      ensures old(initialized && TargetExists(d)) ==>
        && ok && initialized && displayOpen && targetWindow == old(targetWindow) && Geo() == old(Geo())
        && overlayWindow == old(overlayWindow) && overlayRect == old(overlayRect) && colormap == old(colormap)
        && backBuffer == old(backBuffer) && backDraw == old(backDraw) && gc == old(gc)
        && bufferW == old(bufferW) && bufferH == old(bufferH) && canvas == old(canvas)
        && nextXid == old(nextXid) && colorsInitialized == old(colorsInitialized)
      ensures !old(initialized && TargetExists(d)) ==>
        && ok == initialized
        && ok == (cls.GetOr("") != "" && (old(displayOpen) || d.displayAvailable)
                  && FirstMatch(Descendants(d.root), cls.GetOr("")).Some?)
        && (!ok ==> Released())
        && (ok ==> Bound(d, FirstMatch(Descendants(d.root), cls.GetOr("")).value, old(Geo()), old(nextXid)))
    {
      currentClass := cls.GetOr("");
      ok := TryInitialize(d, cls);
    }

    /** `Overlay::shutdown()`: clean up, close the display and forget every
        measurement. */
    method Shutdown()
      requires Valid()
      modifies this`backDraw, this`backBuffer, this`gc, this`fontCache, this`colorsInitialized,
               this`overlayWindow, this`colormap, this`targetWindow, this`initialized, this`canvas,
               this`displayOpen, this`metricsCache
      ensures Valid() && BufferFits() && CachesCoherent()
      ensures !initialized && Released() && !displayOpen && metricsCache == map[]
    {
      CleanupOverlayInternal();
      displayOpen := false;
      metricsCache := map[];
    }

    /** `Overlay::beginFrame()`: clear the whole window area of the back
        buffer to transparent. */
    method BeginFrame()
      modifies this`canvas
      ensures !old(initialized) ==> unchanged(this)
      ensures old(initialized) ==> canvas == old(canvas) + [ClearRect(Rect(0, 0, width, height))]
    {
      if !initialized {
        return;
      }
      canvas := canvas + [ClearRect(Rect(0, 0, width, height))];
    }

    /** `Overlay::endFrame()`: copy the window area of the back buffer to
        the overlay window. */
    method EndFrame()
      modifies this`shown, this`shownArea
      ensures !old(initialized) ==> unchanged(this)
      ensures old(initialized) ==> shown == canvas && shownArea == Rect(0, 0, width, height)
    {
      if !initialized {
        return;
      }
      shown := canvas;
      shownArea := Rect(0, 0, width, height);
    }

    /** A new back buffer of the window's size, with its Xft draw and GC
        (the previous ones are freed). */
    method RecreateBackBuffer()
      modifies this`backBuffer, this`backDraw, this`gc, this`bufferW, this`bufferH, this`canvas, this`nextXid
      ensures backBuffer == old(nextXid) && backDraw == old(nextXid) + 1 && gc == old(nextXid) + 2
      ensures nextXid == old(nextXid) + 3
      ensures bufferW == width && bufferH == height && canvas == []
    {
      backBuffer := nextXid;
      bufferW, bufferH := width, height;
      canvas := [];
      backDraw := nextXid + 1;
      gc := nextXid + 2;
      nextXid := nextXid + 3;
    }

    /** The live-target path of `updateWindowPosition` as written: re-read
        the geometry, move the overlay, and recreate the back buffer when
        the size differs from `last_w`/`last_h`. */
    method FollowTargetAsWritten(d: Desktop)
      requires Valid() && initialized
      modifies this`posX, this`posY, this`width, this`height, this`overlayRect,
               this`backBuffer, this`backDraw, this`gc, this`bufferW, this`bufferH, this`canvas, this`nextXid, this`lastW, this`lastH
      ensures Valid()
      ensures
        && Geo() == GeometryAfter(d, true, targetWindow, old(Geo()))
        && overlayRect == Rect(posX, posY, width, height)
        && ((width, height) != (old(lastW), old(lastH)) ==>
              && backBuffer == old(nextXid) && backDraw == old(nextXid) + 1 && gc == old(nextXid) + 2
              && nextXid == old(nextXid) + 3 && bufferW == width && bufferH == height && canvas == []
              && lastW == width && lastH == height)
        && ((width, height) == (old(lastW), old(lastH)) ==>
              && backBuffer == old(backBuffer) && backDraw == old(backDraw) && gc == old(gc)
              && bufferW == old(bufferW) && bufferH == old(bufferH)
              && nextXid == old(nextXid) && canvas == old(canvas))
    {
      GetWindowGeometry(d, targetWindow);
      overlayRect := Rect(posX, posY, width, height);
      ResizeAsWritten();
    }

    /** The size test of `updateWindowPosition` as written: a new back
        buffer, and the size recorded in `last_w`/`last_h`, exactly when
        the target's size differs from the recorded one. */
    method ResizeAsWritten()
      requires Valid() && initialized && overlayRect == Rect(posX, posY, width, height)
      modifies this`backBuffer, this`backDraw, this`gc, this`bufferW, this`bufferH, this`canvas, this`nextXid,
               this`lastW, this`lastH
      ensures Valid()
      ensures (width, height) != (old(lastW), old(lastH)) ==>
        && backBuffer == old(nextXid) && backDraw == old(nextXid) + 1 && gc == old(nextXid) + 2
        && nextXid == old(nextXid) + 3 && bufferW == width && bufferH == height && canvas == []
        && lastW == width && lastH == height
      ensures (width, height) == (old(lastW), old(lastH)) ==> unchanged(this)
    {
      if width != lastW || height != lastH {
        RecreateBackBuffer();
        lastW, lastH := width, height;
      }
    }

    /** `Overlay::updateWindowPosition()` as written: it recreates the back
        buffer when the size differs from the one the previous call
        recorded in `last_w`/`last_h`, which a rebind does not update. */
    method UpdateWindowPositionAsWritten(d: Desktop)
      requires Valid()
      modifies this`backDraw, this`backBuffer, this`gc, this`fontCache, this`colorsInitialized,
               this`overlayWindow, this`colormap, this`targetWindow, this`initialized, this`canvas,
               this`posX, this`posY, this`width, this`height, this`overlayRect,
               this`bufferW, this`bufferH, this`nextXid, this`lastW, this`lastH
      ensures Valid()
      ensures !old(initialized) || old(targetWindow) == 0 ==> unchanged(this)
      ensures old(initialized) && old(targetWindow) != 0 && !old(TargetExists(d)) ==>
        !initialized && Released() && lastW == old(lastW) && lastH == old(lastH)
      ensures old(initialized) && old(targetWindow) != 0 && old(TargetExists(d)) ==>
        && initialized && targetWindow == old(targetWindow)
        && overlayWindow == old(overlayWindow) && colormap == old(colormap)
        && colorsInitialized == old(colorsInitialized) && fontCache == old(fontCache)
        && Geo() == GeometryAfter(d, true, targetWindow, old(Geo()))
        && overlayRect == Rect(posX, posY, width, height)
        && ((width, height) != (old(lastW), old(lastH)) ==>
              && backBuffer == old(nextXid) && backDraw == old(nextXid) + 1 && gc == old(nextXid) + 2
              && nextXid == old(nextXid) + 3 && bufferW == width && bufferH == height && canvas == []
              && lastW == width && lastH == height)
        && ((width, height) == (old(lastW), old(lastH)) ==>
              && backBuffer == old(backBuffer) && backDraw == old(backDraw) && gc == old(gc)
              && bufferW == old(bufferW) && bufferH == old(bufferH)
              && nextXid == old(nextXid) && canvas == old(canvas))
    {
      if !initialized || targetWindow == 0 {
        return;
      }
      if !TargetExists(d) {
        CleanupOverlayInternal();
        return;
      }
      FollowTargetAsWritten(d);
    }

    /** The live-target path of `updateWindowPosition` with the size test
        made against the back buffer's own size. */
    method FollowTarget(d: Desktop)
      requires Valid() && initialized
      modifies this`posX, this`posY, this`width, this`height, this`overlayRect,
               this`backBuffer, this`backDraw, this`gc, this`bufferW, this`bufferH, this`canvas, this`nextXid
      ensures Valid() && BufferFits()
      ensures
        && Geo() == GeometryAfter(d, true, targetWindow, old(Geo()))
        && overlayRect == Rect(posX, posY, width, height)
        && bufferW == width && bufferH == height
        && ((width, height) != (old(bufferW), old(bufferH)) ==>
              && backBuffer == old(nextXid) && backDraw == old(nextXid) + 1 && gc == old(nextXid) + 2
              && nextXid == old(nextXid) + 3 && canvas == [])
        && ((width, height) == (old(bufferW), old(bufferH)) ==>
              && backBuffer == old(backBuffer) && backDraw == old(backDraw) && gc == old(gc)
              && nextXid == old(nextXid) && canvas == old(canvas))
    {
      GetWindowGeometry(d, targetWindow);
      overlayRect := Rect(posX, posY, width, height);
      if width != bufferW || height != bufferH {
        RecreateBackBuffer();
      }
    }

    /** `Overlay::updateWindowPosition()` with the size test made against the
        back buffer's own size: move and resize the overlay onto the target,
        recreating the back buffer whenever its size differs from the
        target's. */
    method UpdateWindowPosition(d: Desktop)
      requires Valid()
      modifies this`backDraw, this`backBuffer, this`gc, this`fontCache, this`colorsInitialized,
               this`overlayWindow, this`colormap, this`targetWindow, this`initialized, this`canvas,
               this`posX, this`posY, this`width, this`height, this`overlayRect,
               this`bufferW, this`bufferH, this`nextXid
      ensures Valid()
      ensures old(BufferFits()) ==> BufferFits()
      ensures !old(initialized) || old(targetWindow) == 0 ==> unchanged(this)
      ensures old(initialized) && old(targetWindow) != 0 && !old(TargetExists(d)) ==> !initialized && Released()
      ensures old(initialized) && old(targetWindow) != 0 && old(TargetExists(d)) ==>
        && initialized && targetWindow == old(targetWindow) && BufferFits()
        && overlayWindow == old(overlayWindow) && colormap == old(colormap)
        && colorsInitialized == old(colorsInitialized) && fontCache == old(fontCache)
        && Geo() == GeometryAfter(d, true, targetWindow, old(Geo()))
        && overlayRect == Rect(posX, posY, width, height)
        && bufferW == width && bufferH == height
        && ((width, height) != (old(bufferW), old(bufferH)) ==>
              && backBuffer == old(nextXid) && backDraw == old(nextXid) + 1 && gc == old(nextXid) + 2
              && nextXid == old(nextXid) + 3 && canvas == [])
        && ((width, height) == (old(bufferW), old(bufferH)) ==>
              && backBuffer == old(backBuffer) && backDraw == old(backDraw) && gc == old(gc)
              && nextXid == old(nextXid) && canvas == old(canvas))
    {
      if !initialized || targetWindow == 0 {
        return;
      }
      if !TargetExists(d) {
        CleanupOverlayInternal();
        return;
      }
      FollowTarget(d);
    }

    /** `Overlay::getWidth()`. */
    function GetWidth(): (w: int)
      reads this
      ensures initialized ==> w == width
      ensures !initialized ==> w == 0
    {
      if !initialized then 0 else width
    }

    /** `Overlay::getHeight()`. */
    function GetHeight(): (h: int)
      reads this
      ensures initialized ==> h == height
      ensures !initialized ==> h == 0
    {
      if !initialized then 0 else height
    }

    /** `getFontSet(font_family, font_size)`: the cached set for the
        normalised key, loaded and appended on a miss. */
    method GetFontSet(family: Option<string>, size: int) returns (fs: FontSet)
      requires FontCacheCoherent()
      modifies this`fontCache
      ensures fs == RequestedFontSet(family, size, fonts)
      ensures FontCacheCoherent()
      ensures HasKey(old(fontCache), RequestFamily(family), RequestSize(size)) ==> fontCache == old(fontCache)
      ensures !HasKey(old(fontCache), RequestFamily(family), RequestSize(size)) ==>
                fontCache == old(fontCache) + [FontCacheEntry(RequestFamily(family), RequestSize(size), fs)]
    {
      var fam := RequestFamily(family);
      var sz := RequestSize(size);
      var k := 0;
      while k < |fontCache|
        invariant 0 <= k <= |fontCache|
        invariant forall j :: 0 <= j < k ==> fontCache[j].family != fam || fontCache[j].size != sz
      {
        if fontCache[k].family == fam && fontCache[k].size == sz {
          return fontCache[k].fontSet;
        }
        k := k + 1;
      }
      fs := LoadFontSet(fam, sz, fonts);
      FontCacheExtend(fontCache, fam, sz, fonts);
      fontCache := fontCache + [FontCacheEntry(fam, sz, fs)];
    }

    /** `computeTextMetrics(text, font_set)` with the cache keyed by the
        normalised font request as well as the text: a hit returns the
        stored measurement, a miss measures and stores it. */
    method ComputeTextMetrics(text: seq<byte>, family: string, size: int, fs: FontSet) returns (tm: TextMetrics)
      requires MetricsCacheCoherent() && fs == LoadedFontSet(family, size, fonts)
      modifies this`metricsCache
      ensures tm == Measure(text, fs, fonts)
      ensures MetricsCacheCoherent()
      ensures MetricsKey(family, size, text) in old(metricsCache) ==> metricsCache == old(metricsCache)
      ensures MetricsKey(family, size, text) !in old(metricsCache) ==>
                metricsCache == old(metricsCache)[MetricsKey(family, size, text) := tm]
    {
      var key := MetricsKey(family, size, text);
      if key in metricsCache {
        return metricsCache[key];
      }
      tm := BuildTextMetrics(text, fs, fonts);
      MetricsCacheExtend(metricsCache, key, fonts);
      metricsCache := metricsCache[key := tm];
    }

    /** The font set and measurement a draw call starts from: `getFontSet`
        followed by `computeTextMetrics`, both through their caches. The
        metrics come from the corrected, request-keyed cache of
        `ComputeTextMetrics`, so they are always the text's measure in the
        requested font set; the text-keyed lookup of the source is
        `MetricsLookupAsWritten`. */
    method ResolveText(text: seq<byte>, family: Option<string>, size: int) returns (fs: FontSet, tm: TextMetrics)
      requires CachesCoherent()
      modifies this`fontCache, this`metricsCache
      ensures CachesCoherent()
      ensures fs == RequestedFontSet(family, size, fonts)
      ensures tm == Measure(text, fs, fonts)
    {
      fs := GetFontSet(family, size);
      tm := ComputeTextMetrics(text, RequestFamily(family), RequestSize(size), fs);
    }

    /** The common part of the `Draw::drawString*` functions: resolve the
        font set and the metrics through the caches, then paint. */
    method LayOutString(text: seq<byte>, x: int, y: int, family: Option<string>, size: int, align: Align,
                        outline: Option<int>) returns (fs: FontSet, tm: TextMetrics, paint: seq<Paint>)
      requires CachesCoherent()
      modifies this`fontCache, this`metricsCache
      ensures CachesCoherent()
      ensures fs == RequestedFontSet(family, size, fonts) && tm == Measure(text, fs, fonts)
      ensures paint == MeasuredPaint(tm, x, y, fs, align, outline, fonts.advance)
    {
      fs, tm := ResolveText(text, family, size);
      paint := PaintText(tm, x, y, fs, align, outline, fonts.advance);
    }

    /** `Draw::drawStringPlain`: nothing unless bound with an Xft draw;
        otherwise the text's glyph runs. `fs` and `tm` name the font set and
        metrics the call resolved. */
    method DrawStringPlain(text: seq<byte>, x: int, y: int, family: Option<string>, size: int, align: Align)
      returns (ghost fs: FontSet, ghost tm: TextMetrics)
      requires CachesCoherent()
      modifies this`fontCache, this`metricsCache, this`canvas
      ensures CachesCoherent()
      ensures !old(initialized) || old(backDraw) == 0 ==> unchanged(this)
      ensures old(initialized) && old(backDraw) != 0 ==>
        && fs == RequestedFontSet(family, size, fonts) && tm == Measure(text, fs, fonts)
        && canvas == old(canvas) + MeasuredPaint(tm, x, y, fs, align, None, fonts.advance)
    {
      if !initialized || backDraw == 0 {
        fs, tm := FontSet(Null, [], 0, 0, 0), TextMetrics([], [], 0, 0);
        return;
      }
      var fs', tm', paint := LayOutString(text, x, y, family, size, align, None);
      fs, tm := fs', tm';
      canvas := canvas + paint;
    }

    /** `Draw::drawStringOutline`: as the plain variant, each run drawn
        eight times around the pen first, at `(int)max(1.0, outline_width)`. */
    method DrawStringOutline(text: seq<byte>, x: int, y: int, outlineWidth: real,
                             family: Option<string>, size: int, align: Align)
      returns (ghost fs: FontSet, ghost tm: TextMetrics)
      requires CachesCoherent()
      modifies this`fontCache, this`metricsCache, this`canvas
      ensures CachesCoherent()
      ensures !old(initialized) || old(backDraw) == 0 ==> unchanged(this)
      ensures old(initialized) && old(backDraw) != 0 ==>
        && fs == RequestedFontSet(family, size, fonts) && tm == Measure(text, fs, fonts)
        && canvas == old(canvas) + MeasuredPaint(tm, x, y, fs, align, Some(OutlineThickness(outlineWidth)), fonts.advance)
    {
      if !initialized || backDraw == 0 {
        fs, tm := FontSet(Null, [], 0, 0, 0), TextMetrics([], [], 0, 0);
        return;
      }
      var fs', tm', paint := LayOutString(text, x, y, family, size, align, Some(OutlineThickness(outlineWidth)));
      fs, tm := fs', tm';
      canvas := canvas + paint;
    }

    /** `Draw::drawStringBackground`: the padded rectangle behind the text
        block, then the text. */
    method DrawStringBackground(text: seq<byte>, x: int, y: int, padding: int,
                                family: Option<string>, size: int, align: Align)
      returns (ghost fs: FontSet, ghost tm: TextMetrics)
      requires CachesCoherent()
      modifies this`fontCache, this`metricsCache, this`canvas
      ensures CachesCoherent()
      ensures !old(initialized) || old(backDraw) == 0 ==> unchanged(this)
      ensures old(initialized) && old(backDraw) != 0 ==>
        && fs == RequestedFontSet(family, size, fonts) && tm == Measure(text, fs, fonts)
        && canvas == old(canvas) + [FillRect(BackgroundRect(x, y, tm.width, tm.height, padding, align))]
                     + MeasuredPaint(tm, x, y, fs, align, None, fonts.advance)
    {
      if !initialized || backDraw == 0 {
        fs, tm := FontSet(Null, [], 0, 0, 0), TextMetrics([], [], 0, 0);
        return;
      }
      var fs', tm', paint := LayOutString(text, x, y, family, size, align, None);
      fs, tm := fs', tm';
      canvas := canvas + [FillRect(BackgroundRect(x, y, tm'.width, tm'.height, padding, align))] + paint;
    }

    /** `Draw::getTextSize`: `None` leaves the caller's outputs untouched
        (unbound); otherwise the measured width and height. */
    method GetTextSize(text: seq<byte>, family: Option<string>, size: int) returns (r: Option<(int, int)>)
      requires CachesCoherent()
      modifies this`fontCache, this`metricsCache
      ensures CachesCoherent()
      ensures !old(initialized) ==> r.None? && unchanged(this)
      ensures old(initialized) ==>
        var tm := Measure(text, RequestedFontSet(family, size, fonts), fonts);
        r == Some((tm.width, tm.height))
    {
      if !initialized {
        return None;
      }
      var fs, tm := ResolveText(text, family, size);
      return Some((tm.width, tm.height));
    }
  }

  /** The only window below the root is `w`, so the search finds it. */
  lemma SingleChildFound(w: Window, cls: string)
    requires w.children == [] && w.resClass == Some(cls)
    ensures FirstMatch(Descendants(Window(1, None, [w])), cls) == Some(w.id)
  {
    var root := Window(1, None, [w]);
    assert ChildrenFrom(w, 0) == [];
    assert ChildrenFrom(root, 1) == [];
    assert ChildrenFrom(root, 0) == [w] + Descendants(w) + ChildrenFrom(root, 1);
    assert Descendants(root) == [w];
  }

  /** The start of a client's frame over a bound overlay: follow the
      target, then draw a string. The update keeps the caches and the back
      buffer's draw, so while the target lives the string's paint is the
      newest thing in the back buffer. */
  method UpdateThenDraw(o: Overlay, d: Desktop, text: seq<byte>, x: int, y: int, family: Option<string>,
                        size: int, align: Align)
    requires o.Valid() && o.CachesCoherent()
    modifies o
    ensures o.CachesCoherent()
    ensures old(o.initialized && o.TargetExists(d) && o.backDraw != 0) ==>
      var fs := RequestedFontSet(family, size, o.fonts);
      var paint := MeasuredPaint(Measure(text, fs, o.fonts), x, y, fs, align, None, o.fonts.advance);
      && o.initialized && |paint| <= |o.canvas| && o.canvas[|o.canvas| - |paint|..] == paint
  {
    ghost var live := o.initialized && o.TargetExists(d) && o.backDraw != 0;
    o.UpdateWindowPosition(d);
    assert live ==> o.initialized && o.backDraw != 0;
    assert FontCacheHolds(o.fontCache, o.fonts);
    ghost var c := o.canvas;
    var fs, tm := o.DrawStringPlain(text, x, y, family, size, align);
    if live {
      assert o.canvas[|c|..] == MeasuredPaint(tm, x, y, fs, align, None, o.fonts.advance);
    }
  }

  /** The start of the scenario below: bind to window 5 (800 by 600) and
      follow it once; the update records 800 by 600 in `last_w`/`last_h`. */
  method FirstBinding(fonts: FontOracle) returns (o: Overlay)
    ensures fresh(o) && o.Valid()
    ensures o.initialized && o.targetWindow == 5 && o.currentClass == "Game" && o.lastW == 800 && o.lastH == 600
  {
    var game5 := Window(5, Some("Game"), []);
    var d1 := Desktop(true, Window(1, None, [game5]), map[5 := (800, 600)], map[5 := (10, 20)], true);
    SingleChildFound(game5, "Game");
    o := new Overlay(fonts);
    var ok := o.Initialize(d1, Some("Game"));
    assert o.initialized && o.targetWindow == 5 && o.width == 800 && o.height == 600;
    o.UpdateWindowPositionAsWritten(d1);
  }

  /** The first session of the scenario below: after `FirstBinding`, the
      library is shut down. `shutdown` releases everything and closes the
      display, but the function-local `last_w`/`last_h` keep 800 by 600. */
  method FirstSession(fonts: FontOracle) returns (o: Overlay)
    ensures fresh(o) && o.Valid()
    ensures !o.initialized && !o.displayOpen && o.lastW == 800 && o.lastH == 600
  {
    o := FirstBinding(fonts);
    o.Shutdown();
  }

  /** A second session that binds to a window of a new size which then
      grows to the size of the first session's window: after the first
      session, `initialize("Game")` binds window 7 (640 by 480), and the
      update runs after window 7 became 800 by 600. The as-written update
      compares against the size recorded in the first session and keeps
      the 640 by 480 back buffer under an 800 by 600 overlay. */
  method StaleBufferAfterRebind(fonts: FontOracle) returns (o: Overlay)
    ensures o.initialized && o.backBuffer != 0
    ensures o.width == 800 && o.bufferW == 640 && !o.BufferFits()
  {
    var game7 := Window(7, Some("Game"), []);
    var d3 := Desktop(true, Window(1, None, [game7]), map[7 := (640, 480)], map[7 := (30, 40)], true);
    var d4 := Desktop(true, Window(1, None, [game7]), map[7 := (800, 600)], map[7 := (30, 40)], true);
    SingleChildFound(game7, "Game");
    o := FirstSession(fonts);
    var ok := o.Initialize(d3, Some("Game"));
    assert o.initialized && o.targetWindow == 7 && o.bufferW == 640 && o.backBuffer != 0;
    o.UpdateWindowPositionAsWritten(d4);
  }
}
