/** The Cairo/Pango backend of draw/draw_cairo.cpp: the overlay's lifecycle
    (bind to a target window found by class, follow its geometry, release
    everything when the target goes away), the off-screen surface every
    frame is painted into, and the `Draw::` entry points, which do nothing
    outside a frame. */
module CairoOverlay {
  import opened Common
  import opened WindowTree

  /** The Pango font description `setLayoutFont` builds: a family and a
      size in points. */
  datatype LayoutFont = LayoutFont(family: string, size: int)

  /** `setLayoutFont(layout, font_family, font_size)`: a missing family is
      "Consolas" and a size that is not positive is 20, so the layout
      always gets a positive size. */
  function FontOf(family: Option<string>, size: int): (f: LayoutFont)
    ensures f.size > 0
    ensures size > 0 ==> f.size == size
    ensures size <= 0 ==> f.size == 20
    ensures family.Some? ==> f.family == family.value
    ensures family.None? ==> f.family == "Consolas"
  {
    LayoutFont(if family.Some? then family.value else "Consolas", if size > 0 then size else 20)
  }

  /** What a frame paints into the off-screen surface, in order. Colours,
      the alpha of the background and the stroke width are left out. */
  datatype CairoOp =
    | ShowLayout(text: seq<byte>, font: LayoutFont, x: int, y: int)    // pango_cairo_show_layout at (x, y)
    | StrokeLayout(text: seq<byte>, font: LayoutFont, x: int, y: int)  // pango_cairo_layout_path + cairo_stroke
    | FillRectangle(area: Rect)                                        // cairo_rectangle + cairo_fill

  /** The background of `drawStringBackground` for a text of pixel size
      `w` x `h` whose top-left corner is at (`drawX`, `y`): it leaves
      `padding` pixels on every side of the text, whatever the alignment. */
  function Backdrop(drawX: int, y: int, w: int, h: int, padding: int): (r: Rect)
    ensures r.x + padding == drawX && r.x + r.w == drawX + w + padding
    ensures r.y + padding == y && r.y + r.h == y + h + padding
  {
    Rect(drawX - padding, y - padding, w + 2 * padding, h + 2 * padding)
  }

  /** The text is found when some window below the root carries the class,
      and it can be bound when the display is open and the first such
      window is a real window whose attributes and root coordinates can be
      read. */
  predicate Bindable(d: Desktop, displayOpen: bool, cls: string)
  {
    var found := FirstMatch(Descendants(d.root), cls);
    displayOpen && found.Some? && found.value != 0 && found.value in d.attributes && found.value in d.origins
  }

  /** The state of draw/draw_cairo.cpp's file-scope globals. XIDs and cairo
      objects are numbered from one counter, `nextId`; 0 is `None` /
      `nullptr`. `lastWidth`/`lastHeight` are the function-local statics of
      `ensureOffscreenBuffer`. `canvas` is what the off-screen surface holds
      since it was last cleared, `shown` what the last `endFrame` copied to
      the overlay window. */
  class Overlay {
    const pixelSize: (LayoutFont, seq<byte>) -> (int, int)   // pango_layout_get_pixel_size
    var displayOpen: bool
    var targetWindow: nat
    var overlayWindow: nat
    var overlayRect: Rect
    var colormap: nat
    var cairoSurface: nat
    var surfaceW: int
    var surfaceH: int
    var offscreen: nat
    var offscreenW: int
    var offscreenH: int
    var cr: nat
    var currentCr: nat
    var posX: int
    var posY: int
    var width: int
    var height: int
    var initialized: bool
    var currentClass: string
    var lastWidth: int
    var lastHeight: int
    var nextId: nat
    var canvas: seq<CairoOp>
    var shown: seq<CairoOp>

    function Geo(): Geometry
      reads this
    {
      Geometry(posX, posY, width, height)
    }

    /** `checkTargetWindowExists()`: a display, a target, and the target
        still answers `XGetWindowAttributes` without an X error. */
    predicate TargetExists(d: Desktop)
      reads this
    {
      displayOpen && targetWindow != 0 && targetWindow in d.attributes
    }

    /** `getWindowGeometry(win)` succeeds. */
    predicate GeometryReadable(d: Desktop, win: nat)
      reads this
    {
      displayOpen && win != 0 && win in d.attributes && win in d.origins
    }

    /** `ensureOffscreenBuffer` must create a surface: there is none, or
        the window's size differs from the one recorded at the last
        creation. */
    predicate OffscreenStale()
      reads this
    {
      offscreen == 0 || lastWidth != width || lastHeight != height
    }

    /** Nothing held: the state `cleanupOverlayInternal` leaves. */
    predicate Released()
      reads this
    {
      && !initialized && targetWindow == 0 && overlayWindow == 0 && colormap == 0
      && cairoSurface == 0 && offscreen == 0 && cr == 0 && currentCr == 0
    }

    /** The resource bookkeeping: `cr` and `current_cr` move together, a
        drawing context exists only while bound and on an off-screen
        surface, the off-screen surface has the size last recorded for it,
        an unbound overlay holds nothing (it may still name a target whose
        geometry could not be read), and a bound one has its display, its
        target and an overlay window over the target's geometry. */
    predicate Valid()
      reads this
    {
      && nextId >= 1
      && cr == currentCr
      && (cr != 0 ==> initialized && offscreen != 0)
      && (offscreen != 0 ==> offscreenW == lastWidth && offscreenH == lastHeight)
      && (!initialized ==> overlayWindow == 0 && colormap == 0 && cairoSurface == 0 && offscreen == 0)
      && (initialized ==> displayOpen && targetWindow != 0)
      && (initialized && overlayWindow != 0 ==>
            overlayRect == Rect(posX, posY, width, height) && surfaceW == width && surfaceH == height)
    }

    /** The state right after a successful bind to `win` from resource
        counter `id0`: geometry read, overlay created when a 32-bit visual
        exists, and no frame open. */
    predicate Bound(d: Desktop, win: nat, id0: nat)
      reads this
    {
      && initialized && displayOpen && targetWindow == win
      && win in d.attributes && win in d.origins
      && Geo() == Geometry(d.origins[win].0, d.origins[win].1, d.attributes[win].0, d.attributes[win].1)
      && offscreen == 0 && cr == 0
      && (d.argbVisual ==>
            && colormap == id0 && overlayWindow == id0 + 1 && cairoSurface == id0 + 2 && nextId == id0 + 3
            && overlayRect == Rect(posX, posY, width, height) && surfaceW == width && surfaceH == height)
      && (!d.argbVisual ==> overlayWindow == 0 && cairoSurface == 0 && nextId == id0)
    }

    constructor(pixelSize: (LayoutFont, seq<byte>) -> (int, int))
      ensures this.pixelSize == pixelSize
      ensures Valid() && Released() && !displayOpen
      ensures Geo() == Geometry(0, 0, 0, 0) && lastWidth == 0 && lastHeight == 0
      ensures currentClass == "" && nextId == 1 && canvas == [] && shown == []
    {
      this.pixelSize := pixelSize;
      displayOpen := false;
      targetWindow := 0;
      overlayWindow := 0;
      overlayRect := Rect(0, 0, 0, 0);
      colormap := 0;
      cairoSurface := 0;
      surfaceW, surfaceH := 0, 0;
      offscreen := 0;
      offscreenW, offscreenH := 0, 0;
      cr := 0;
      currentCr := 0;
      posX, posY, width, height := 0, 0, 0, 0;
      initialized := false;
      currentClass := "";
      lastWidth, lastHeight := 0, 0;
      nextId := 1;
      canvas := [];
      shown := [];
    }

    /** `getWindowGeometry(win)`: `false`, with the old geometry kept, when
        there is no display, `win` is 0, or either X query fails; otherwise
        the window's root coordinates and size. */
    method GetWindowGeometry(d: Desktop, win: nat) returns (ok: bool)
      modifies this`posX, this`posY, this`width, this`height
      ensures ok == GeometryReadable(d, win)
      ensures Geo() == GeometryAfter(d, displayOpen, win, old(Geo()))
    {
      if !displayOpen || win == 0 {
        return false;
      }
      if win !in d.attributes {
        return false;
      }
      if win !in d.origins {
        return false;
      }
      posX, posY := d.origins[win].0, d.origins[win].1;
      width, height := d.attributes[win].0, d.attributes[win].1;
      return true;
    }

    /** `createOverlayWindow()`: without a 32-bit TrueColor visual nothing
        is created; otherwise a colormap, the overlay window over the
        target's geometry and a Cairo surface of the target's size on it. */
    method CreateOverlayWindow(d: Desktop)
      modifies this`colormap, this`overlayWindow, this`overlayRect, this`cairoSurface,
               this`surfaceW, this`surfaceH, this`nextId
      ensures !d.argbVisual ==> unchanged(this)
      ensures d.argbVisual ==>
        && colormap == old(nextId) && overlayWindow == old(nextId) + 1 && cairoSurface == old(nextId) + 2
        && nextId == old(nextId) + 3
        && overlayRect == Rect(posX, posY, width, height) && surfaceW == width && surfaceH == height
    {
      if !d.argbVisual {
        return;
      }
      colormap := nextId;
      overlayWindow := nextId + 1;
      overlayRect := Rect(posX, posY, width, height);
      cairoSurface := nextId + 2;
      surfaceW, surfaceH := width, height;
      nextId := nextId + 3;
    }

    /** `ensureOffscreenBuffer()`: a new ARGB32 surface of the window's size
        exactly when there is none or the size differs from the one
        recorded at the last creation; afterwards the surface exists and
        has the window's size. */
    method EnsureOffscreenBuffer()
      requires Valid() && initialized
      modifies this`offscreen, this`offscreenW, this`offscreenH, this`lastWidth, this`lastHeight,
               this`nextId, this`canvas
      ensures Valid()
      ensures offscreen != 0 && offscreenW == width && offscreenH == height
      ensures lastWidth == width && lastHeight == height
      ensures old(OffscreenStale()) ==>
        offscreen == old(nextId) && nextId == old(nextId) + 1 && canvas == []
      ensures !old(OffscreenStale()) ==>
        offscreen == old(offscreen) && nextId == old(nextId) && canvas == old(canvas)
    {
      if OffscreenStale() {
        offscreen := nextId;
        offscreenW, offscreenH := width, height;
        canvas := [];
        nextId := nextId + 1;
        lastWidth, lastHeight := width, height;
      }
    }

    /** `cleanupOverlayInternal()`: the drawing context, both surfaces, the
        overlay window and the colormap are released and the overlay is
        unbound; a second call changes nothing. The display, the geometry,
        the remembered class and the recorded off-screen size survive. */
    method CleanupOverlayInternal()
      requires Valid()
      modifies this`cr, this`cairoSurface, this`offscreen, this`overlayWindow, this`colormap,
               this`targetWindow, this`initialized, this`currentCr
      ensures Valid() && Released()
      ensures old(Released()) ==> unchanged(this)
    {
      if cr != 0 {
        cr := 0;
      }
      if cairoSurface != 0 {
        cairoSurface := 0;
      }
      if offscreen != 0 {
        offscreen := 0;
      }
      if overlayWindow != 0 {
        overlayWindow := 0;
      }
      if colormap != 0 {
        colormap := 0;
      }
      targetWindow := 0;
      initialized := false;
      currentCr := 0;
    }

    /** `initializeOverlayInternal(window_class)`, reached only while
        unbound: open the display if needed, find the first window of class
        `cls` below the root, adopt it as the target, read its geometry and
        create the overlay. The target is adopted before its geometry is
        read, so a failed read leaves it named while the overlay stays
        unbound. */
    method InitializeOverlayInternal(d: Desktop, cls: string) returns (ok: bool)
      requires Valid() && !initialized
      modifies this`displayOpen, this`targetWindow, this`posX, this`posY, this`width, this`height,
               this`colormap, this`overlayWindow, this`overlayRect, this`cairoSurface,
               this`surfaceW, this`surfaceH, this`nextId, this`initialized
      ensures Valid()
      ensures displayOpen == (old(displayOpen) || d.displayAvailable)
      ensures ok == initialized
      ensures ok == Bindable(d, displayOpen, cls)
      ensures !ok ==> Geo() == old(Geo()) && nextId == old(nextId) && overlayWindow == 0 && cairoSurface == 0
      ensures !ok ==>
        targetWindow == (if displayOpen && FirstMatch(Descendants(d.root), cls).Some?
                         then FirstMatch(Descendants(d.root), cls).value else old(targetWindow))
      ensures ok ==> Bound(d, FirstMatch(Descendants(d.root), cls).value, old(nextId))
    {
      if !displayOpen {
        if !d.displayAvailable {
          return false;
        }
        displayOpen := true;
      }
      var found := FindWindowByClass(d.root, cls);
      if found.None? {
        return false;
      }
      ok := AdoptTarget(d, found.value);
    }

    /** The part of `initializeOverlayInternal` after the search: adopt
        `win` as the target, then read its geometry; only when that
        succeeds is the overlay created and marked bound. */
    method AdoptTarget(d: Desktop, win: nat) returns (ok: bool)
      requires Valid() && !initialized && displayOpen
      modifies this`targetWindow, this`posX, this`posY, this`width, this`height,
               this`colormap, this`overlayWindow, this`overlayRect, this`cairoSurface,
               this`surfaceW, this`surfaceH, this`nextId, this`initialized
      ensures Valid() && targetWindow == win
      ensures ok == initialized && ok == GeometryReadable(d, win)
      ensures !ok ==> Geo() == old(Geo()) && nextId == old(nextId) && overlayWindow == 0 && cairoSurface == 0
      ensures ok ==> Bound(d, win, old(nextId))
    {
      targetWindow := win;
      ok := GetWindowGeometry(d, targetWindow);
      if !ok {
        return;
      }
      CreateOverlayWindow(d);
      initialized := true;
    }

    /** `Overlay::tryInitialize(window_class)`: while bound to a live target
        nothing happens; a lost target is cleaned up first; then a given
        class replaces the remembered one, and a non-empty remembered class
        is searched for. */
    method TryInitialize(d: Desktop, cls: Option<string>) returns (ok: bool)
      requires Valid()
      modifies this`displayOpen, this`targetWindow, this`posX, this`posY, this`width, this`height,
               this`colormap, this`overlayWindow, this`overlayRect, this`cairoSurface,
               this`surfaceW, this`surfaceH, this`nextId, this`initialized,
               this`cr, this`offscreen, this`currentCr, this`currentClass
      ensures Valid()
      ensures old(initialized && TargetExists(d)) ==> ok && unchanged(this)
      ensures !old(initialized && TargetExists(d)) ==>
        var cls' := if cls.Some? then cls.value else old(currentClass);
        && currentClass == cls'
        && ok == initialized
        && ok == (cls' != "" && Bindable(d, old(displayOpen) || d.displayAvailable, cls'))
        && displayOpen == (old(displayOpen) || (cls' != "" && d.displayAvailable))
        && (!ok ==> overlayWindow == 0 && cairoSurface == 0 && offscreen == 0 && cr == 0 && Geo() == old(Geo()))
        && (ok ==> Bound(d, FirstMatch(Descendants(d.root), cls').value, old(nextId)))
    {
      if initialized {
        if !TargetExists(d) {
          CleanupOverlayInternal();
        } else {
          return true;
        }
      }
      if cls.Some? {
        currentClass := cls.value;
      }
      if currentClass != "" {
        ok := InitializeOverlayInternal(d, currentClass);
        return;
      }
      return false;
    }

    /** `Overlay::initialize(window_class)`: remember the class (empty when
        none is given), then `tryInitialize`. While bound to a live target
        the new class is remembered but the old target is kept. */
    method Initialize(d: Desktop, cls: Option<string>) returns (ok: bool)
      requires Valid()
      modifies this`displayOpen, this`targetWindow, this`posX, this`posY, this`width, this`height,
               this`colormap, this`overlayWindow, this`overlayRect, this`cairoSurface,
               this`surfaceW, this`surfaceH, this`nextId, this`initialized,
               this`cr, this`offscreen, this`currentCr, this`currentClass
      ensures Valid()
      ensures currentClass == cls.GetOr("")
      ensures old(initialized && TargetExists(d)) ==>
        ok && initialized && targetWindow == old(targetWindow) && Geo() == old(Geo())
      ensures !old(initialized && TargetExists(d)) ==>
        && ok == initialized
        && ok == (cls.GetOr("") != "" && Bindable(d, old(displayOpen) || d.displayAvailable, cls.GetOr("")))
        && (ok ==> Bound(d, FirstMatch(Descendants(d.root), cls.GetOr("")).value, old(nextId)))
    {
      currentClass := cls.GetOr("");
      ok := TryInitialize(d, cls);
    }

    /** `Overlay::shutdown()`: clean up, then close the display. */
    method Shutdown()
      requires Valid()
      modifies this`cr, this`cairoSurface, this`offscreen, this`overlayWindow, this`colormap,
               this`targetWindow, this`initialized, this`currentCr, this`displayOpen
      ensures Valid() && Released() && !displayOpen
    {
      CleanupOverlayInternal();
      if displayOpen {
        displayOpen := false;
      }
    }

    /** `Overlay::beginFrame()`: outside a binding nothing happens; inside
        one a drawing context is opened on an off-screen surface of the
        window's size, which is cleared to transparent. */
    method BeginFrame()
      requires Valid()
      modifies this`offscreen, this`offscreenW, this`offscreenH, this`lastWidth, this`lastHeight,
               this`nextId, this`canvas, this`cr, this`currentCr
      ensures Valid()
      ensures !old(initialized) ==> unchanged(this)
      ensures old(initialized) ==>
        && cr != 0 && currentCr == cr && cr == nextId - 1
        && offscreen != 0 && offscreenW == width && offscreenH == height
        && canvas == []
    {
      if !initialized {
        return;
      }
      EnsureOffscreenBuffer();
      cr := nextId;
      nextId := nextId + 1;
      currentCr := cr;
      canvas := [];
    }

    /** `Overlay::endFrame()`: without an open drawing context (or a
        binding) nothing happens; otherwise the context is closed and the
        off-screen surface is copied to the overlay window. */
    method EndFrame()
      requires Valid()
      modifies this`cr, this`currentCr, this`shown
      ensures Valid()
      ensures old(cr == 0 || !initialized) ==> unchanged(this)
      ensures old(cr != 0 && initialized) ==> cr == 0 && currentCr == 0 && shown == canvas
    {
      if cr == 0 || !initialized {
        return;
      }
      cr := 0;
      currentCr := 0;
      shown := canvas;
    }

    /** `Overlay::updateWindowPosition()`: outside a binding nothing
        happens; a target that has gone, or whose geometry can no longer be
        read, releases everything; otherwise the overlay window and its
        surface follow the target's new geometry, and the next frame gets
        an off-screen surface of the new size. */
    method UpdateWindowPosition(d: Desktop)
      requires Valid()
      modifies this`cr, this`cairoSurface, this`offscreen, this`overlayWindow, this`colormap,
               this`targetWindow, this`initialized, this`currentCr,
               this`posX, this`posY, this`width, this`height, this`overlayRect, this`surfaceW, this`surfaceH
      ensures Valid()
      ensures !old(initialized) || old(targetWindow) == 0 ==> unchanged(this)
      ensures old(initialized) && old(targetWindow) != 0 ==> initialized == old(GeometryReadable(d, targetWindow))
      ensures old(initialized) && old(targetWindow) != 0 && !initialized ==> Released()
      ensures old(initialized) && old(targetWindow) != 0 && initialized ==>
        && targetWindow == old(targetWindow)
        && Geo() == GeometryAfter(d, true, targetWindow, old(Geo()))
        && overlayRect == Rect(posX, posY, width, height) && surfaceW == width && surfaceH == height
        && cr == old(cr) && offscreen == old(offscreen) && overlayWindow == old(overlayWindow)
        && cairoSurface == old(cairoSurface) && colormap == old(colormap) && currentCr == old(currentCr)
    {
      if !initialized || targetWindow == 0 {
        return;
      }
      if !TargetExists(d) {
        CleanupOverlayInternal();
        return;
      }
      var ok := GetWindowGeometry(d, targetWindow);
      if !ok {
        CleanupOverlayInternal();
        return;
      }
      overlayRect := Rect(posX, posY, width, height);
      surfaceW, surfaceH := width, height;
    }

    /** `Overlay::getWidth()`: the target's width while bound, else 0. */
    function Width(): (w: int)
      reads this
      ensures !initialized ==> w == 0
      ensures initialized ==> w == width
    {
      if !initialized then 0 else width
    }

    /** `Overlay::getHeight()`: the target's height while bound, else 0. */
    function Height(): (h: int)
      reads this
      ensures !initialized ==> h == 0
      ensures initialized ==> h == height
    {
      if !initialized then 0 else height
    }

    /** `Draw::drawStringPlain`: outside a frame nothing happens; inside one
        the text is shown with its top-left corner at the aligned x and at
        `y`. */
    method DrawStringPlain(text: seq<byte>, x: int, y: int, family: Option<string>, size: int, align: int)
      modifies this`canvas
      ensures currentCr == 0 ==> unchanged(this)
      ensures currentCr != 0 ==>
        var font := FontOf(family, size);
        canvas == old(canvas) + [ShowLayout(text, font, AlignX(x, pixelSize(font, text).0, AlignOf(align)), y)]
    {
      if currentCr == 0 {
        return;
      }
      var font := FontOf(family, size);
      var (w, h) := pixelSize(font, text);
      var drawX := TextX(x, w, align);
      canvas := canvas + [ShowLayout(text, font, drawX, y)];
    }

    /** `Draw::drawStringOutline`: outside a frame nothing happens; inside
        one the outline of the text is stroked, then the text is shown on
        top of it at the same place. */
    method DrawStringOutline(text: seq<byte>, x: int, y: int, family: Option<string>, size: int, align: int)
      modifies this`canvas
      ensures currentCr == 0 ==> unchanged(this)
      ensures currentCr != 0 ==>
        var font := FontOf(family, size);
        var drawX := AlignX(x, pixelSize(font, text).0, AlignOf(align));
        canvas == old(canvas) + [StrokeLayout(text, font, drawX, y), ShowLayout(text, font, drawX, y)]
    {
      if currentCr == 0 {
        return;
      }
      var font := FontOf(family, size);
      var (w, h) := pixelSize(font, text);
      var drawX := TextX(x, w, align);
      canvas := canvas + [StrokeLayout(text, font, drawX, y), ShowLayout(text, font, drawX, y)];
    }

    /** `Draw::drawStringBackground`: outside a frame nothing happens;
        inside one a rectangle `padding` pixels larger than the text on
        every side is filled, then the text is shown on it. */
    method DrawStringBackground(text: seq<byte>, x: int, y: int, padding: int, family: Option<string>, size: int,
                                align: int)
      modifies this`canvas
      ensures currentCr == 0 ==> unchanged(this)
      ensures currentCr != 0 ==>
        var font := FontOf(family, size);
        var (w, h) := pixelSize(font, text);
        var drawX := AlignX(x, w, AlignOf(align));
        canvas == old(canvas) + [FillRectangle(Backdrop(drawX, y, w, h, padding)), ShowLayout(text, font, drawX, y)]
    {
      if currentCr == 0 {
        return;
      }
      var font := FontOf(family, size);
      var (w, h) := pixelSize(font, text);
      var drawX := TextX(x, w, align);
      var bg := Rect(drawX - padding, y - padding, w + 2 * padding, h + 2 * padding);
      canvas := canvas + [FillRectangle(bg), ShowLayout(text, font, drawX, y)];
    }

    /** `Draw::getTextSize`: outside a frame the out-parameters are left
        unwritten (`None`); inside one they receive the text's pixel size
        in the requested font. */
    method GetTextSize(text: seq<byte>, family: Option<string>, size: int) returns (r: Option<(int, int)>)
      ensures r.None? <==> currentCr == 0
      ensures r.Some? ==> r.value == pixelSize(FontOf(family, size), text)
    {
      if currentCr == 0 {
        return None;
      }
      var font := FontOf(family, size);
      var (w, h) := pixelSize(font, text);
      return Some((w, h));
    }
  }
}
