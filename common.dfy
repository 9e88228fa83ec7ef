/** Shared vocabulary of the overlay model: bytes, nullable handles, text
    alignment and the integer arithmetic of the C++ sources. */
module Common {

  /** One byte of a UTF-8 string (`char` / `unsigned char` in the sources). */
  newtype byte = x: int | 0 <= x < 256

  /** The conventional optional value (a C++ out-parameter that may stay unwritten). */
  datatype Option<+T> = None | Some(value: T) {
    function GetOr(default: T): T {
      match this
      case Some(v) => v
      case None => default
    }
  }

  /** A pointer or XID that may be null: `Null` is `nullptr` / `0`. */
  datatype Handle = Null | Font(id: nat)

  /** `Draw::TextAlignment` of draw/draw_x11.cpp and draw/draw_cairo.cpp. */
  datatype Align = Left | Center | Right

  /** The `align` argument: `ALIGN_CENTER` (1) and `ALIGN_RIGHT` (3); every
      other value, `ALIGN_LEFT` (2) included, draws left aligned. */
  function AlignOf(code: int): (a: Align)
    ensures a == Center <==> code == 1
    ensures a == Right <==> code == 3
  {
    if code == 1 then Center else if code == 3 then Right else Left
  }

  /** An integer rectangle as passed to `XFillRectangle` / `cairo_rectangle`. */
  datatype Rect = Rect(x: int, y: int, w: int, h: int)

  /** C++ integer division `a / b` for `b > 0`: it truncates toward zero,
      whereas Dafny's `/` is Euclidean. */
  function CDiv(a: int, b: int): (q: int)
    requires b > 0
    ensures a >= 0 ==> 0 <= a - q * b < b
    ensures a < 0 ==> -b < a - q * b <= 0
  {
    if a >= 0 then a / b else -((-a) / b)
  }

  /** `std::max` on ints. */
  function Max(a: int, b: int): (m: int)
    ensures m >= a && m >= b && (m == a || m == b)
  {
    if a >= b then a else b
  }

  /** The pen x at which a text of width `w` starts when anchored at `x`:
      `x` for left, `x - w/2` for center (C++ division), `x - w` for right.
      Shared by every variant (overlay.cpp `drawString`, draw/draw_cairo.cpp
      `Draw::*`, and line by line in draw/draw_x11.cpp `drawTextRuns`). */
  function AlignX(x: int, w: int, align: Align): int
  {
    match align
    case Left => x
    case Center => x - CDiv(w, 2)
    case Right => x - w
  }

  /** The integer steps by which the drawing functions compute the start
      of a text of width `w` from its anchor `x` and alignment code:
      `text_x` in overlay.cpp, `draw_x` in draw/draw_cairo.cpp. */
  method TextX(x: int, w: int, align: int) returns (tx: int)
    ensures tx == AlignX(x, w, AlignOf(align))
  {
    tx := x;
    if align == 1 {
      tx := x - CDiv(w, 2);
    } else if align == 3 {
      tx := x - w;
    }
  }

  /** Where the text `[AlignX, AlignX + w)` lies relative to its anchor:
      left-aligned text starts at the anchor, right-aligned text ends at it,
      and centred text has its midpoint within half a pixel of it. */
  lemma AlignXPlacesText(x: int, w: int, align: Align)
    requires w >= 0
    ensures align == Left ==> AlignX(x, w, align) == x
    ensures align == Right ==> AlignX(x, w, align) + w == x
    ensures align == Center ==>
      0 <= (AlignX(x, w, align) + w - x) - (x - AlignX(x, w, align)) <= 1
  {
  }
}
