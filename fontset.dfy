/** Font resolution of draw/draw_x11.cpp: normalising a (family, size)
    request, opening the primary font and the fixed fallback list, the line
    metrics of a font set, and the glyph coverage picker. fontconfig and Xft
    are the oracle `FontOracle`. */
module FontSets {
  import opened Common

  /** The font services the renderer consumes. A font is `Font(id)`; a
      failed open is `Null`. */
  datatype FontOracle = FontOracle(
    open: (string, int) -> Handle,        // openFontByFamily: FcFontMatch then XftFontOpenPattern
    covers: (nat, int) -> bool,           // XftCharExists(display, font, cp)
    ascent: nat -> int,                   // XftFont::ascent
    descent: nat -> int,                  // XftFont::descent
    advance: (Handle, seq<byte>) -> int)  // XftTextExtentsUtf8(display, font, bytes).xOff

  /** `FontSet` of draw/draw_x11.cpp. */
  datatype FontSet = FontSet(
    primary: Handle,
    fallbacks: seq<Handle>,
    lineAscent: int,
    lineDescent: int,
    fontHeight: int)

  /** `FontCacheEntry`: a font set under the normalised key it was loaded for. */
  datatype FontCacheEntry = FontCacheEntry(family: string, size: int, fontSet: FontSet)

  const DEFAULT_FAMILY: string := "Consolas"
  const DEFAULT_SIZE: int := 25
  const RESCUE_SIZE: int := 20

  /** `fallbackFamilies[]`, tried in this order. */
  const FALLBACK_FAMILIES: seq<string> := [
    "Noto Color Emoji", "Noto Emoji", "EmojiOne Color", "Twitter Color Emoji",
    "Segoe UI Symbol", "Symbola", "DejaVu Sans", "DejaVu Sans Mono", "Liberation Sans"]

  /** The family a request resolves to: "Consolas" when none is given. */
  function RequestFamily(family: Option<string>): (f: string)
    ensures family.Some? ==> f == family.value
    ensures family.None? ==> f == DEFAULT_FAMILY
  {
    family.GetOr(DEFAULT_FAMILY)
  }

  /** The point size a request resolves to: `(int)(font_size * 1.25)` for a
      positive size (exactly the integer part of five quarters of it), 25
      otherwise. */
  function RequestSize(size: int): (s: int)
    ensures size > 0 ==> 4 * s <= 5 * size < 4 * s + 4
    ensures size <= 0 ==> s == DEFAULT_SIZE
  {
    if size > 0 then (size * 5) / 4 else DEFAULT_SIZE
  }

  /** A compensated size is never below the requested one and is positive. */
  lemma RequestSizeGrows(size: int)
    ensures RequestSize(size) >= 1
    ensures size > 0 ==> RequestSize(size) >= size
  {
  }

  /** The fonts of `families` that open at `size`, in list order, failures
      skipped. */
  function OpenedFallbacks(families: seq<string>, size: int, fonts: FontOracle): (fs: seq<Handle>)
    ensures |fs| <= |families|
    ensures forall k :: 0 <= k < |fs| ==> fs[k].Font?
  {
    if families == [] then []
    else
      var front := OpenedFallbacks(families[..|families| - 1], size, fonts);
      var f := fonts.open(families[|families| - 1], size);
      if f.Font? then front + [f] else front
  }

  /** The largest value of `m` over the non-null fonts of `fonts`, starting
      from 0: the `std::max` accumulation of `getFontSet`. */
  function MaxMetric(fonts: seq<Handle>, m: nat -> int): (r: int)
    ensures r >= 0
    ensures forall k :: 0 <= k < |fonts| && fonts[k].Font? ==> m(fonts[k].id) <= r
    ensures r == 0 || exists k :: 0 <= k < |fonts| && fonts[k].Font? && r == m(fonts[k].id)
  {
    if fonts == [] then 0
    else
      var front := fonts[..|fonts| - 1];
      var last := fonts[|fonts| - 1];
      var r0 := MaxMetric(front, m);
      assert forall k :: 0 <= k < |front| ==> front[k] == fonts[k];
      if last.Font? then Max(r0, m(last.id)) else r0
  }

  /** What `getFontSet` builds for a normalised (family, size) on a miss:
      the requested family, or Consolas 20 when that fails; every fallback
      family that opens; line ascent and descent as maxima over all loaded
      fonts; and their sum as the height. */
  function LoadedFontSet(family: string, size: int, fonts: FontOracle): (fs: FontSet)
    ensures forall k :: 0 <= k < |fs.fallbacks| ==> fs.fallbacks[k].Font?
    ensures fs.lineAscent >= 0 && fs.lineDescent >= 0 && fs.fontHeight == fs.lineAscent + fs.lineDescent
    ensures fs.primary.Font? ==> fonts.ascent(fs.primary.id) <= fs.lineAscent && fonts.descent(fs.primary.id) <= fs.lineDescent
    ensures forall k :: 0 <= k < |fs.fallbacks| ==>
              fonts.ascent(fs.fallbacks[k].id) <= fs.lineAscent && fonts.descent(fs.fallbacks[k].id) <= fs.lineDescent
  {
    var wanted := fonts.open(family, size);
    var primary := if wanted.Font? then wanted else fonts.open(DEFAULT_FAMILY, RESCUE_SIZE);
    var fallbacks := OpenedFallbacks(FALLBACK_FAMILIES, size, fonts);
    var all := [primary] + fallbacks;
    assert all[0] == primary && forall k :: 0 <= k < |fallbacks| ==> all[k + 1] == fallbacks[k];
    var ascent := MaxMetric(all, fonts.ascent);
    var descent := MaxMetric(all, fonts.descent);
    FontSet(primary, fallbacks, ascent, descent, ascent + descent)
  }

  /** The primary font is the requested one whenever it opens, and the
      Consolas 20 rescue otherwise; the line height is reached by one of the
      loaded fonts unless nothing loaded has positive metrics. */
  lemma LoadedFontSetPrimary(family: string, size: int, fonts: FontOracle)
    ensures fonts.open(family, size).Font? ==> LoadedFontSet(family, size, fonts).primary == fonts.open(family, size)
    ensures fonts.open(family, size).Null? ==> LoadedFontSet(family, size, fonts).primary == fonts.open(DEFAULT_FAMILY, RESCUE_SIZE)
    ensures var fs := LoadedFontSet(family, size, fonts);
            fs.lineAscent == 0
            || (fs.primary.Font? && fs.lineAscent == fonts.ascent(fs.primary.id))
            || exists k :: 0 <= k < |fs.fallbacks| && fs.lineAscent == fonts.ascent(fs.fallbacks[k].id)
  {
    var fs := LoadedFontSet(family, size, fonts);
    var all := [fs.primary] + fs.fallbacks;
    if fs.lineAscent != 0 {
      var k :| 0 <= k < |all| && all[k].Font? && fs.lineAscent == fonts.ascent(all[k].id);
      if k > 0 {
        assert all[k] == fs.fallbacks[k - 1];
      }
    }
  }

  /** The fallback loop of `getFontSet`: each family of `families` is opened
      at `size` in order and kept only when the open succeeds. */
  method OpenFallbackFonts(families: seq<string>, size: int, fonts: FontOracle) returns (fallbacks: seq<Handle>)
    ensures fallbacks == OpenedFallbacks(families, size, fonts)
  {
    fallbacks := [];
    var k := 0;
    while k < |families|
      invariant 0 <= k <= |families|
      invariant fallbacks == OpenedFallbacks(families[..k], size, fonts)
    {
      assert families[..k + 1][..k] == families[..k];
      var f := fonts.open(families[k], size);
      if f != Null {
        fallbacks := fallbacks + [f];
      }
      k := k + 1;
    }
    assert families[..k] == families;
  }

  /** The metric loop of `getFontSet`: `std::max` from 0 over the primary
      font when it is loaded, then over every loaded fallback. */
  method AccumulateMetric(primary: Handle, fallbacks: seq<Handle>, m: nat -> int) returns (r: int)
    ensures r == MaxMetric([primary] + fallbacks, m)
  {
    r := 0;
    if primary != Null {
      r := Max(r, m(primary.id));
    }
    var all := [primary] + fallbacks;
    assert all[..1] == [primary];
    var j := 0;
    while j < |fallbacks|
      invariant 0 <= j <= |fallbacks|
      invariant r == MaxMetric(all[..j + 1], m)
    {
      assert all[..j + 2][..j + 1] == all[..j + 1] && all[j + 1] == fallbacks[j];
      var f := fallbacks[j];
      if f != Null {
        r := Max(r, m(f.id));
      }
      j := j + 1;
    }
    assert all[..j + 1] == all;
  }

  /** The cache-miss path of `getFontSet`: open the primary font (with the
      Consolas 20 rescue), open the fallback families in order, then
      accumulate the line metrics over the primary font and every fallback. */
  method LoadFontSet(family: string, size: int, fonts: FontOracle) returns (fs: FontSet)
    ensures fs == LoadedFontSet(family, size, fonts)
  {
    var primary := fonts.open(family, size);
    if primary == Null {
      primary := fonts.open(DEFAULT_FAMILY, RESCUE_SIZE);
    }
    var fallbacks := OpenFallbackFonts(FALLBACK_FAMILIES, size, fonts);
    var ascent := AccumulateMetric(primary, fallbacks, fonts.ascent);
    var descent := AccumulateMetric(primary, fallbacks, fonts.descent);
    fs := FontSet(primary, fallbacks, ascent, descent, ascent + descent);
  }

  /** A font that exists and has a glyph for `cp`. */
  predicate Covers(f: Handle, cp: int, fonts: FontOracle)
  {
    f.Font? && fonts.covers(f.id, cp)
  }

  /** The first fallback that covers `cp`, in list order. */
  function FirstCovering(fallbacks: seq<Handle>, cp: int, fonts: FontOracle): (r: Option<nat>)
    ensures r.None? <==> forall k :: 0 <= k < |fallbacks| ==> !Covers(fallbacks[k], cp, fonts)
    ensures r.Some? ==> r.value < |fallbacks| && Covers(fallbacks[r.value], cp, fonts)
                        && forall k :: 0 <= k < r.value ==> !Covers(fallbacks[k], cp, fonts)
  {
    if fallbacks == [] then None
    else if Covers(fallbacks[0], cp, fonts) then Some(0)
    else
      var r := FirstCovering(fallbacks[1..], cp, fonts);
      if r.Some? then Some(r.value + 1) else None
  }

  /** `pickFontForChar`: the primary font if it covers `cp`, else the first
      covering fallback, else the primary font unconditionally. */
  function PickFontForChar(fs: FontSet, cp: int, fonts: FontOracle): (f: Handle)
  {
    if Covers(fs.primary, cp, fonts) then fs.primary
    else
      match FirstCovering(fs.fallbacks, cp, fonts)
      case Some(k) => fs.fallbacks[k]
      case None => fs.primary
  }

  /** The priority rule of the picker, stated on its result: the primary
      font wins whenever it covers `cp`; otherwise a covering fallback is
      chosen when there is one, and it is the first such in list order;
      otherwise the primary font is returned. */
  lemma PickFontPriority(fs: FontSet, cp: int, fonts: FontOracle)
    ensures Covers(fs.primary, cp, fonts) ==> PickFontForChar(fs, cp, fonts) == fs.primary
    ensures !Covers(fs.primary, cp, fonts) && (exists k :: 0 <= k < |fs.fallbacks| && Covers(fs.fallbacks[k], cp, fonts)) ==>
              exists k :: 0 <= k < |fs.fallbacks| && PickFontForChar(fs, cp, fonts) == fs.fallbacks[k]
                          && Covers(fs.fallbacks[k], cp, fonts)
                          && forall j :: 0 <= j < k ==> !Covers(fs.fallbacks[j], cp, fonts)
    ensures (forall k :: 0 <= k < |fs.fallbacks| ==> !Covers(fs.fallbacks[k], cp, fonts)) ==>
              PickFontForChar(fs, cp, fonts) == fs.primary
  {
  }

  /** The picker returns one of the set's own fonts, and never null while
      the primary font is loaded. */
  lemma PickFontInSet(fs: FontSet, cp: int, fonts: FontOracle)
    ensures PickFontForChar(fs, cp, fonts) == fs.primary || PickFontForChar(fs, cp, fonts) in fs.fallbacks
    ensures fs.primary.Font? ==> PickFontForChar(fs, cp, fonts).Font?
  {
  }
}
