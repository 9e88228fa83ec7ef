/** The single-file overlay of overlay.cpp: a primary Xft font with
    fallback fonts found through fontconfig and cached by file, the
    shaping of a UTF-8 string into runs of one font each, text measuring,
    and the plain, boxed and outlined text drawing. Drawing appends
    operations to `canvas` instead of calling Xft. */
module StandaloneOverlay {
  import opened Common
  import opened Utf8
  import opened FontSets
  import opened Shaper
  import opened Placement

  /** What `FcFontMatch` yields for the pattern `match_font_for_char`
      builds around one code point: nothing, a match without a file name,
      or a match naming a font file. */
  datatype FcMatch = NoMatch | Unnamed | File(path: string)

  /** fontconfig and the font opener as `match_font_for_char` uses them. */
  datatype Fontconfig = Fontconfig(
    matchFor: int -> FcMatch,     // FcFontMatch on the pattern holding the code point
    opensUnnamed: int -> bool,    // XftFontOpenPattern succeeds on a match without a file
    opensFile: string -> bool)    // XftFontOpenPattern succeeds on a match naming the file

  /** `g_fallback_cache` and the supply of new font handles: a font that
      `XftFontOpenPattern` opens is `Font(next)`. */
  datatype Fallbacks = Fallbacks(cache: map<string, Handle>, next: nat)

  // ---------------------------------------------------------------------
  // match_font_for_char
  // ---------------------------------------------------------------------

  /** `match_font_for_char(cp)` with primary font `primary`: the font and
      the fallback state afterwards. The primary font wins when it covers
      `cp`. Otherwise a failed match or a failed open gives the primary
      font (`font ? font : nullptr`); a match without a file opens a new
      font every time, uncached; a match naming a cached file gives the
      cached font; a new file is opened and cached. */
  function MatchFont(primary: Handle, fb: Fallbacks, cp: int, fonts: FontOracle, fc: Fontconfig): (Handle, Fallbacks)
  {
    if Covers(primary, cp, fonts) then (primary, fb)
    else
      match fc.matchFor(cp)
      case NoMatch => (primary, fb)
      case Unnamed =>
        if fc.opensUnnamed(cp) then (Font(fb.next), Fallbacks(fb.cache, fb.next + 1)) else (primary, fb)
      case File(path) =>
        if path in fb.cache then (fb.cache[path], fb)
        else if fc.opensFile(path) then (Font(fb.next), Fallbacks(fb.cache[path := Font(fb.next)], fb.next + 1))
        else (primary, fb)
  }

  /** The cache only grows: every cached file keeps its font. */
  predicate Extends(after: Fallbacks, before: Fallbacks)
  {
    before.cache.Keys <= after.cache.Keys && forall p :: p in before.cache ==> after.cache[p] == before.cache[p]
  }

  /** Only opened fonts are cached: no entry is null. */
  predicate CachesFonts(fb: Fallbacks)
  {
    forall p :: p in fb.cache ==> fb.cache[p] != Null
  }

  /** What the matcher does to the cache: it only grows, keeps holding
      fonts, and gains at most the matched file, under which the font
      returned is cached when that file opens. */
  lemma MatchFontCache(primary: Handle, fb: Fallbacks, cp: int, fonts: FontOracle, fc: Fontconfig)
    ensures var r := MatchFont(primary, fb, cp, fonts, fc);
            && Extends(r.1, fb)
            && (CachesFonts(fb) ==> CachesFonts(r.1))
            && (!fc.matchFor(cp).File? ==> r.1.cache == fb.cache)
            && (fc.matchFor(cp).File? ==> r.1.cache.Keys <= fb.cache.Keys + {fc.matchFor(cp).path})
            && (!Covers(primary, cp, fonts) && fc.matchFor(cp).File? && fc.opensFile(fc.matchFor(cp).path) ==>
                  fc.matchFor(cp).path in r.1.cache && r.1.cache[fc.matchFor(cp).path] == r.0)
  {
  }

  /** What the matcher returns: the primary font when it covers the code
      point; the same font as before for a file matched before; and never
      null unless the primary font is. */
  lemma MatchFontResult(primary: Handle, fb: Fallbacks, cp: int, fonts: FontOracle, fc: Fontconfig)
    ensures var r := MatchFont(primary, fb, cp, fonts, fc);
            && (Covers(primary, cp, fonts) ==> r == (primary, fb))
            && (!Covers(primary, cp, fonts) && fc.matchFor(cp).File? && fc.matchFor(cp).path in fb.cache ==>
                  r == (fb.cache[fc.matchFor(cp).path], fb))
            && (CachesFonts(fb) && r.0 == Null ==> primary == Null)
  {
  }

  /** `Extends` is transitive. */
  lemma ExtendsTrans(a: Fallbacks, b: Fallbacks, c: Fallbacks)
    requires Extends(b, a) && Extends(c, b)
    ensures Extends(c, a)
  {
  }

  // ---------------------------------------------------------------------
  // shape_to_runs
  // ---------------------------------------------------------------------

  /** The locals of `shape_to_runs` between iterations: the runs pushed so
      far, `cur`, `cur_bytes`, and the fallback state. */
  datatype Shaping = Shaping(runs: seq<Run>, cur: Handle, curBytes: seq<byte>, fb: Fallbacks)

  /** One iteration for the unit `u`: a code point whose font is null is
      skipped; a change of font pushes the collected bytes (if any); the
      unit's bytes are then collected. */
  function ShapingStep(st: Shaping, u: Unit, primary: Handle, fonts: FontOracle, fc: Fontconfig): Shaping
  {
    var m := MatchFont(primary, st.fb, u.cp, fonts, fc);
    var f := m.0;
    if f == Null then Shaping(st.runs, st.cur, st.curBytes, m.1)
    else if f != st.cur then
      Shaping(if st.curBytes != [] then st.runs + [Run(st.cur, st.curBytes)] else st.runs, f, u.bytes, m.1)
    else Shaping(st.runs, st.cur, st.curBytes + u.bytes, m.1)
  }

  /** The loop over the units `us`. */
  function ShapingUnits(st: Shaping, us: seq<Unit>, primary: Handle, fonts: FontOracle, fc: Fontconfig): Shaping
    decreases |us|
  {
    if us == [] then st else ShapingUnits(ShapingStep(st, us[0], primary, fonts, fc), us[1..], primary, fonts, fc)
  }

  /** The runs `shape_to_runs(s)` returns and the fallback state it leaves:
      the loop over the strict decoder's units, the final push, and the
      single run `{font, ""}` when nothing was pushed. */
  function Shaped(text: seq<byte>, primary: Handle, fb: Fallbacks, fonts: FontOracle, fc: Fontconfig): (seq<Run>, Fallbacks)
  {
    var st := ShapingUnits(Shaping([], Null, [], fb), UnitsStrict(text, 0), primary, fonts, fc);
    var runs := if st.curBytes != [] then st.runs + [Run(st.cur, st.curBytes)] else st.runs;
    (if runs == [] then [Run(primary, [])] else runs, st.fb)
  }

  /** The bytes of a list of runs, in order. */
  function RunBytes(runs: seq<Run>): seq<byte>
  {
    if runs == [] then [] else RunBytes(runs[..|runs| - 1]) + runs[|runs| - 1].bytes
  }

  /** The bytes of the units whose font is not null, the fallback state
      threaded through the matches as the loop does. */
  function KeptBytes(us: seq<Unit>, fb: Fallbacks, primary: Handle, fonts: FontOracle, fc: Fontconfig): seq<byte>
    decreases |us|
  {
    if us == [] then []
    else
      var m := MatchFont(primary, fb, us[0].cp, fonts, fc);
      (if m.0 == Null then [] else us[0].bytes) + KeptBytes(us[1..], m.1, primary, fonts, fc)
  }

  /** Neighbouring runs are in different fonts. */
  predicate FontsAlternate(runs: seq<Run>)
  {
    forall k :: 0 <= k < |runs| - 1 ==> runs[k].font != runs[k + 1].font
  }

  /** Every run has a font and at least one byte. */
  predicate RunsFilled(runs: seq<Run>)
  {
    forall k :: 0 <= k < |runs| ==> runs[k].font != Null && runs[k].bytes != []
  }

  /** The loop state: bytes are collected exactly under a font, the last
      pushed run is in another font than the one collecting, and the
      pushed runs are filled and alternate. */
  predicate ShapingInv(st: Shaping)
  {
    && (st.curBytes != [] ==> st.cur != Null)
    && (st.runs != [] ==> st.curBytes != [] && st.runs[|st.runs| - 1].font != st.cur)
    && FontsAlternate(st.runs)
    && RunsFilled(st.runs)
  }

  lemma RunBytesAppend(runs: seq<Run>, r: Run)
    ensures RunBytes(runs + [r]) == RunBytes(runs) + r.bytes
  {
    assert (runs + [r])[..|runs|] == runs;
  }

  lemma RunsAppend(runs: seq<Run>, r: Run)
    requires FontsAlternate(runs) && RunsFilled(runs)
    requires r.font != Null && r.bytes != []
    requires runs != [] ==> runs[|runs| - 1].font != r.font
    ensures FontsAlternate(runs + [r]) && RunsFilled(runs + [r])
  {
    var rs := runs + [r];
    forall k | 0 <= k < |rs|
      ensures rs[k].font != Null && rs[k].bytes != []
    {
      if k < |runs| {
        assert rs[k] == runs[k];
      }
    }
    forall k | 0 <= k < |rs| - 1
      ensures rs[k].font != rs[k + 1].font
    {
      assert rs[k] == runs[k];
      if k + 1 < |runs| {
        assert rs[k + 1] == runs[k + 1];
      }
    }
  }

  /** One step keeps the loop state. */
  lemma ShapingStepInv(st: Shaping, u: Unit, primary: Handle, fonts: FontOracle, fc: Fontconfig)
    requires ShapingInv(st) && u.bytes != []
    ensures ShapingInv(ShapingStep(st, u, primary, fonts, fc))
  {
    var m := MatchFont(primary, st.fb, u.cp, fonts, fc);
    var st' := ShapingStep(st, u, primary, fonts, fc);
    if m.0 == Null {
      assert st' == Shaping(st.runs, st.cur, st.curBytes, m.1);
    } else if m.0 != st.cur {
      if st.curBytes != [] {
        RunsAppend(st.runs, Run(st.cur, st.curBytes));
        assert st' == Shaping(st.runs + [Run(st.cur, st.curBytes)], m.0, u.bytes, m.1);
      } else {
        assert st' == Shaping([], m.0, u.bytes, m.1);
      }
    } else {
      assert st' == Shaping(st.runs, st.cur, st.curBytes + u.bytes, m.1);
    }
  }

  /** One step collects the unit's bytes exactly when its font is not
      null. */
  lemma ShapingStepBytes(st: Shaping, u: Unit, primary: Handle, fonts: FontOracle, fc: Fontconfig)
    ensures var st' := ShapingStep(st, u, primary, fonts, fc);
            RunBytes(st'.runs) + st'.curBytes
            == RunBytes(st.runs) + st.curBytes + (if MatchFont(primary, st.fb, u.cp, fonts, fc).0 == Null then [] else u.bytes)
  {
    var m := MatchFont(primary, st.fb, u.cp, fonts, fc);
    if m.0 != Null && m.0 != st.cur && st.curBytes != [] {
      RunBytesAppend(st.runs, Run(st.cur, st.curBytes));
    }
  }

  lemma {:induction false} ShapingUnitsInv(st: Shaping, us: seq<Unit>, primary: Handle, fonts: FontOracle, fc: Fontconfig)
    requires ShapingInv(st)
    requires forall k :: 0 <= k < |us| ==> us[k].bytes != []
    ensures ShapingInv(ShapingUnits(st, us, primary, fonts, fc))
    decreases |us|
  {
    if us != [] {
      ShapingStepInv(st, us[0], primary, fonts, fc);
      ShapingUnitsInv(ShapingStep(st, us[0], primary, fonts, fc), us[1..], primary, fonts, fc);
    }
  }

  lemma {:induction false} ShapingUnitsBytes(st: Shaping, us: seq<Unit>, primary: Handle, fonts: FontOracle, fc: Fontconfig)
    ensures var st' := ShapingUnits(st, us, primary, fonts, fc);
            RunBytes(st'.runs) + st'.curBytes == RunBytes(st.runs) + st.curBytes + KeptBytes(us, st.fb, primary, fonts, fc)
    decreases |us|
  {
    if us != [] {
      ShapingStepBytes(st, us[0], primary, fonts, fc);
      ShapingUnitsBytes(ShapingStep(st, us[0], primary, fonts, fc), us[1..], primary, fonts, fc);
    }
  }

  lemma {:induction false} ShapingUnitsCache(st: Shaping, us: seq<Unit>, primary: Handle, fonts: FontOracle, fc: Fontconfig)
    ensures Extends(ShapingUnits(st, us, primary, fonts, fc).fb, st.fb)
    ensures CachesFonts(st.fb) ==> CachesFonts(ShapingUnits(st, us, primary, fonts, fc).fb)
    decreases |us|
  {
    if us != [] {
      var st1 := ShapingStep(st, us[0], primary, fonts, fc);
      MatchFontCache(primary, st.fb, us[0].cp, fonts, fc);
      ShapingUnitsCache(st1, us[1..], primary, fonts, fc);
      ExtendsTrans(st.fb, st1.fb, ShapingUnits(st1, us[1..], primary, fonts, fc).fb);
    }
  }

  /** The fallback state `shape_to_runs` leaves: the cache only grows and
      keeps holding only opened fonts. */
  lemma ShapedFallbacks(text: seq<byte>, primary: Handle, fb: Fallbacks, fonts: FontOracle, fc: Fontconfig)
    ensures Extends(Shaped(text, primary, fb, fonts, fc).1, fb)
    ensures CachesFonts(fb) ==> CachesFonts(Shaped(text, primary, fb, fonts, fc).1)
  {
    ShapingUnitsCache(Shaping([], Null, [], fb), UnitsStrict(text, 0), primary, fonts, fc);
  }

  /** `shape_to_runs` never returns an empty vector: the empty text gives
      the single run `{font, ""}`; otherwise every run has a font and bytes
      and neighbouring runs are in different fonts. The bytes of the runs
      are the input without the code points whose font is null, and the
      fallback cache only grows and keeps holding only opened fonts. */
  lemma ShapedRuns(text: seq<byte>, primary: Handle, fb: Fallbacks, fonts: FontOracle, fc: Fontconfig)
    ensures var r := Shaped(text, primary, fb, fonts, fc);
            && |r.0| >= 1
            && (text == [] ==> r.0 == [Run(primary, [])])
            && FontsAlternate(r.0)
            && (r.0 == [Run(primary, [])] || RunsFilled(r.0))
            && RunBytes(r.0) == KeptBytes(UnitsStrict(text, 0), fb, primary, fonts, fc)
            && Extends(r.1, fb)
            && (CachesFonts(fb) ==> CachesFonts(r.1))
  {
    var us := UnitsStrict(text, 0);
    var start := Shaping([], Null, [], fb);
    ShapingUnitsInv(start, us, primary, fonts, fc);
    ShapingUnitsBytes(start, us, primary, fonts, fc);
    ShapedFallbacks(text, primary, fb, fonts, fc);
    var st := ShapingUnits(start, us, primary, fonts, fc);
    var runs := if st.curBytes != [] then st.runs + [Run(st.cur, st.curBytes)] else st.runs;
    if st.curBytes != [] {
      RunsAppend(st.runs, Run(st.cur, st.curBytes));
      RunBytesAppend(st.runs, Run(st.cur, st.curBytes));
    }
    assert FontsAlternate(runs) && RunsFilled(runs) && RunBytes(runs) == KeptBytes(us, fb, primary, fonts, fc);
    var r := Shaped(text, primary, fb, fonts, fc);
    assert r == (if runs == [] then [Run(primary, [])] else runs, st.fb);
    if runs == [] {
      assert RunBytes(r.0) == RunBytes([]) + [];
    }
  }

  /** Each unit whose font is not null on its own: a run of its bytes in
      the font `match_font_for_char` returns for it, the fallback state
      threaded through the matches as the loop does. */
  function MatchedPieces(us: seq<Unit>, fb: Fallbacks, primary: Handle, fonts: FontOracle, fc: Fontconfig): seq<Run>
    decreases |us|
  {
    if us == [] then []
    else
      var m := MatchFont(primary, fb, us[0].cp, fonts, fc);
      (if m.0 == Null then [] else [Run(m.0, us[0].bytes)]) + MatchedPieces(us[1..], m.1, primary, fonts, fc)
  }

  /** The runs pushed so far followed by the one being collected. */
  function Pending(st: Shaping): seq<Run>
  {
    if st.curBytes != [] then st.runs + [Run(st.cur, st.curBytes)] else st.runs
  }

  /** One step merges the unit's piece, if it has one, into the runs. */
  lemma ShapingStepMerges(st: Shaping, u: Unit, primary: Handle, fonts: FontOracle, fc: Fontconfig)
    requires ShapingInv(st) && u.bytes != []
    ensures var m := MatchFont(primary, st.fb, u.cp, fonts, fc);
            Pending(ShapingStep(st, u, primary, fonts, fc))
            == if m.0 == Null then Pending(st) else MergeInto(Pending(st), Run(m.0, u.bytes))
  {
    var m := MatchFont(primary, st.fb, u.cp, fonts, fc);
    var p := Run(m.0, u.bytes);
    var pend := Pending(st);
    var st' := ShapingStep(st, u, primary, fonts, fc);
    if m.0 != Null {
      assert !IsMarker(p);
      if st.curBytes == [] {
        assert st.runs == [] && pend == [];
        assert st'.runs == [] && st'.curBytes == u.bytes && st'.cur == m.0;
      } else {
        var last := Run(st.cur, st.curBytes);
        assert pend == st.runs + [last] && !IsMarker(last) && pend[..|pend| - 1] == st.runs;
        if m.0 != st.cur {
          assert st' == Shaping(pend, m.0, u.bytes, m.1);
        } else {
          assert st' == Shaping(st.runs, st.cur, st.curBytes + u.bytes, m.1);
        }
      }
    }
  }

  lemma {:induction false} ShapingUnitsMerge(st: Shaping, us: seq<Unit>, primary: Handle, fonts: FontOracle, fc: Fontconfig)
    requires ShapingInv(st)
    requires forall k :: 0 <= k < |us| ==> us[k].bytes != []
    ensures Pending(ShapingUnits(st, us, primary, fonts, fc))
            == MergeFrom(Pending(st), MatchedPieces(us, st.fb, primary, fonts, fc))
    decreases |us|
  {
    if us != [] {
      var m := MatchFont(primary, st.fb, us[0].cp, fonts, fc);
      var st' := ShapingStep(st, us[0], primary, fonts, fc);
      var rest := MatchedPieces(us[1..], m.1, primary, fonts, fc);
      ShapingStepMerges(st, us[0], primary, fonts, fc);
      ShapingStepInv(st, us[0], primary, fonts, fc);
      assert st'.fb == m.1;
      ShapingUnitsMerge(st', us[1..], primary, fonts, fc);
      var ps := MatchedPieces(us, st.fb, primary, fonts, fc);
      if m.0 != Null {
        assert ps == [Run(m.0, us[0].bytes)] + rest;
        assert ps[0] == Run(m.0, us[0].bytes) && ps[1..] == rest;
      } else {
        assert ps == rest;
      }
    }
  }

  /** `shape_to_runs` against a reference: each code point whose font is
      not null becomes a piece in the font `match_font_for_char` returns
      for it, and neighbouring pieces of one font are joined into one run;
      with no such code point the result is the single run `{font, ""}`.
      So every byte of a run belongs to a code point matched to the run's
      font. */
  lemma ShapedMerge(text: seq<byte>, primary: Handle, fb: Fallbacks, fonts: FontOracle, fc: Fontconfig)
    ensures var ps := MatchedPieces(UnitsStrict(text, 0), fb, primary, fonts, fc);
            Shaped(text, primary, fb, fonts, fc).0 == if ps == [] then [Run(primary, [])] else Merge(ps)
  {
    var us := UnitsStrict(text, 0);
    var start := Shaping([], Null, [], fb);
    ShapingUnitsMerge(start, us, primary, fonts, fc);
    MergeFromEmpty([], MatchedPieces(us, fb, primary, fonts, fc));
    assert Pending(start) == [];
  }

  /** With a primary font, no code point is skipped. */
  lemma {:induction false} KeptBytesAll(us: seq<Unit>, fb: Fallbacks, primary: Handle, fonts: FontOracle, fc: Fontconfig)
    requires primary != Null && CachesFonts(fb)
    ensures KeptBytes(us, fb, primary, fonts, fc) == Concat(us)
    decreases |us|
  {
    if us != [] {
      var m := MatchFont(primary, fb, us[0].cp, fonts, fc);
      MatchFontCache(primary, fb, us[0].cp, fonts, fc);
      MatchFontResult(primary, fb, us[0].cp, fonts, fc);
      KeptBytesAll(us[1..], m.1, primary, fonts, fc);
    }
  }

  /** With a primary font, the runs spell out the text exactly: no code
      point is dropped. */
  lemma ShapedSpellsText(text: seq<byte>, primary: Handle, fb: Fallbacks, fonts: FontOracle, fc: Fontconfig)
    requires primary != Null && CachesFonts(fb)
    ensures RunBytes(Shaped(text, primary, fb, fonts, fc).0) == text
  {
    ShapedRuns(text, primary, fb, fonts, fc);
    KeptBytesAll(UnitsStrict(text, 0), fb, primary, fonts, fc);
    StrictTiles(text, 0);
  }

  // ---------------------------------------------------------------------
  // Drawing passes
  // ---------------------------------------------------------------------

  /** The draws of one pass over `runs` with the pen starting at `x`:
      each run is drawn where the runs before it left the pen. */
  function RunPass(runs: seq<Run>, x: int, y: int, ink: Ink, advance: (Handle, seq<byte>) -> int): seq<GlyphDraw>
  {
    if runs == [] then []
    else
      var init := runs[..|runs| - 1];
      var last := runs[|runs| - 1];
      RunPass(init, x, y, ink, advance) + [GlyphDraw(ink, last.font, last.bytes, x + Advance(init, advance), y)]
  }

  /** A pass draws every run once, in order, in its own font, on the
      baseline `y`, run k at `x` plus the advances of the runs before it. */
  lemma {:induction false} RunPassAt(runs: seq<Run>, x: int, y: int, ink: Ink, advance: (Handle, seq<byte>) -> int)
    ensures |RunPass(runs, x, y, ink, advance)| == |runs|
    ensures forall k :: 0 <= k < |runs| ==>
              RunPass(runs, x, y, ink, advance)[k] == GlyphDraw(ink, runs[k].font, runs[k].bytes, x + Advance(runs[..k], advance), y)
  {
    if runs != [] {
      var init := runs[..|runs| - 1];
      RunPassAt(init, x, y, ink, advance);
      var ps := RunPass(runs, x, y, ink, advance);
      var pi := RunPass(init, x, y, ink, advance);
      assert ps == pi + [GlyphDraw(ink, runs[|init|].font, runs[|init|].bytes, x + Advance(init, advance), y)];
      forall k | 0 <= k < |runs|
        ensures ps[k] == GlyphDraw(ink, runs[k].font, runs[k].bytes, x + Advance(runs[..k], advance), y)
      {
        if k < |init| {
          assert ps[k] == pi[k];
          assert init[k] == runs[k] && init[..k] == runs[..k];
        } else {
          assert init == runs[..k];
        }
      }
    }
  }

  /** The offsets of the outline passes in row `ox` before `oy`: the
      pairs (ox, o) with -t <= o < oy, in increasing o, without (0, 0). */
  function RowUpTo(ox: int, oy: int, t: int): seq<(int, int)>
    decreases oy + t
  {
    if oy <= -t then [] else RowUpTo(ox, oy - 1, t) + (if ox == 0 && oy - 1 == 0 then [] else [(ox, oy - 1)])
  }

  /** The complete rows -t <= o < ox, in the order of the nested loops of
      `draw_runs_outline`. */
  function RowsUpTo(ox: int, t: int): seq<(int, int)>
    decreases ox + t
  {
    if ox <= -t then [] else RowsUpTo(ox - 1, t) + RowUpTo(ox - 1, t + 1, t)
  }

  /** All outline offsets for thickness `t`. */
  function SquareOffsets(t: int): seq<(int, int)>
  {
    RowsUpTo(t + 1, t)
  }

  /** The outline draws: one pass per offset, each with the pen restarted
      at the shifted anchor. */
  function OutlineDraws(runs: seq<Run>, x: int, y: int, offs: seq<(int, int)>, advance: (Handle, seq<byte>) -> int): seq<GlyphDraw>
  {
    if offs == [] then []
    else
      var o := offs[|offs| - 1];
      OutlineDraws(runs, x, y, offs[..|offs| - 1], advance) + RunPass(runs, x + o.0, y + o.1, Outline, advance)
  }

  lemma {:induction false} OutlineDrawsAppend(runs: seq<Run>, x: int, y: int, a: seq<(int, int)>, b: seq<(int, int)>,
                                              advance: (Handle, seq<byte>) -> int)
    ensures OutlineDraws(runs, x, y, a + b, advance) == OutlineDraws(runs, x, y, a, advance) + OutlineDraws(runs, x, y, b, advance)
  {
    if b == [] {
      assert a + b == a;
    } else {
      var b' := b[..|b| - 1];
      var o := b[|b| - 1];
      var pass := RunPass(runs, x + o.0, y + o.1, Outline, advance);
      assert (a + b)[..|a + b| - 1] == a + b' && (a + b)[|a + b| - 1] == o;
      assert OutlineDraws(runs, x, y, a + b, advance) == OutlineDraws(runs, x, y, a + b', advance) + pass;
      assert OutlineDraws(runs, x, y, b, advance) == OutlineDraws(runs, x, y, b', advance) + pass;
      OutlineDrawsAppend(runs, x, y, a, b', advance);
    }
  }

  lemma {:induction false} RowUpToMembers(ox: int, oy: int, t: int)
    ensures forall o :: o in RowUpTo(ox, oy, t) <==> o.0 == ox && -t <= o.1 < oy && o != (0, 0)
    decreases oy + t
  {
    if oy > -t {
      RowUpToMembers(ox, oy - 1, t);
    }
  }

  lemma {:induction false} RowsUpToMembers(ox: int, t: int)
    ensures forall o :: o in RowsUpTo(ox, t) <==> -t <= o.0 < ox && -t <= o.1 <= t && o != (0, 0)
    decreases ox + t
  {
    if ox > -t {
      RowUpToMembers(ox - 1, t + 1, t);
      RowsUpToMembers(ox - 1, t);
    }
  }

  lemma {:induction false} RowUpToCount(ox: int, oy: int, t: int)
    requires -t <= oy <= t + 1
    ensures |RowUpTo(ox, oy, t)| == (oy + t) - (if ox == 0 && oy > 0 then 1 else 0)
    decreases oy + t
  {
    if oy > -t {
      RowUpToCount(ox, oy - 1, t);
    }
  }

  lemma {:induction false} RowsUpToCount(ox: int, t: int)
    requires t >= 0 && -t <= ox <= t + 1
    ensures |RowsUpTo(ox, t)| == (ox + t) * (2 * t + 1) - (if ox > 0 then 1 else 0)
    decreases ox + t
  {
    if ox > -t {
      RowUpToCount(ox - 1, t + 1, t);
      RowsUpToCount(ox - 1, t);
      assert (ox + t) * (2 * t + 1) == (ox - 1 + t) * (2 * t + 1) + (2 * t + 1);
    }
  }

  /** `draw_runs_outline` with thickness `t` makes one pass for every
      offset of the square [-t, t] x [-t, t] except (0, 0), each once
      (see `SquareOffsetsCount`); a negative thickness makes none. */
  lemma SquareOffsetsMembers(t: int)
    ensures forall o :: o in SquareOffsets(t) <==> -t <= o.0 <= t && -t <= o.1 <= t && o != (0, 0)
  {
    RowsUpToMembers(t + 1, t);
  }

  /** (2t+1)^2 - 1 passes for a thickness `t >= 0`, none for a negative
      one. */
  lemma SquareOffsetsCount(t: int)
    ensures |SquareOffsets(t)| == if t >= 0 then (2 * t + 1) * (2 * t + 1) - 1 else 0
  {
    if t >= 0 {
      RowsUpToCount(t + 1, t);
    }
  }

  /** A pass draws every run once; the outline draws one pass per offset. */
  lemma {:induction false} OutlineDrawsCount(runs: seq<Run>, x: int, y: int, offs: seq<(int, int)>, advance: (Handle, seq<byte>) -> int)
    ensures |OutlineDraws(runs, x, y, offs, advance)| == |offs| * |runs|
  {
    if offs != [] {
      var o := offs[|offs| - 1];
      RunPassAt(runs, x + o.0, y + o.1, Outline, advance);
      OutlineDrawsCount(runs, x, y, offs[..|offs| - 1], advance);
      assert |offs| * |runs| == (|offs| - 1) * |runs| + |runs|;
    }
  }

  /** `draw_runs(runs, x, y_baseline, fg)`: one pass over the runs. */
  method DrawRuns(runs: seq<Run>, x: int, y: int, ink: Ink, advance: (Handle, seq<byte>) -> int) returns (draws: seq<GlyphDraw>)
    ensures draws == RunPass(runs, x, y, ink, advance)
  {
    var penX := x;
    draws := [];
    var k := 0;
    while k < |runs|
      invariant 0 <= k <= |runs|
      invariant penX == x + Advance(runs[..k], advance)
      invariant draws == RunPass(runs[..k], x, y, ink, advance)
    {
      assert runs[..k + 1][..k] == runs[..k];
      draws := draws + [GlyphDraw(ink, runs[k].font, runs[k].bytes, penX, y)];
      penX := penX + advance(runs[k].font, runs[k].bytes);
      k := k + 1;
    }
    assert runs[..k] == runs;
  }

  /** One more offset of a row: the pass for (ox, oy) follows, unless
      the offset is (0, 0). */
  lemma RowStep(runs: seq<Run>, x: int, y: int, ox: int, oy: int, t: int, advance: (Handle, seq<byte>) -> int)
    requires oy >= -t
    ensures OutlineDraws(runs, x, y, RowUpTo(ox, oy + 1, t), advance)
            == OutlineDraws(runs, x, y, RowUpTo(ox, oy, t), advance)
               + (if ox == 0 && oy == 0 then [] else RunPass(runs, x + ox, y + oy, Outline, advance))
  {
    var done := RowUpTo(ox, oy, t);
    if ox == 0 && oy == 0 {
      assert RowUpTo(ox, oy + 1, t) == done;
    } else {
      assert RowUpTo(ox, oy + 1, t) == done + [(ox, oy)];
      assert (done + [(ox, oy)])[..|done|] == done;
    }
  }

  /** Where the inner loop stops, the row is complete. */
  lemma RowEnd(ox: int, oy: int, t: int)
    requires -t <= oy <= (if t >= 0 then t + 1 else -t) && oy > t
    ensures RowUpTo(ox, oy, t) == RowUpTo(ox, t + 1, t)
  {
  }

  /** Where the outer loop stops, every row is complete. */
  lemma RowsEnd(ox: int, t: int)
    requires -t <= ox <= (if t >= 0 then t + 1 else -t) && ox > t
    ensures RowsUpTo(ox, t) == SquareOffsets(t)
  {
  }

  /** One more row: the passes of row `ox` follow. */
  lemma RowsStep(runs: seq<Run>, x: int, y: int, ox: int, t: int, advance: (Handle, seq<byte>) -> int)
    requires ox >= -t
    ensures OutlineDraws(runs, x, y, RowsUpTo(ox + 1, t), advance)
            == OutlineDraws(runs, x, y, RowsUpTo(ox, t), advance) + OutlineDraws(runs, x, y, RowUpTo(ox, t + 1, t), advance)
  {
    OutlineDrawsAppend(runs, x, y, RowsUpTo(ox, t), RowUpTo(ox, t + 1, t), advance);
  }

  /** The inner loop of `draw_runs_outline` for one `ox`: oy from -t to t,
      skipping (0, 0), a pass with the pen restarted at `x + ox` on the
      baseline `y + oy`. */
  method OutlineRow(runs: seq<Run>, x: int, y: int, ox: int, t: int, advance: (Handle, seq<byte>) -> int) returns (draws: seq<GlyphDraw>)
    ensures draws == OutlineDraws(runs, x, y, RowUpTo(ox, t + 1, t), advance)
  {
    draws := [];
    var oy := -t;
    while oy <= t
      invariant -t <= oy <= (if t >= 0 then t + 1 else -t)
      invariant draws == OutlineDraws(runs, x, y, RowUpTo(ox, oy, t), advance)
    {
      RowStep(runs, x, y, ox, oy, t, advance);
      if ox == 0 && oy == 0 {
        oy := oy + 1;
        continue;
      }
      var pass := DrawRuns(runs, x + ox, y + oy, Outline, advance);
      draws := draws + pass;
      oy := oy + 1;
    }
    RowEnd(ox, oy, t);
  }

  /** `draw_runs_outline(runs, x, y_baseline, outline_color, t)`: for ox
      from -t to t, the row of passes for that ox. */
  method DrawRunsOutline(runs: seq<Run>, x: int, y: int, t: int, advance: (Handle, seq<byte>) -> int) returns (draws: seq<GlyphDraw>)
    ensures draws == OutlineDraws(runs, x, y, SquareOffsets(t), advance)
  {
    draws := [];
    var ox := -t;
    while ox <= t
      invariant -t <= ox <= (if t >= 0 then t + 1 else -t)
      invariant draws == OutlineDraws(runs, x, y, RowsUpTo(ox, t), advance)
    {
      RowsStep(runs, x, y, ox, t, advance);
      var row := OutlineRow(runs, x, y, ox, t, advance);
      draws := draws + row;
      ox := ox + 1;
    }
    RowsEnd(ox, t);
  }

  // ---------------------------------------------------------------------
  // Alignment and the background box
  // ---------------------------------------------------------------------

  /** The box of `drawStringBackground` as written: the text's width and
      the font height, padded by twice `padding`, with its left edge at
      `x` (left), half its width left of `x` (centre) or its whole width
      left of `x` (right), and its top at `y`. */
  function BoxAsWritten(x: int, y: int, w: int, fontHeight: int, padding: int, align: Align): Rect
  {
    var rw := w + 2 * padding;
    var rx := match align
      case Left => x
      case Center => x - CDiv(rw, 2)
      case Right => x - rw;
    Rect(rx, y, rw, fontHeight + 2 * padding)
  }

  /** As written, a left-aligned text starts at the box's left edge and a
      right-aligned text ends at its right edge: the whole horizontal
      padding, twice `padding`, lands on the other side. */
  lemma BoxAsWrittenIsLopsided(x: int, y: int, w: int, fontHeight: int, padding: int)
    requires padding > 0
    ensures var b := BoxAsWritten(x, y, w, fontHeight, padding, Left);
            b.x == AlignX(x, w, Left) && b.x + b.w == AlignX(x, w, Left) + w + 2 * padding
    ensures var b := BoxAsWritten(x, y, w, fontHeight, padding, Right);
            b.x + b.w == AlignX(x, w, Right) + w && b.x == AlignX(x, w, Right) - 2 * padding
  {
  }

  /** The box of `drawStringBackground` with the padding on every side:
      `padding` pixels left of the aligned text, to the right of its end,
      above it and below the font height. */
  function Box(x: int, y: int, w: int, fontHeight: int, padding: int, align: Align): (b: Rect)
    ensures b.x + padding == AlignX(x, w, align) && b.x + b.w - padding == AlignX(x, w, align) + w
    ensures b.y == y && b.y + b.h - padding == y + padding + fontHeight
  {
    Rect(AlignX(x, w, align) - padding, y, w + 2 * padding, fontHeight + 2 * padding)
  }

  /** For centred text the box as written already has the padding on
      every side. */
  lemma CenteredBoxAsWrittenIsPadded(x: int, y: int, w: int, fontHeight: int, padding: int)
    requires w >= 0 && padding >= 0
    ensures BoxAsWritten(x, y, w, fontHeight, padding, Center) == Box(x, y, w, fontHeight, padding, Center)
  {
    assert CDiv(w + 2 * padding, 2) == CDiv(w, 2) + padding;
  }

  /** What the three drawing functions compute before drawing: the runs
      of `shape_to_runs`, then the width `measure_text_width` finds by
      shaping again from the cache the first call left, and the fallback
      state after both. */
  function ShapedAndMeasured(text: seq<byte>, primary: Handle, fb: Fallbacks, fonts: FontOracle, fc: Fontconfig): (seq<Run>, int, Fallbacks)
  {
    var first := Shaped(text, primary, fb, fonts, fc);
    var second := Shaped(text, primary, first.1, fonts, fc);
    (first.0, Advance(second.0, fonts.advance), second.1)
  }

  // ---------------------------------------------------------------------
  // The renderer state
  // ---------------------------------------------------------------------

  /** The globals of overlay.cpp that text drawing reads and writes. The
      primary `font` and `font_height` are set once at start-up; the
      fallback cache grows as code points are matched; `canvas` is what
      has been drawn into the back buffer. */
  class Renderer {
    const fonts: FontOracle
    const fc: Fontconfig
    const font: Handle
    const fontHeight: int
    var fallbackCache: map<string, Handle>
    var nextFont: nat
    var canvas: seq<Paint>

    constructor(fonts: FontOracle, fc: Fontconfig, font: Handle, fontHeight: int)
      ensures this.fonts == fonts && this.fc == fc && this.font == font && this.fontHeight == fontHeight
      ensures fallbackCache == map[] && canvas == []
    {
      this.fonts := fonts;
      this.fc := fc;
      this.font := font;
      this.fontHeight := fontHeight;
      fallbackCache := map[];
      nextFont := if font.Font? then font.id + 1 else 0;
      canvas := [];
    }

    function FB(): Fallbacks
      reads this`fallbackCache, this`nextFont
    {
      Fallbacks(fallbackCache, nextFont)
    }

    /** The baseline for text whose top is at `y`: the primary font's
        ascent below `y`, or three quarters of the font height without a
        primary font. */
    function Baseline(y: int): int
    {
      y + (if font.Font? then fonts.ascent(font.id) else fontHeight - CDiv(fontHeight, 4))
    }

    /** `match_font_for_char(ch)`. */
    method MatchFontForChar(ch: int) returns (f: Handle)
      modifies this`fallbackCache, this`nextFont
      ensures (f, FB()) == MatchFont(font, old(FB()), ch, fonts, fc)
      ensures CachesFonts(old(FB())) ==> CachesFonts(FB())
    {
      MatchFontCache(font, FB(), ch, fonts, fc);
      if font.Font? && fonts.covers(font.id, ch) {
        return font;
      }
      var m := fc.matchFor(ch);
      if m.NoMatch? {
        return font;
      }
      if m.Unnamed? {
        if fc.opensUnnamed(ch) {
          f := Font(nextFont);
          nextFont := nextFont + 1;
          return f;
        }
        return font;
      }
      var key := m.path;
      if key in fallbackCache {
        return fallbackCache[key];
      }
      if !fc.opensFile(key) {
        return font;
      }
      f := Font(nextFont);
      nextFont := nextFont + 1;
      fallbackCache := fallbackCache[key := f];
    }

    /** `shape_to_runs(s)`. */
    method ShapeToRuns(text: seq<byte>) returns (runs: seq<Run>)
      modifies this`fallbackCache, this`nextFont
      ensures (runs, FB()) == Shaped(text, font, old(FB()), fonts, fc)
      ensures CachesFonts(old(FB())) ==> CachesFonts(FB())
    {
      ghost var fb0 := FB();
      ShapedFallbacks(text, font, fb0, fonts, fc);
      runs := [];
      var i := 0;
      var cur := Null;
      var curBytes: seq<byte> := [];
      while i < |text|
        invariant 0 <= i <= |text|
        invariant ShapingUnits(Shaping([], Null, [], fb0), UnitsStrict(text, 0), font, fonts, fc)
                  == ShapingUnits(Shaping(runs, cur, curBytes, FB()), UnitsStrict(text, i), font, fonts, fc)
        decreases |text| - i
      {
        // utf8_next returns 0 only when i >= len
        var step := NextStrict(text, i).value;
        ghost var u := Unit(text[i..step.next], step.cp);
        ghost var before := Shaping(runs, cur, curBytes, FB());
        assert UnitsStrict(text, i) == [u] + UnitsStrict(text, step.next);
        assert ([u] + UnitsStrict(text, step.next))[1..] == UnitsStrict(text, step.next);
        var f := MatchFontForChar(step.cp);
        if f == Null {
          i := step.next;
          assert Shaping(runs, cur, curBytes, FB()) == ShapingStep(before, u, font, fonts, fc);
          continue;
        }
        if f != cur {
          if curBytes != [] {
            runs := runs + [Run(cur, curBytes)];
          }
          cur := f;
          curBytes := [];
        }
        curBytes := curBytes + text[i..step.next];
        i := step.next;
        assert Shaping(runs, cur, curBytes, FB()) == ShapingStep(before, u, font, fonts, fc);
      }
      if curBytes != [] {
        runs := runs + [Run(cur, curBytes)];
      }
      if runs == [] {
        runs := [Run(font, [])];
      }
    }

    /** `measure_text_width(s)` (and `getTextWidth`): shape, then sum the
        advances of the runs. */
    method MeasureTextWidth(text: seq<byte>) returns (total: int)
      modifies this`fallbackCache, this`nextFont
      ensures var r := Shaped(text, font, old(FB()), fonts, fc);
              total == Advance(r.0, fonts.advance) && FB() == r.1
      ensures CachesFonts(old(FB())) ==> CachesFonts(FB())
    {
      var runs := ShapeToRuns(text);
      total := 0;
      var k := 0;
      while k < |runs|
        invariant 0 <= k <= |runs|
        invariant total == Advance(runs[..k], fonts.advance)
      {
        assert runs[..k + 1][..k] == runs[..k];
        total := total + fonts.advance(runs[k].font, runs[k].bytes);
        k := k + 1;
      }
      assert runs[..k] == runs;
    }

    /** Shape `text`, then measure it, as the three drawing functions do. */
    method ShapeAndMeasure(text: seq<byte>) returns (runs: seq<Run>, w: int)
      modifies this`fallbackCache, this`nextFont
      ensures (runs, w, FB()) == ShapedAndMeasured(text, font, old(FB()), fonts, fc)
      ensures CachesFonts(old(FB())) ==> CachesFonts(FB())
    {
      runs := ShapeToRuns(text);
      w := MeasureTextWidth(text);
    }

    /** `drawString(text, x, y, fg, align)`: the runs in one pass at the
        aligned x on the baseline below `y`. */
    method DrawString(text: seq<byte>, x: int, y: int, align: int) returns (ghost runs: seq<Run>, ghost w: int)
      modifies this`fallbackCache, this`nextFont, this`canvas
      ensures (runs, w, FB()) == ShapedAndMeasured(text, font, old(FB()), fonts, fc)
      ensures CachesFonts(old(FB())) ==> CachesFonts(FB())
      ensures canvas == old(canvas) + Glyphs(RunPass(runs, AlignX(x, w, AlignOf(align)), Baseline(y), Fill, fonts.advance))
    {
      var rs, tw := ShapeAndMeasure(text);
      runs, w := rs, tw;
      var textX := TextX(x, tw, align);
      var draws := DrawRuns(rs, textX, Baseline(y), Fill, fonts.advance);
      canvas := canvas + Glyphs(draws);
    }

    /** `drawStringBackground(text, x, y, fg, bg, align, padding)`: the box
        behind the text, then the runs one `padding` lower than in
        `drawString`. The box is the one padded on every side. */
    method DrawStringBackground(text: seq<byte>, x: int, y: int, align: int, padding: int) returns (ghost runs: seq<Run>, ghost w: int)
      modifies this`fallbackCache, this`nextFont, this`canvas
      ensures (runs, w, FB()) == ShapedAndMeasured(text, font, old(FB()), fonts, fc)
      ensures CachesFonts(old(FB())) ==> CachesFonts(FB())
      ensures canvas == old(canvas) + [FillRect(Box(x, y, w, fontHeight, padding, AlignOf(align)))]
                        + Glyphs(RunPass(runs, AlignX(x, w, AlignOf(align)), Baseline(y) + padding, Fill, fonts.advance))
    {
      var rs, tw := ShapeAndMeasure(text);
      runs, w := rs, tw;
      var textX := TextX(x, tw, align);
      var box := Rect(textX - padding, y, tw + 2 * padding, fontHeight + 2 * padding);
      assert box == Box(x, y, tw, fontHeight, padding, AlignOf(align));
      var draws := DrawRuns(rs, textX, Baseline(y) + padding, Fill, fonts.advance);
      canvas := canvas + [FillRect(box)] + Glyphs(draws);
    }

    /** `drawStringOutline(text, x, y, fg, outline_color, align, t)`: the
        outline passes, then the fill pass. */
    method DrawStringOutline(text: seq<byte>, x: int, y: int, align: int, t: int) returns (ghost runs: seq<Run>, ghost w: int)
      modifies this`fallbackCache, this`nextFont, this`canvas
      ensures (runs, w, FB()) == ShapedAndMeasured(text, font, old(FB()), fonts, fc)
      ensures CachesFonts(old(FB())) ==> CachesFonts(FB())
      ensures var tx := AlignX(x, w, AlignOf(align));
              canvas == old(canvas) + Glyphs(OutlineDraws(runs, tx, Baseline(y), SquareOffsets(t), fonts.advance)
                                             + RunPass(runs, tx, Baseline(y), Fill, fonts.advance))
    {
      var rs, tw := ShapeAndMeasure(text);
      runs, w := rs, tw;
      var textX := TextX(x, tw, align);
      var halo := DrawRunsOutline(rs, textX, Baseline(y), t, fonts.advance);
      var fill := DrawRuns(rs, textX, Baseline(y), Fill, fonts.advance);
      canvas := canvas + Glyphs(halo + fill);
    }
  }
}
