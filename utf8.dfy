/** The two UTF-8 decoders of the repository. Both read the lead byte with
    the bit layout of section 3 of RFC 3629 (0xxxxxxx, 110xxxxx, 1110xxxx,
    11110xxx); neither rejects overlong forms, surrogates or values above
    U+10FFFF, so neither is a conforming RFC 3629 decoder. */
module Utf8 {
  import opened Common

  const REPLACEMENT: int := 0xFFFD
  const LINE_FEED: int := 0x0A

  /** The length a lead byte announces: 1 for 0xxxxxxx, 2 for 110xxxxx,
      3 for 1110xxxx, 4 for 11110xxx and 0 for a byte that cannot start a
      sequence (a continuation byte 10xxxxxx or 11111xxx). */
  function LeadLength(c: byte): (n: nat)
    ensures n <= 4
  {
    if c < 0x80 then 1
    else if c / 32 == 6 then 2
    else if c / 16 == 0xE then 3
    else if c / 8 == 0x1E then 4
    else 0
  }

  /** A continuation byte 10xxxxxx. */
  predicate IsContinuation(c: byte)
  {
    c / 64 == 2
  }

  /** The code point carried by `n` bytes starting at `s[i]`, assembling the
      payload bits most significant first. For three and four bytes,
      draw/draw_x11.cpp reads the continuation bytes with several `s[i++]`
      in one unsequenced expression, so C++ fixes no order between them;
      this is the left-to-right reading. The number of bytes consumed does
      not depend on that order, only the value does. */
  function Assemble(s: seq<byte>, i: nat, n: nat): int
    requires 2 <= n <= 4 && i + n <= |s|
  {
    if n == 2 then (s[i] as int % 32) * 64 + s[i + 1] as int % 64
    else if n == 3 then (s[i] as int % 16) * 4096 + (s[i + 1] as int % 64) * 64 + s[i + 2] as int % 64
    else (s[i] as int % 8) * 262144 + (s[i + 1] as int % 64) * 4096
         + (s[i + 2] as int % 64) * 64 + s[i + 3] as int % 64
  }

  /** One decoded code point: where the decoder resumes and what it read. */
  datatype Step = Step(next: nat, cp: int)

  // ---------------------------------------------------------------------
  // draw/draw_x11.cpp `utf8_next`: lenient, advances `i` by reference.
  // ---------------------------------------------------------------------

  /** `utf8_next(s, len, i, out)` of draw/draw_x11.cpp. `None` is the
      `false` return (nothing left to read); `Some(Step(i', cp))` is `true`
      with `i` advanced to `i'` and `out == cp`. The lead byte decides the
      length; continuation bytes are not checked, and a lead byte whose form
      does not fit in the remaining input yields U+FFFD and one byte. */
  function NextLenient(s: seq<byte>, i: nat): (r: Option<Step>)
    ensures r.None? <==> i >= |s|
    ensures r.Some? ==> i + 1 <= r.value.next <= i + 4 && r.value.next <= |s|
    ensures r.Some? ==>
      var n := LeadLength(s[i]);
      r.value.next - i == (if n >= 2 && i + n <= |s| then n else 1)
    ensures r.Some? && s[i] < 0x80 ==> r.value.cp == s[i] as int
    ensures r.Some? && s[i] >= 0x80 && r.value.next == i + 1 ==> r.value.cp == REPLACEMENT
    ensures r.Some? && r.value.next > i + 1 ==> r.value.cp == Assemble(s, i, r.value.next - i)
  {
    if i >= |s| then None
    else
      var c := s[i];
      if c < 0x80 then Some(Step(i + 1, c as int))
      else if c / 32 == 6 && i + 1 < |s| then Some(Step(i + 2, Assemble(s, i, 2)))
      else if c / 16 == 0xE && i + 2 < |s| then Some(Step(i + 3, Assemble(s, i, 3)))
      else if c / 8 == 0x1E && i + 3 < |s| then Some(Step(i + 4, Assemble(s, i, 4)))
      else Some(Step(i + 1, REPLACEMENT))
  }

  // ---------------------------------------------------------------------
  // overlay.cpp `utf8_next`: strict, takes `i` by value, returns a count.
  // ---------------------------------------------------------------------

  /** A complete 2-, 3- or 4-byte form at `s[i]` whose continuation bytes
      are all 10xxxxxx. */
  predicate StrictFormAt(s: seq<byte>, i: nat)
    requires i < |s|
  {
    var n := LeadLength(s[i]);
    n >= 2 && i + n <= |s| && forall k :: i < k < i + n ==> IsContinuation(s[k])
  }

  /** `utf8_next(s, len, i, out)` of overlay.cpp. `None` is the `0` return;
      `Some(Step(i + n, cp))` is the count `n` with `out == cp`. */
  function NextStrict(s: seq<byte>, i: nat): (r: Option<Step>)
    ensures r.None? <==> i >= |s|
    ensures r.Some? ==> r.value.next <= |s|
    ensures r.Some? ==>
      r.value.next - i == (if StrictFormAt(s, i) then LeadLength(s[i]) else 1)
    ensures r.Some? && s[i] < 0x80 ==> r.value.cp == s[i] as int
    ensures r.Some? && s[i] >= 0x80 && r.value.next == i + 1 ==> r.value.cp == REPLACEMENT
    ensures r.Some? && r.value.next > i + 1 ==> r.value.cp == Assemble(s, i, r.value.next - i)
  {
    if i >= |s| then None
    else
      var c := s[i];
      if c < 0x80 then Some(Step(i + 1, c as int))
      else if c / 32 == 6 && i + 1 < |s| then
        (if IsContinuation(s[i + 1]) then Some(Step(i + 2, Assemble(s, i, 2)))
         else Some(Step(i + 1, REPLACEMENT)))
      else if c / 16 == 0xE && i + 2 < |s| then
        (if IsContinuation(s[i + 1]) && IsContinuation(s[i + 2]) then Some(Step(i + 3, Assemble(s, i, 3)))
         else Some(Step(i + 1, REPLACEMENT)))
      else if c / 8 == 0x1E && i + 3 < |s| then
        (if IsContinuation(s[i + 1]) && IsContinuation(s[i + 2]) && IsContinuation(s[i + 3])
         then Some(Step(i + 4, Assemble(s, i, 4)))
         else Some(Step(i + 1, REPLACEMENT)))
      else Some(Step(i + 1, REPLACEMENT))
  }

  /** The value a decoded form can carry is bounded by its length: below
      0x80 for one byte, at most 0x7FF for two, 0xFFFF for three and
      0x1FFFFF for four. Holds for both decoders, which share `Assemble`. */
  lemma AssembleBounds(s: seq<byte>, i: nat, n: nat)
    requires 2 <= n <= 4 && i + n <= |s|
    ensures 0 <= Assemble(s, i, n)
    ensures n == 2 ==> Assemble(s, i, n) <= 0x7FF
    ensures n == 3 ==> Assemble(s, i, n) <= 0xFFFF
    ensures n == 4 ==> Assemble(s, i, n) <= 0x1FFFFF
  {
  }

  /** Wherever the strict decoder accepts a form, the lenient one reads the
      same code point and the same length; they differ only where a
      continuation byte is malformed. */
  lemma StrictAgreesWithLenient(s: seq<byte>, i: nat)
    requires i < |s| && (s[i] < 0x80 || StrictFormAt(s, i))
    ensures NextStrict(s, i) == NextLenient(s, i)
  {
  }

  // ---------------------------------------------------------------------
  // Reference encoder (RFC 3629 bit layout) for the round trip.
  // ---------------------------------------------------------------------

  /** Encodes a value below 0x200000 in the shortest form of the RFC 3629
      bit layout (surrogates are not excluded, as neither decoder does). */
  function Encode(cp: int): (e: seq<byte>)
    requires 0 <= cp < 0x200000
    ensures 1 <= |e| <= 4
  {
    if cp < 0x80 then [cp as byte]
    else if cp < 0x800 then [(0xC0 + cp / 64) as byte, (0x80 + cp % 64) as byte]
    else if cp < 0x10000 then
      [(0xE0 + cp / 4096) as byte, (0x80 + (cp / 64) % 64) as byte, (0x80 + cp % 64) as byte]
    else
      [(0xF0 + cp / 262144) as byte, (0x80 + (cp / 4096) % 64) as byte,
       (0x80 + (cp / 64) % 64) as byte, (0x80 + cp % 64) as byte]
  }

  /** Decoding an encoded value with the strict decoder gives it back and
      consumes exactly the encoding, whatever bytes follow. */
  lemma StrictDecodesEncode(cp: int, rest: seq<byte>)
    requires 0 <= cp < 0x200000
    ensures NextStrict(Encode(cp) + rest, 0) == Some(Step(|Encode(cp)|, cp))
  {
    if cp < 0x80 {
      assert (Encode(cp) + rest)[0] == cp as byte;
    } else if cp < 0x800 {
      StrictDecodesTwo(cp, rest);
    } else if cp < 0x10000 {
      StrictDecodesThree(cp, rest);
    } else {
      StrictDecodesFour(cp, rest);
    }
  }

  lemma StrictDecodesTwo(cp: int, rest: seq<byte>)
    requires 0x80 <= cp < 0x800
    ensures NextStrict(Encode(cp) + rest, 0) == Some(Step(2, cp))
  {
    var s := Encode(cp) + rest;
    assert s[0] == (0xC0 + cp / 64) as byte && s[1] == (0x80 + cp % 64) as byte;
    assert s[0] as int % 32 == cp / 64 && s[1] as int % 64 == cp % 64;
  }

  lemma StrictDecodesThree(cp: int, rest: seq<byte>)
    requires 0x800 <= cp < 0x10000
    ensures NextStrict(Encode(cp) + rest, 0) == Some(Step(3, cp))
  {
    var s := Encode(cp) + rest;
    assert s[0] == (0xE0 + cp / 4096) as byte;
    assert s[1] == (0x80 + (cp / 64) % 64) as byte && s[2] == (0x80 + cp % 64) as byte;
    assert s[0] as int % 16 == cp / 4096;
    assert s[1] as int % 64 == (cp / 64) % 64 && s[2] as int % 64 == cp % 64;
    assert (cp / 4096) * 4096 + ((cp / 64) % 64) * 64 + cp % 64 == cp;
  }

  lemma StrictDecodesFour(cp: int, rest: seq<byte>)
    requires 0x10000 <= cp < 0x200000
    ensures NextStrict(Encode(cp) + rest, 0) == Some(Step(4, cp))
  {
    var s := Encode(cp) + rest;
    assert s[0] == (0xF0 + cp / 262144) as byte && s[1] == (0x80 + (cp / 4096) % 64) as byte;
    assert s[2] == (0x80 + (cp / 64) % 64) as byte && s[3] == (0x80 + cp % 64) as byte;
    assert s[0] as int % 8 == cp / 262144;
    assert s[1] as int % 64 == (cp / 4096) % 64;
    assert s[2] as int % 64 == (cp / 64) % 64 && s[3] as int % 64 == cp % 64;
    SixBitGroups(cp);
  }

  /** A value is its four 6-bit groups (the top one up to 3 bits wide). */
  lemma SixBitGroups(cp: int)
    requires 0 <= cp
    ensures (cp / 262144) * 262144 + ((cp / 4096) % 64) * 4096 + ((cp / 64) % 64) * 64 + cp % 64 == cp
  {
    var q1 := cp / 64;
    var q2 := q1 / 64;
    assert cp == q1 * 64 + cp % 64;
    assert q1 == q2 * 64 + q1 % 64;
    assert q2 == cp / 4096;
    assert q2 == (q2 / 64) * 64 + q2 % 64;
    assert q2 / 64 == cp / 262144;
  }

  /** The same round trip holds for the lenient decoder, because an
      encoding is always a strictly well-formed form. */
  lemma {:induction false} LenientDecodesEncode(cp: int, rest: seq<byte>)
    requires 0 <= cp < 0x200000
    ensures NextLenient(Encode(cp) + rest, 0) == Some(Step(|Encode(cp)|, cp))
  {
    StrictDecodesEncode(cp, rest);
    var s := Encode(cp) + rest;
    assert s[0] < 0x80 || StrictFormAt(s, 0);
    StrictAgreesWithLenient(s, 0);
  }

  // ---------------------------------------------------------------------
  // Segmentation: the sequence of code points the decoding loops visit.
  // ---------------------------------------------------------------------

  /** One decoded code point together with the bytes it was read from. */
  datatype Unit = Unit(bytes: seq<byte>, cp: int)

  /** The bytes of a list of units, in order. */
  function Concat(units: seq<Unit>): seq<byte>
  {
    if units == [] then [] else units[0].bytes + Concat(units[1..])
  }

  /** The units a `while (i < len)` loop over the lenient decoder visits
      from position `i`. */
  function UnitsLenient(s: seq<byte>, i: nat): (us: seq<Unit>)
    requires i <= |s|
    ensures forall k :: 0 <= k < |us| ==> 1 <= |us[k].bytes| <= 4
    decreases |s| - i
  {
    if i >= |s| then []
    else
      var st := NextLenient(s, i).value;
      [Unit(s[i..st.next], st.cp)] + UnitsLenient(s, st.next)
  }

  /** The units the strict decoder visits from position `i`. */
  function UnitsStrict(s: seq<byte>, i: nat): (us: seq<Unit>)
    requires i <= |s|
    ensures forall k :: 0 <= k < |us| ==> 1 <= |us[k].bytes| <= 4
    decreases |s| - i
  {
    if i >= |s| then []
    else
      var st := NextStrict(s, i).value;
      [Unit(s[i..st.next], st.cp)] + UnitsStrict(s, st.next)
  }

  /** The lenient segmentation tiles the input: no byte is dropped or
      duplicated. */
  lemma {:induction false} LenientTiles(s: seq<byte>, i: nat)
    requires i <= |s|
    ensures Concat(UnitsLenient(s, i)) == s[i..]
    decreases |s| - i
  {
    if i < |s| {
      var st := NextLenient(s, i).value;
      LenientTiles(s, st.next);
      assert s[i..] == s[i..st.next] + s[st.next..];
    }
  }

  /** The strict segmentation tiles the input as well. */
  lemma {:induction false} StrictTiles(s: seq<byte>, i: nat)
    requires i <= |s|
    ensures Concat(UnitsStrict(s, i)) == s[i..]
    decreases |s| - i
  {
    if i < |s| {
      var st := NextStrict(s, i).value;
      StrictTiles(s, st.next);
      assert s[i..] == s[i..st.next] + s[st.next..];
    }
  }
}
