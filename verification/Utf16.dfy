/** The renderer's offset arithmetic: Telegram counts UTF-16 code units, the renderer
    characters. These are Unicode scalar values, so no text holds half a surrogate pair. */
module Utf16 {

  type Unit = n: int | 0 <= n < 0x1_0000

  predicate IsHigh(u: Unit) { 0xD800 <= u < 0xDC00 }

  predicate IsLow(u: Unit) { 0xDC00 <= u < 0xE000 }

  /** One character as code units: section 2.1 of RFC 2781. */
  function Units(c: char): seq<Unit> {
    var n := c as int;
    if n < 0x1_0000 then [n]
    else [0xD800 + (n - 0x1_0000) / 0x400, 0xDC00 + (n - 0x1_0000) % 0x400]
  }

  function Encode(s: string): seq<Unit> {
    if s == "" then [] else Units(s[0]) + Encode(s[1..])
  }

  const REPLACEMENT := '\U{FFFD}'

  /** Section 2.2 of RFC 2781, with every ill-formed unit decoded to the
      replacement character. */
  function Decode(u: seq<Unit>): string {
    if u == [] then ""
    else if IsHigh(u[0]) && |u| > 1 && IsLow(u[1]) then
      [(0x1_0000 + (u[0] as int - 0xD800) * 0x400 + (u[1] as int - 0xDC00)) as char] + Decode(u[2..])
    else if IsHigh(u[0]) || IsLow(u[0]) then [REPLACEMENT] + Decode(u[1..])
    else [u[0] as char] + Decode(u[1..])
  }

  /** `_utf16_to_char`: the character index for a code-unit offset. */
  function Utf16ToChar(text: string, offset: int): int {
    if offset <= 0 then 0
    else if offset >= |Encode(text)| then |text|
    else |Decode(Encode(text)[..offset])|
  }

  /** Length in code units of the first `k` characters. */
  function UnitLen(text: string, k: nat): nat
    requires k <= |text|
  {
    |Encode(text[..k])|
  }

  /** Characters outside the basic plane. */
  function Wide(text: string): nat {
    if text == "" then 0 else (if text[0] as int >= 0x1_0000 then 1 else 0) + Wide(text[1..])
  }

  /** A character counts as one unit, and as two outside the basic plane. */
  lemma {:induction false} UnitsCounted(text: string)
    ensures |Encode(text)| == |text| + Wide(text)
  {
    if text != "" {
      UnitsCounted(text[1..]);
    }
  }

  lemma DecodeStep(c: char, rest: seq<Unit>)
    ensures Decode(Units(c) + rest) == [c] + Decode(rest)
  {
    var u := Units(c) + rest;
    if c as int < 0x1_0000 {
      assert u[1..] == rest;
    } else {
      assert u[2..] == rest;
    }
  }

  /** Nothing is lost by encoding. */
  lemma {:induction false} DecodeEncode(s: string)
    ensures Decode(Encode(s)) == s
  {
    if s != "" {
      DecodeStep(s[0], Encode(s[1..]));
      DecodeEncode(s[1..]);
    }
  }

  lemma {:induction false} UnitLenGrows(text: string, j: nat, k: nat)
    requires j < k <= |text|
    ensures UnitLen(text, j) < UnitLen(text, k)
    decreases |text|
  {
    assert text[..k][1..] == text[1..][..k - 1];
    if j > 0 {
      assert text[..j][1..] == text[1..][..j - 1];
      UnitLenGrows(text[1..], j - 1, k - 1);
    }
  }

  lemma {:induction false} DecodedPrefix(text: string, offset: nat, k: nat)
    requires 0 < offset <= |Encode(text)| && k <= |text|
    ensures |Decode(Encode(text)[..offset])| <= k <==> offset <= UnitLen(text, k)
    decreases |text|
  {
    var u, tail := Units(text[0]), Encode(text[1..]);
    if k > 0 {
      assert text[..k][1..] == text[1..][..k - 1];
    }
    if offset < |u| {
      assert Encode(text)[..offset] == u[..1];
    } else {
      assert Encode(text)[..offset] == u + tail[..offset - |u|];
      DecodeStep(text[0], tail[..offset - |u|]);
      if offset > |u| && k > 0 {
        DecodedPrefix(text[1..], offset - |u|, k - 1);
      }
    }
  }

  /** The index found for an offset is the least number of characters whose
      encoding reaches the offset: offsets inside a surrogate pair round up, and
      offsets outside the text are clamped to its two ends. */
  lemma OffsetIsLeastCover(text: string, offset: int, k: nat)
    requires k <= |text|
    ensures Utf16ToChar(text, offset) <= k <==> offset <= UnitLen(text, k) || k == |text|
    ensures 0 <= Utf16ToChar(text, offset) <= |text|
  {
    var whole := |Encode(text)|;
    assert text[..|text|] == text;
    if k < |text| {
      UnitLenGrows(text, k, |text|);
    }
    if 0 < offset < whole {
      DecodedPrefix(text, offset, k);
      DecodedPrefix(text, offset, |text|);
    }
  }

  lemma Monotone(text: string, a: int, b: int)
    requires a <= b
    ensures 0 <= Utf16ToChar(text, a) <= Utf16ToChar(text, b) <= |text|
  {
    OffsetIsLeastCover(text, b, |text|);
    OffsetIsLeastCover(text, b, Utf16ToChar(text, b));
    OffsetIsLeastCover(text, a, Utf16ToChar(text, b));
  }

  /** On character boundaries the conversion inverts the code-unit length. */
  lemma BoundaryRoundTrip(text: string, k: nat)
    requires k <= |text|
    ensures Utf16ToChar(text, UnitLen(text, k)) == k
  {
    var offset := UnitLen(text, k);
    OffsetIsLeastCover(text, offset, k);
    if k > 0 {
      UnitLenGrows(text, k - 1, k);
      OffsetIsLeastCover(text, offset, k - 1);
    }
  }
}
