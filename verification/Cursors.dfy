/** Page cursors: base64 with the URL alphabet and no padding (section 5 of
    RFC 4648) around a "time|id" text. */
module Cursors {
  import opened Prelude
  import Decimal

  type Byte = x: int | 0 <= x < 256
  type Sextet = x: int | 0 <= x < 64

  // ---- the alphabet ---------------------------------------------------------------------

  function SextetChar(v: Sextet): char {
    if v < 26 then ('A' as int + v) as char
    else if v < 52 then ('a' as int + (v - 26)) as char
    else if v < 62 then ('0' as int + (v - 52)) as char
    else if v == 62 then '-' else '_'
  }

  function CharSextet(c: char): Option<Sextet> {
    if 'A' <= c <= 'Z' then Some(c as int - 'A' as int)
    else if 'a' <= c <= 'z' then Some(c as int - 'a' as int + 26)
    else if '0' <= c <= '9' then Some(c as int - '0' as int + 52)
    else if c == '-' then Some(62)
    else if c == '_' then Some(63)
    else None
  }

  lemma AlphabetRoundTrip(v: Sextet)
    ensures CharSextet(SextetChar(v)) == Some(v)
  {
  }

  // ---- base64 ---------------------------------------------------------------------------

  // Three bytes as four sextets, and back.
  function Sextet0(x: Byte): Sextet { x / 4 }
  function Sextet1(x: Byte, y: Byte): Sextet { x % 4 * 16 + y / 16 }
  function Sextet2(y: Byte, z: Byte): Sextet { y % 16 * 4 + z / 64 }
  function Sextet3(z: Byte): Sextet { z % 64 }

  function Byte0(s: Sextet, t: Sextet): Byte { (s as int) * 4 + t / 16 }
  function Byte1(t: Sextet, u: Sextet): Byte { (t as int) % 16 * 16 + u / 4 }
  function Byte2(u: Sextet, v: Sextet): Byte { (u as int) % 4 * 64 + v }

  lemma BitsRoundTrip(x: Byte, y: Byte, z: Byte)
    ensures Byte0(Sextet0(x), Sextet1(x, y)) == x
    ensures Byte1(Sextet1(x, y), Sextet2(y, z)) == y
    ensures Byte2(Sextet2(y, z), Sextet3(z)) == z
  {
  }

  /** Four sextets are the three bytes read as one number, the first byte highest. */
  lemma SameNumber(x: Byte, y: Byte, z: Byte)
    ensures ((Sextet0(x) * 64 + Sextet1(x, y)) * 64 + Sextet2(y, z)) * 64 + Sextet3(z) == (x * 256 + y) * 256 + z
  {
  }

  function Sextets(b: seq<Byte>): seq<Sextet> {
    if |b| == 0 then []
    else if |b| == 1 then [Sextet0(b[0]), Sextet1(b[0], 0)]
    else if |b| == 2 then [Sextet0(b[0]), Sextet1(b[0], b[1]), Sextet2(b[1], 0)]
    else [Sextet0(b[0]), Sextet1(b[0], b[1]), Sextet2(b[1], b[2]), Sextet3(b[2])] + Sextets(b[3..])
  }

  /** The bits left over at the end are not looked at. */
  function Bytes(v: seq<Sextet>): Option<seq<Byte>> {
    if |v| == 0 then Some([])
    else if |v| == 1 then None
    else if |v| == 2 then Some([Byte0(v[0], v[1])])
    else if |v| == 3 then Some([Byte0(v[0], v[1]), Byte1(v[1], v[2])])
    else
      var rest := Bytes(v[4..]);
      if rest.None? then None else Some([Byte0(v[0], v[1]), Byte1(v[1], v[2]), Byte2(v[2], v[3])] + rest.value)
  }

  lemma GroupRoundTrip(x: Byte, y: Byte, z: Byte, rest: seq<Sextet>)
    requires Bytes(rest).Some?
    ensures Bytes([Sextet0(x), Sextet1(x, y), Sextet2(y, z), Sextet3(z)] + rest) == Some([x, y, z] + Bytes(rest).value)
  {
    BitsRoundTrip(x, y, z);
    assert ([Sextet0(x), Sextet1(x, y), Sextet2(y, z), Sextet3(z)] + rest)[4..] == rest;
  }

  lemma OneByte(x: Byte, y: Byte)
    ensures Bytes([Sextet0(x), Sextet1(x, y)]) == Some([x])
  {
    BitsRoundTrip(x, y, y);
  }

  lemma TwoBytes(x: Byte, y: Byte, z: Byte)
    ensures Bytes([Sextet0(x), Sextet1(x, y), Sextet2(y, z)]) == Some([x, y])
  {
    BitsRoundTrip(x, y, z);
  }

  lemma {:induction false} BytesRoundTrip(b: seq<Byte>)
    ensures Bytes(Sextets(b)) == Some(b)
  {
    if |b| >= 3 {
      BytesRoundTrip(b[3..]);
      GroupRoundTrip(b[0], b[1], b[2], Sextets(b[3..]));
      assert b == [b[0], b[1], b[2]] + b[3..];
    } else if |b| == 2 {
      TwoBytes(b[0], b[1], 0);
      assert b == [b[0], b[1]];
    } else if |b| == 1 {
      OneByte(b[0], 0);
      assert b == [b[0]];
    }
  }

  lemma FourMore(n: nat)
    ensures (n + 4) % 4 == n % 4
  {
  }

  lemma {:induction false} SextetsLength(b: seq<Byte>)
    ensures |Sextets(b)| % 4 != 1 && (b != [] ==> Sextets(b) != [])
  {
    if |b| >= 3 {
      SextetsLength(b[3..]);
      FourMore(|Sextets(b[3..])|);
    }
  }

  function Chars(v: seq<Sextet>): (s: string)
    ensures |s| == |v|
  {
    seq(|v|, i requires 0 <= i < |v| => SextetChar(v[i]))
  }

  predicate InAlphabet(s: string) { forall i | 0 <= i < |s| :: CharSextet(s[i]).Some? }

  function Values(s: string): seq<Sextet>
    requires InAlphabet(s)
  {
    seq(|s|, i requires 0 <= i < |s| => CharSextet(s[i]).value)
  }

  lemma CharsRoundTrip(v: seq<Sextet>)
    ensures InAlphabet(Chars(v)) && Values(Chars(v)) == v
  {
    forall i | 0 <= i < |v| ensures CharSextet(Chars(v)[i]) == Some(v[i]) {
      AlphabetRoundTrip(v[i]);
    }
  }

  function Repeat(c: char, n: nat): string { seq(n, _ => c) }

  /** `-n % 4`. */
  function Padding(n: nat): (p: nat)
    ensures p < 4 && (n + p) % 4 == 0
    ensures n % 4 != 1 ==> p < 3
  {
    (4 - n % 4) % 4
  }

  /** `s + "=" * (-len(s) % 4)`. */
  function Repad(s: string): string { s + Repeat('=', Padding(|s|)) }

  /** `urlsafe_b64encode`, padding and all. */
  function EncodePadded(b: seq<Byte>): string { Repad(Chars(Sextets(b))) }

  /** `rstrip("=")`. */
  function Strip(s: string): string {
    if s != "" && s[|s| - 1] == '=' then Strip(s[..|s| - 1]) else s
  }

  /** A last group may end in one or two padding characters. */
  function Unpad(s: string): string {
    var n := |s|;
    if n >= 2 && s[n - 2] == '=' && s[n - 1] == '=' then s[..n - 2]
    else if n >= 1 && s[n - 1] == '=' then s[..n - 1]
    else s
  }

  /** `urlsafe_b64decode`. */
  function DecodePadded(s: string): Option<seq<Byte>> {
    if |s| % 4 != 0 || !InAlphabet(Unpad(s)) then None else Bytes(Values(Unpad(s)))
  }

  lemma {:induction false} StripStops(s: string, n: nat)
    requires InAlphabet(s)
    ensures Strip(s + Repeat('=', n)) == s
  {
    if n == 0 {
      assert s + Repeat('=', 0) == s;
    } else {
      var t := s + Repeat('=', n);
      assert t[..|t| - 1] == s + Repeat('=', n - 1);
      StripStops(s, n - 1);
    }
  }

  lemma UnpadStops(s: string, n: nat)
    requires InAlphabet(s) && n < 3
    ensures Unpad(s + Repeat('=', n)) == s
  {
    var t := s + Repeat('=', n);
    assert t[..|s|] == s;
    if |s| > 0 {
      assert CharSextet(s[|s| - 1]).Some?;
      assert t[|s| - 1] != '=';
    }
    if n > 0 {
      assert t[|t| - 1] == '=';
    }
    if n == 2 {
      assert t[|t| - 2] == '=';
    }
  }

  lemma StripsPadding(b: seq<Byte>)
    ensures Strip(EncodePadded(b)) == Chars(Sextets(b)) && InAlphabet(Chars(Sextets(b)))
  {
    CharsRoundTrip(Sextets(b));
    StripStops(Chars(Sextets(b)), Padding(|Sextets(b)|));
  }

  /** Dropping the padding and working it out again from the length loses nothing. */
  lemma UnpaddedRoundTrip(b: seq<Byte>)
    ensures DecodePadded(Repad(Strip(EncodePadded(b)))) == Some(b)
  {
    StripsPadding(b);
    SextetsLength(b);
    DecodesRepadded(Sextets(b));
    BytesRoundTrip(b);
  }

  lemma DecodesRepadded(v: seq<Sextet>)
    requires |v| % 4 != 1
    ensures DecodePadded(Repad(Chars(v))) == Bytes(v)
  {
    var s := Chars(v);
    CharsRoundTrip(v);
    UnpadStops(s, Padding(|s|));
    assert |Repad(s)| == |s| + Padding(|s|);
  }

  // ---- text -----------------------------------------------------------------------------

  predicate Ascii(s: string) { forall i | 0 <= i < |s| :: s[i] as int < 128 }

  function AsciiBytes(s: string): seq<Byte>
    requires Ascii(s)
  {
    seq(|s|, i requires 0 <= i < |s| => s[i] as int)
  }

  function AsciiText(b: seq<Byte>): Option<string> {
    if forall i | 0 <= i < |b| :: b[i] < 128 then Some(seq(|b|, i requires 0 <= i < |b| => b[i] as char)) else None
  }

  function ToCursor(raw: string): string
    requires Ascii(raw)
  {
    Strip(EncodePadded(AsciiBytes(raw)))
  }

  function FromCursor(s: string): Option<string> {
    var b := DecodePadded(Repad(s));
    if b.None? then None else AsciiText(b.value)
  }

  lemma TextRoundTrip(raw: string)
    requires Ascii(raw)
    ensures FromCursor(ToCursor(raw)) == Some(raw) && InAlphabet(ToCursor(raw))
    ensures raw != "" ==> ToCursor(raw) != ""
  {
    StripsPadding(AsciiBytes(raw));
    UnpaddedRoundTrip(AsciiBytes(raw));
    CharsRoundTrip(Sextets(AsciiBytes(raw)));
    SextetsLength(AsciiBytes(raw));
    assert AsciiText(AsciiBytes(raw)).value == raw;
  }

  // ---- the cursors ----------------------------------------------------------------------

  /** `isoformat` and `fromisoformat` on whole microseconds. */
  datatype Iso = Iso(show: int -> string, read: string -> Option<int>)

  ghost predicate Exact(iso: Iso) {
    forall t :: iso.read(iso.show(t)) == Some(t) && Ascii(iso.show(t)) && '|' !in iso.show(t)
  }

  datatype KeyCursor = KeyCursor(at: int, id: int)

  lemma NumberText(n: int)
    ensures Ascii(Decimal.Show(n)) && '|' !in Decimal.Show(n)
  {
    Decimal.ShowChars(n, '|');
    forall i | 0 <= i < |Decimal.Show(n)| ensures Decimal.Show(n)[i] as int < 128 {
      var c := Decimal.Show(n)[i];
      if !Decimal.IsDigit(c) && c != '-' {
        Decimal.ShowChars(n, c);
      }
    }
  }

  function KeyText(iso: Iso, at: int, id: int): (s: string)
    requires Exact(iso)
    ensures Ascii(s) && s != ""
  {
    NumberText(id);
    iso.show(at) + "|" + Decimal.Show(id)
  }

  function ReadKey(iso: Iso, raw: string): Option<(int, int)> {
    var parts := Break(raw, '|');
    if parts.None? then None
    else
      var at, id := iso.read(parts.value.0), Decimal.Read(parts.value.1);
      if at.None? || id.None? then None else Some((at.value, id.value))
  }

  lemma KeyTextRoundTrip(iso: Iso, at: int, id: int)
    requires Exact(iso)
    ensures ReadKey(iso, KeyText(iso, at, id)) == Some((at, id))
  {
    BreakFirst(iso.show(at), '|', Decimal.Show(id));
    Decimal.ReadShow(id);
  }

  /** A time, a bar, and an id: `Read` as far as the first bar and behind it. */
  predicate KeyParts(iso: Iso, raw: string, a: string, b: string, c: KeyCursor) {
    raw == a + "|" + b && '|' !in a && iso.read(a) == Some(c.at) && Decimal.Read(b) == Some(c.id)
  }

  function Encode(iso: Iso, c: KeyCursor): string
    requires Exact(iso)
  {
    ToCursor(KeyText(iso, c.at, c.id))
  }

  /** `None` is the `bad_cursor` error. */
  function Decode(iso: Iso, s: string): Option<KeyCursor> {
    var raw := FromCursor(s);
    if raw.None? then None
    else
      var key := ReadKey(iso, raw.value);
      if key.None? then None else Some(KeyCursor(key.value.0, key.value.1))
  }

  /** A string is a cursor exactly when it encodes a text of those parts; any other string
      is refused. */
  lemma DecodedIff(iso: Iso, s: string, c: KeyCursor)
    ensures Decode(iso, s) == Some(c) <==>
      FromCursor(s).Some? && exists a, b :: KeyParts(iso, FromCursor(s).value, a, b, c)
  {
    if FromCursor(s).Some? {
      var raw := FromCursor(s).value;
      BreakSplits(raw, '|');
      if Decode(iso, s) == Some(c) {
        var parts := Break(raw, '|').value;
        assert KeyParts(iso, raw, parts.0, parts.1, c);
      }
      if a, b :| KeyParts(iso, raw, a, b, c) {
        BreakFirst(a, '|', b);
      }
    }
  }

  /** A feed or post-list cursor survives its string, which is not empty and needs
      no escaping in a URL. */
  lemma KeyCursorRoundTrip(iso: Iso, c: KeyCursor)
    requires Exact(iso)
    ensures Decode(iso, Encode(iso, c)) == Some(c)
    ensures Encode(iso, c) != "" && InAlphabet(Encode(iso, c))
  {
    TextRoundTrip(KeyText(iso, c.at, c.id));
    KeyTextRoundTrip(iso, c.at, c.id);
  }

  /** The catalog's cursor says which view it belongs to. */
  datatype CatalogCursor = Available(postsCount: int, channel: int) | Hidden(hiddenAt: int, channel: int)

  function CatalogText(iso: Iso, c: CatalogCursor): (s: string)
    requires Exact(iso)
    ensures Ascii(s) && s != ""
  {
    match c
    case Available(n, ch) =>
      NumberText(n); NumberText(ch);
      "a|" + (Decimal.Show(n) + "|" + Decimal.Show(ch))
    case Hidden(at, ch) =>
      NumberText(ch);
      "h|" + (iso.show(at) + "|" + Decimal.Show(ch))
  }

  function DecodeCatalog(iso: Iso, s: string): Option<CatalogCursor> {
    var raw := FromCursor(s);
    if raw.None? then None
    else
      var parts := Break(raw.value, '|');
      if parts.None? then None
      else if parts.value.0 == "a" then
        var rest := Break(parts.value.1, '|');
        if rest.None? then None
        else
          var n, ch := Decimal.Read(rest.value.0), Decimal.Read(rest.value.1);
          if n.None? || ch.None? then None else Some(Available(n.value, ch.value))
      else if parts.value.0 == "h" then
        var key := ReadKey(iso, parts.value.1);
        if key.None? then None else Some(Hidden(key.value.0, key.value.1))
      else None
  }

  lemma AvailableRoundTrip(iso: Iso, n: int, channel: int)
    requires Exact(iso)
    ensures DecodeCatalog(iso, ToCursor(CatalogText(iso, Available(n, channel)))) == Some(Available(n, channel))
  {
    TextRoundTrip(CatalogText(iso, Available(n, channel)));
    var rest := Decimal.Show(n) + "|" + Decimal.Show(channel);
    assert "a|" + rest == "a" + "|" + rest;
    BreakFirst("a", '|', rest);
    NumberText(n);
    BreakFirst(Decimal.Show(n), '|', Decimal.Show(channel));
    Decimal.ReadShow(n);
    Decimal.ReadShow(channel);
  }

  lemma HiddenRoundTrip(iso: Iso, at: int, channel: int)
    requires Exact(iso)
    ensures DecodeCatalog(iso, ToCursor(CatalogText(iso, Hidden(at, channel)))) == Some(Hidden(at, channel))
  {
    TextRoundTrip(CatalogText(iso, Hidden(at, channel)));
    var rest := KeyText(iso, at, channel);
    assert "h|" + rest == "h" + "|" + rest;
    BreakFirst("h", '|', rest);
    KeyTextRoundTrip(iso, at, channel);
  }

  lemma CatalogRoundTrip(iso: Iso, c: CatalogCursor)
    requires Exact(iso)
    ensures DecodeCatalog(iso, ToCursor(CatalogText(iso, c))) == Some(c)
  {
    match c
    case Available(n, channel) => AvailableRoundTrip(iso, n, channel);
    case Hidden(at, channel) => HiddenRoundTrip(iso, at, channel);
  }
}
