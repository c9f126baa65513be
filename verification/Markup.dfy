/** The pieces the entity renderer prints: escaped characters and white-listed
    tags, with a lexer that reads a printed string back into those pieces. */
module Markup {
  import opened Prelude
  import Decimal

  // ---- escaping -------------------------------------------------------------

  /** `_escape_char`. */
  function EscapeChar(c: char): string {
    if c == '&' then "&amp;"
    else if c == '<' then "&lt;"
    else if c == '>' then "&gt;"
    else [c]
  }

  function EscapeAll(s: string): string {
    if s == "" then "" else EscapeChar(s[0]) + EscapeAll(s[1..])
  }

  /** `_escape`: three chained replacements. */
  function Escape(s: string): string {
    Replace(Replace(Replace(s, '&', "&amp;"), '<', "&lt;"), '>', "&gt;")
  }

  lemma EscapeAmpersand()
    ensures Escape("&") == "&amp;"
  {
    assert Replace("&", '&', "&amp;") == "&amp;";
    NothingToReplace("&amp;", '<', "&lt;");
    NothingToReplace("&amp;", '>', "&gt;");
  }

  lemma EscapeLess()
    ensures Escape("<") == "&lt;"
  {
    NothingToReplace("<", '&', "&amp;");
    assert Replace("<", '<', "&lt;") == "&lt;";
    NothingToReplace("&lt;", '>', "&gt;");
  }

  lemma EscapeOne(c: char)
    ensures Escape([c]) == EscapeChar(c)
  {
    if c == '&' {
      EscapeAmpersand();
    } else if c == '<' {
      EscapeLess();
    } else {
      NothingToReplace([c], '&', "&amp;");
      NothingToReplace([c], '<', "&lt;");
      assert Replace([c][1..], '>', "&gt;") == "";
    }
  }

  lemma {:induction false} NothingToReplace(s: string, c: char, repl: string)
    requires c !in s
    ensures Replace(s, c, repl) == s
  {
    if s != "" {
      NothingToReplace(s[1..], c, repl);
    }
  }

  /** The chained replacements of the early returns print what the character-wise
      escape of the sweep prints. */
  lemma {:induction false} EscapeIsEscapeAll(s: string)
    ensures Escape(s) == EscapeAll(s)
  {
    if s != "" {
      var a := Replace(s, '&', "&amp;");
      assert s == [s[0]] + s[1..];
      ReplaceAppend([s[0]], s[1..], '&', "&amp;");
      ReplaceAppend(Replace([s[0]], '&', "&amp;"), Replace(s[1..], '&', "&amp;"), '<', "&lt;");
      ReplaceAppend(Replace(Replace([s[0]], '&', "&amp;"), '<', "&lt;"),
                    Replace(Replace(s[1..], '&', "&amp;"), '<', "&lt;"), '>', "&gt;");
      EscapeOne(s[0]);
      EscapeIsEscapeAll(s[1..]);
    }
  }

  lemma {:induction false} EscapeAllAppend(a: string, b: string)
    ensures EscapeAll(a + b) == EscapeAll(a) + EscapeAll(b)
  {
    if a == "" {
      assert a + b == b;
    } else {
      assert (a + b)[1..] == a[1..] + b;
      EscapeAllAppend(a[1..], b);
    }
  }

  /** `_escape_attr`, that is `html.escape(s, quote=True)`. */
  function EscapeAttr(s: string): string {
    Replace(Replace(Escape(s), '"', "&quot;"), '\'', "&#x27;")
  }

  /** An escaped attribute value can end neither its quotes, of either kind, nor its
      tag. */
  lemma EscapeAttrChars(s: string)
    ensures forall x | x in {'<', '>', '"', '\''} :: x !in EscapeAttr(s)
  {
    var a := Replace(s, '&', "&amp;");
    var b := Replace(a, '<', "&lt;");
    var c := Replace(b, '>', "&gt;");
    var d := Replace(c, '"', "&quot;");
    ReplaceChars(a, '<', "&lt;", '<');
    ReplaceChars(b, '>', "&gt;", '<');
    ReplaceChars(b, '>', "&gt;", '>');
    forall x | x in {'<', '>'} ensures x !in EscapeAttr(s) {
      ReplaceChars(c, '"', "&quot;", x);
      ReplaceChars(d, '\'', "&#x27;", x);
    }
    ReplaceChars(c, '"', "&quot;", '"');
    ReplaceChars(d, '\'', "&#x27;", '"');
    ReplaceChars(d, '\'', "&#x27;", '\'');
  }

  /** The character references that escaping writes. */
  function Reference(c: char): Option<string> {
    if c == '&' then Some("amp") else if c == '<' then Some("lt") else if c == '>' then Some("gt")
    else if c == '"' then Some("quot") else if c == '\'' then Some("#x27") else None
  }

  function Referred(name: string): Option<char> {
    if name == "amp" then Some('&') else if name == "lt" then Some('<') else if name == "gt" then Some('>')
    else if name == "quot" then Some('"') else if name == "#x27" then Some('\'') else None
  }

  function EscapeAttrChar(c: char): string {
    if Reference(c).Some? then "&" + Reference(c).value + ";" else [c]
  }

  function EscapeAttrAll(s: string): string {
    if s == "" then "" else EscapeAttrChar(s[0]) + EscapeAttrAll(s[1..])
  }

  lemma {:induction false} QuotesOneByOne(s: string)
    ensures Replace(Replace(EscapeAll(s), '"', "&quot;"), '\'', "&#x27;") == EscapeAttrAll(s)
  {
    if s != "" {
      var e, rest := EscapeChar(s[0]), EscapeAll(s[1..]);
      ReplaceAppend(e, rest, '"', "&quot;");
      ReplaceAppend(Replace(e, '"', "&quot;"), Replace(rest, '"', "&quot;"), '\'', "&#x27;");
      QuotesInOne(s[0]);
      QuotesOneByOne(s[1..]);
    }
  }

  lemma QuotesInOne(c: char)
    ensures Replace(Replace(EscapeChar(c), '"', "&quot;"), '\'', "&#x27;") == EscapeAttrChar(c)
  {
    var e := EscapeChar(c);
    if c == '"' {
      assert Replace(e[1..], '"', "&quot;") == "";
      assert Replace(e, '"', "&quot;") == "&quot;";
      NothingToReplace("&quot;", '\'', "&#x27;");
    } else {
      NothingToReplace(e, '"', "&quot;");
      if c == '\'' {
        assert Replace(e[1..], '\'', "&#x27;") == "";
      } else {
        NothingToReplace(e, '\'', "&#x27;");
      }
    }
  }

  /** What an HTML client makes of the character references in an attribute value. */
  function Unescape(s: string): string
    decreases |s|
  {
    if s == "" then ""
    else
      var r := if s[0] == '&' then Break(s[1..], ';') else None;
      if r.Some? && Referred(r.value.0).Some? then [Referred(r.value.0).value] + Unescape(r.value.1)
      else [s[0]] + Unescape(s[1..])
  }

  lemma ReferenceRoundTrip(c: char)
    ensures Reference(c).Some? ==> Referred(Reference(c).value) == Some(c) && ';' !in Reference(c).value
    ensures Reference(c).None? ==> c != '&'
  {
  }

  lemma UnescapeOne(c: char, rest: string)
    ensures Unescape(EscapeAttrChar(c) + rest) == [c] + Unescape(rest)
  {
    var s := EscapeAttrChar(c) + rest;
    ReferenceRoundTrip(c);
    if Reference(c).Some? {
      var name := Reference(c).value;
      assert s[1..] == name + [';'] + rest;
      BreakFirst(name, ';', rest);
    } else {
      assert s[1..] == rest;
    }
  }

  /** The client reads an escaped value back exactly. */
  lemma {:induction false} UnescapeEscaped(s: string)
    ensures Unescape(EscapeAttr(s)) == s
  {
    EscapeIsEscapeAll(s);
    QuotesOneByOne(s);
    UnescapeAll(s);
  }

  lemma {:induction false} UnescapeAll(s: string)
    ensures Unescape(EscapeAttrAll(s)) == s
  {
    if s != "" {
      UnescapeOne(s[0], EscapeAttrAll(s[1..]));
      UnescapeAll(s[1..]);
    }
  }

  lemma {:induction false} UnescapePlain(s: string)
    requires '&' !in s
    ensures Unescape(s) == s
  {
    if s != "" {
      UnescapePlain(s[1..]);
    }
  }

  // ---- tags -----------------------------------------------------------------

  /** What `str.strip`, `str.lower` and `str.isalnum` do to a character outside
      ASCII is left open. */
  datatype Unicode = Unicode(
    isSpace: char -> bool,
    isAlnum: char -> bool,
    lower: char -> string)

  predicate Ascii(c: char) { c as int < 0x80 }

  function LowerChar(u: Unicode, c: char): string {
    if 'A' <= c <= 'Z' then [(c as int + 32) as char]
    else if Ascii(c) then [c]
    else u.lower(c)
  }

  function Lower(u: Unicode, s: string): string {
    if s == "" then "" else LowerChar(u, s[0]) + Lower(u, s[1..])
  }

  predicate IsSpace(u: Unicode, c: char) {
    if Ascii(c) then c == ' ' || 9 <= c as int <= 13 || 28 <= c as int <= 31 else u.isSpace(c)
  }

  predicate IsAlnum(u: Unicode, c: char) {
    if Ascii(c) then '0' <= c <= '9' || 'a' <= c <= 'z' || 'A' <= c <= 'Z' else u.isAlnum(c)
  }

  function LStrip(u: Unicode, s: string): string {
    if s != "" && IsSpace(u, s[0]) then LStrip(u, s[1..]) else s
  }

  function RStrip(u: Unicode, s: string): string {
    if s != "" && IsSpace(u, s[|s| - 1]) then RStrip(u, s[..|s| - 1]) else s
  }

  const ALLOWED_SCHEMES := ["http://", "https://", "tg://", "mailto:"]
  const BLOCKED_SCHEMES := ["javascript:", "data:", "vbscript:", "file:", "blob:"]

  predicate HasScheme(lower: string, schemes: seq<string>) {
    exists i | 0 <= i < |schemes| :: StartsWith(lower, schemes[i])
  }

  predicate Contains(s: string, part: string) {
    exists i | 0 <= i <= |s| :: StartsWith(s[i..], part)
  }

  /** `_sanitize_href`. */
  function SanitizeHref(u: Unicode, url: string): Option<string> {
    var candidate := RStrip(u, LStrip(u, url));
    var lower := Lower(u, candidate);
    if candidate == "" then None
    else if HasScheme(lower, BLOCKED_SCHEMES) then None
    else if HasScheme(lower, ALLOWED_SCHEMES) then Some(candidate)
    else if Contains(candidate, "://") || StartsWith(candidate, "//") then None
    else Some("https://" + candidate)
  }

  lemma {:induction false} LowerAppend(u: Unicode, a: string, b: string)
    ensures Lower(u, a + b) == Lower(u, a) + Lower(u, b)
  {
    if a == "" {
      assert a + b == b;
    } else {
      assert (a + b)[1..] == a[1..] + b;
      LowerAppend(u, a[1..], b);
    }
  }

  /** No allowed scheme, but a blocked one or the marks of another. */
  predicate OtherScheme(u: Unicode, bare: string) {
    && !HasScheme(Lower(u, bare), ALLOWED_SCHEMES)
    && (HasScheme(Lower(u, bare), BLOCKED_SCHEMES) || Contains(bare, "://") || StartsWith(bare, "//"))
  }

  /** A link is refused exactly when it is blank, or carries no allowed scheme but a
      blocked one or the marks of another. Every link that is kept carries an allowed
      scheme, whatever its case, so it never carries a blocked one. */
  lemma SanitizedScheme(u: Unicode, url: string)
    ensures var h := SanitizeHref(u, url);
      h.Some? ==>
        HasScheme(Lower(u, h.value), ALLOWED_SCHEMES) && !HasScheme(Lower(u, h.value), BLOCKED_SCHEMES)
    ensures var bare := RStrip(u, LStrip(u, url));
      SanitizeHref(u, url).None? <==> bare == "" || OtherScheme(u, bare)
  {
    var h := SanitizeHref(u, url);
    var candidate := RStrip(u, LStrip(u, url));
    OneScheme(Lower(u, candidate));
    if h.Some? && !HasScheme(Lower(u, candidate), ALLOWED_SCHEMES) {
      LowerAppend(u, "https://", candidate);
      LowerHttps(u);
      assert StartsWith(Lower(u, h.value), ALLOWED_SCHEMES[1]);
      assert Lower(u, h.value)[0] == 'h';
      forall i | 0 <= i < |BLOCKED_SCHEMES|
        ensures !StartsWith(Lower(u, h.value), BLOCKED_SCHEMES[i])
      {
        assert BLOCKED_SCHEMES[i][0] != 'h';
      }
    }
  }

  /** No text carries an allowed and a blocked scheme. */
  lemma OneScheme(lower: string)
    ensures !(HasScheme(lower, ALLOWED_SCHEMES) && HasScheme(lower, BLOCKED_SCHEMES))
  {
    forall i, j | 0 <= i < |ALLOWED_SCHEMES| && 0 <= j < |BLOCKED_SCHEMES|
      ensures !(StartsWith(lower, ALLOWED_SCHEMES[i]) && StartsWith(lower, BLOCKED_SCHEMES[j]))
    {
      assert ALLOWED_SCHEMES[i][0] != BLOCKED_SCHEMES[j][0];
    }
  }

  lemma {:induction false} LStripped(u: Unicode, s: string)
    ensures LStrip(u, s) == "" || !IsSpace(u, LStrip(u, s)[0])
  {
    if s != "" && IsSpace(u, s[0]) {
      LStripped(u, s[1..]);
    }
  }

  lemma {:induction false} RStripped(u: Unicode, s: string)
    ensures RStrip(u, s) <= s
    ensures RStrip(u, s) == "" || !IsSpace(u, RStrip(u, s)[|RStrip(u, s)| - 1])
  {
    if s != "" && IsSpace(u, s[|s| - 1]) {
      RStripped(u, s[..|s| - 1]);
    }
  }

  /** Neither end of a text is white space. */
  predicate Bare(u: Unicode, s: string) { s != "" && !IsSpace(u, s[0]) && !IsSpace(u, s[|s| - 1]) }

  lemma StrippedIsBare(u: Unicode, url: string)
    ensures var bare := RStrip(u, LStrip(u, url)); bare == "" || Bare(u, bare)
  {
    LStripped(u, url);
    RStripped(u, LStrip(u, url));
  }

  lemma KeptIsBare(u: Unicode, url: string)
    requires SanitizeHref(u, url).Some?
    ensures Bare(u, SanitizeHref(u, url).value)
  {
    var bare := RStrip(u, LStrip(u, url));
    StrippedIsBare(u, url);
    assert ("https://" + bare)[|"https://" + bare| - 1] == bare[|bare| - 1];
  }

  /** A link that was kept is kept as it is: sanitizing it again changes nothing. */
  lemma SanitizedOnce(u: Unicode, url: string)
    requires SanitizeHref(u, url).Some?
    ensures SanitizeHref(u, SanitizeHref(u, url).value) == SanitizeHref(u, url)
  {
    KeptIsBare(u, url);
    SanitizedScheme(u, url);
  }

  predicate AllSpace(u: Unicode, s: string) { forall i | 0 <= i < |s| :: IsSpace(u, s[i]) }

  lemma {:induction false} LStripLeft(u: Unicode, left: string, rest: string)
    requires AllSpace(u, left) && (rest == "" || !IsSpace(u, rest[0]))
    ensures LStrip(u, left + rest) == rest
  {
    if left == "" {
      assert left + rest == rest;
    } else {
      assert (left + rest)[1..] == left[1..] + rest;
      LStripLeft(u, left[1..], rest);
    }
  }

  lemma {:induction false} RStripRight(u: Unicode, rest: string, right: string)
    requires AllSpace(u, right) && (rest == "" || !IsSpace(u, rest[|rest| - 1]))
    ensures RStrip(u, rest + right) == rest
  {
    if right == "" {
      assert rest + right == rest;
    } else {
      assert (rest + right)[..|rest + right| - 1] == rest + right[..|right| - 1];
      RStripRight(u, rest, right[..|right| - 1]);
    }
  }

  /** However a text is taken apart into white space, a bare middle and white space, the
      middle is what stripping leaves. */
  lemma StripLeaves(u: Unicode, left: string, bare: string, right: string)
    requires AllSpace(u, left) && AllSpace(u, right) && (bare == "" || Bare(u, bare))
    ensures RStrip(u, LStrip(u, left + bare + right)) == bare
  {
    if bare == "" {
      assert left + bare + right == (left + right) + "";
      LStripLeft(u, left + right, "");
    } else {
      assert left + bare + right == left + (bare + right);
      LStripLeft(u, left, bare + right);
      RStripRight(u, bare, right);
    }
  }

  lemma {:induction false} LeftPart(u: Unicode, s: string) returns (left: string)
    ensures s == left + LStrip(u, s) && AllSpace(u, left)
  {
    left := "";
    if s != "" && IsSpace(u, s[0]) {
      left := LeftPart(u, s[1..]);
      left := [s[0]] + left;
      assert s == [s[0]] + s[1..];
    }
  }

  lemma {:induction false} RightPart(u: Unicode, s: string) returns (right: string)
    ensures s == RStrip(u, s) + right && AllSpace(u, right)
  {
    right := "";
    if s != "" && IsSpace(u, s[|s| - 1]) {
      right := RightPart(u, s[..|s| - 1]);
      right := right + [s[|s| - 1]];
      assert s == s[..|s| - 1] + [s[|s| - 1]];
    }
  }

  /** Every text can be taken apart so. */
  lemma Parts(u: Unicode, s: string) returns (left: string, bare: string, right: string)
    ensures s == left + bare + right && AllSpace(u, left) && AllSpace(u, right) && (bare == "" || Bare(u, bare))
  {
    left := LeftPart(u, s);
    right := RightPart(u, LStrip(u, s));
    bare := RStrip(u, LStrip(u, s));
    StrippedIsBare(u, s);
  }

  /** A link is its bare text, with `https://` before it exactly when it carries no allowed
      scheme of its own; none is kept of a blank text or of one with another scheme. */
  lemma KeptLink(u: Unicode, left: string, bare: string, right: string)
    requires AllSpace(u, left) && AllSpace(u, right) && (bare == "" || Bare(u, bare))
    ensures var kept := SanitizeHref(u, left + bare + right);
      && (kept.None? <==> bare == "" || OtherScheme(u, bare))
      && (kept.Some? ==>
            kept.value == (if HasScheme(Lower(u, bare), ALLOWED_SCHEMES) then "" else "https://") + bare)
  {
    StripLeaves(u, left, bare, right);
    OneScheme(Lower(u, bare));
    assert "" + bare == bare;
  }

  lemma LowerHttps(u: Unicode)
    ensures Lower(u, "https://") == "https://"
  {
    var s := "https://";
    assert Lower(u, s[8..]) == "";
    assert Lower(u, s[7..]) == "/";
    assert Lower(u, s[6..]) == "//";
    assert Lower(u, s[5..]) == "://";
    assert Lower(u, s[4..]) == "s://";
    assert Lower(u, s[3..]) == "ps://";
    assert Lower(u, s[2..]) == "tps://";
    assert Lower(u, s[1..]) == "ttps://";
  }

  /** The Telegram entity classes the renderer knows; `Unknown` is any other. */
  datatype Kind =
    | Bold | Italic | Underline | Strike | Code | Pre | Blockquote | Spoiler | Hashtag
    | TextUrl(url: string)
    | Url
    | Mention
    | MentionName(userId: Option<int>)
    | Unknown

  datatype Tags = Tags(open: string, close: string)

  function Element(name: string, attrs: seq<Attr>): Tags {
    Tags("<" + name + AttrText(attrs) + ">", "</" + name + ">")
  }

  datatype Attr = Attr(name: string, value: string)

  function OneAttr(a: Attr): string { " " + a.name + "=\"" + a.value + "\"" }

  function AttrText(attrs: seq<Attr>): string {
    if attrs == [] then "" else OneAttr(attrs[0]) + AttrText(attrs[1..])
  }

  /** What a link leaves the application with. */
  const NO_OPENER := Attr("rel", "noopener noreferrer")
  const OUTSIDE := [NO_OPENER, Attr("target", "_blank")]

  /** Attribute list of a plain link: `_open_anchor`. */
  function LinkAttrs(href: string): seq<Attr> { [Attr("href", EscapeAttr(href))] + OUTSIDE }

  function MentionAttrs(username: string): seq<Attr> {
    [Attr("class", "tg-mention"), Attr("href", "https://t.me/" + username)] + OUTSIDE
  }

  function MentionNameAttrs(userId: int): seq<Attr> {
    [Attr("class", "tg-mention"), Attr("href", "tg://user?id=" + Decimal.Show(userId))]
  }

  function StripAt(s: string): string {
    if s != "" && s[0] == '@' then StripAt(s[1..]) else s
  }

  /** `_is_valid_username`. */
  predicate IsValidUsername(u: Unicode, s: string) {
    s != "" && |s| <= 64 && forall i | 0 <= i < |s| :: IsAlnum(u, s[i]) || s[i] == '_'
  }

  lemma {:induction false} StripsAts(slice: string, k: nat)
    requires k <= |slice| && (forall i | 0 <= i < k :: slice[i] == '@') && (k < |slice| ==> slice[k] != '@')
    ensures StripAt(slice) == slice[k..]
  {
    if k > 0 {
      StripsAts(slice[1..], k - 1);
      assert slice[1..][k - 1..] == slice[k..];
    }
  }

  lemma {:induction false} AtsBefore(slice: string) returns (k: nat)
    ensures k <= |slice| && (forall i | 0 <= i < k :: slice[i] == '@') && StripAt(slice) == slice[k..]
  {
    k := 0;
    if slice != "" && slice[0] == '@' {
      k := AtsBefore(slice[1..]);
      k := k + 1;
      assert slice[1..][k - 1..] == slice[k..];
    }
  }

  /** `_tags_for_entity`. */
  function TagsFor(u: Unicode, kind: Kind, slice: string): Option<Tags> {
    match kind
    case Bold => Some(Element("strong", []))
    case Italic => Some(Element("em", []))
    case Underline => Some(Element("u", []))
    case Strike => Some(Element("s", []))
    case Code => Some(Element("code", []))
    case Pre => Some(Element("pre", []))
    case Blockquote => Some(Element("blockquote", []))
    case Spoiler => Some(Element("span", [Attr("class", "tg-spoiler")]))
    case Hashtag => Some(Element("span", [Attr("class", "tg-hashtag")]))
    case TextUrl(url) => AnchorTags(SanitizeHref(u, url))
    case Url => AnchorTags(SanitizeHref(u, slice))
    case Mention =>
      var name := StripAt(slice);
      if IsValidUsername(u, name) then Some(Element("a", MentionAttrs(name))) else None
    case MentionName(userId) =>
      if userId.Some? && userId.value > 0 then Some(Element("a", MentionNameAttrs(userId.value))) else None
    case Unknown => None
  }

  function AnchorTags(href: Option<string>): Option<Tags> {
    if href.Some? then Some(Element("a", LinkAttrs(href.value))) else None
  }

  /** A tag is `<`, then no further `>` up to its last character. */
  predicate IsTag(t: string) {
    |t| >= 3 && t[0] == '<' && t[|t| - 1] == '>' && '>' !in t[..|t| - 1]
  }

  predicate IsOpenTag(t: string) { IsTag(t) && t[1] != '/' }

  predicate IsCloseTag(t: string) { IsTag(t) && t[1] == '/' }

  function NameEnd(s: string): string {
    if s == "" || s[0] == ' ' || s[0] == '>' then "" else [s[0]] + NameEnd(s[1..])
  }

  /** The element name of an opening tag. */
  function TagName(open: string): string
    requires IsTag(open)
  {
    NameEnd(open[1..])
  }

  function CloseFor(open: string): string
    requires IsTag(open)
  {
    "</" + TagName(open) + ">"
  }

  lemma {:induction false} NameBeforeStop(name: string, stop: char, rest: string)
    requires stop == ' ' || stop == '>'
    requires ' ' !in name && '>' !in name
    ensures NameEnd(name + [stop] + rest) == name
  {
    if name != "" {
      NameBeforeStop(name[1..], stop, rest);
      assert (name + [stop] + rest)[1..] == name[1..] + [stop] + rest;
    }
  }

  // ---- reading a tag ------------------------------------------------------------

  /** The attribute at the head of a string: a space, a name, `=` and a quoted value. */
  function SplitAttr(s: string): (r: Option<(Attr, string)>)
    ensures r.Some? ==> |r.value.1| < |s|
  {
    if s == "" || s[0] != ' ' then None
    else
      var named := Break(s[1..], '=');
      if named.None? || named.value.1 == "" || named.value.1[0] != '"' then None
      else
        var valued := Break(named.value.1[1..], '"');
        if valued.None? then None else Some((Attr(named.value.0, valued.value.0), valued.value.1))
  }

  /** The attributes a client reads, character references included. */
  function ReadAttrs(s: string): Option<seq<Attr>>
    decreases |s|
  {
    if s == "" then Some([])
    else
      var first := SplitAttr(s);
      if first.None? then None
      else
        var rest := ReadAttrs(first.value.1);
        if rest.None? then None else Some([SeenOne(first.value.0)] + rest.value)
  }

  function SeenOne(a: Attr): Attr { a.(value := Unescape(a.value)) }

  function Seen(attrs: seq<Attr>): seq<Attr> {
    if attrs == [] then [] else [SeenOne(attrs[0])] + Seen(attrs[1..])
  }

  predicate Printable(a: Attr) {
    '=' !in a.name && '>' !in a.name && '"' !in a.value && '>' !in a.value
  }

  predicate AllPrintable(attrs: seq<Attr>) { forall k | 0 <= k < |attrs| :: Printable(attrs[k]) }

  lemma SplitOne(a: Attr, rest: string)
    requires Printable(a)
    ensures SplitAttr(OneAttr(a) + rest) == Some((a, rest)) && '>' !in OneAttr(a)
  {
    var s := OneAttr(a) + rest;
    assert s[1..] == a.name + ['='] + ("\"" + a.value + "\"" + rest);
    BreakFirst(a.name, '=', "\"" + a.value + "\"" + rest);
    assert ("\"" + a.value + "\"" + rest)[1..] == a.value + ['"'] + rest;
    BreakFirst(a.value, '"', rest);
  }

  lemma {:induction false} ReadBack(attrs: seq<Attr>)
    requires AllPrintable(attrs)
    ensures ReadAttrs(AttrText(attrs)) == Some(Seen(attrs)) && '>' !in AttrText(attrs)
    ensures AttrText(attrs) == "" || AttrText(attrs)[0] == ' '
  {
    if attrs != [] {
      ReadBack(attrs[1..]);
      SplitOne(attrs[0], AttrText(attrs[1..]));
    }
  }

  /** The part of an opening tag behind its name. */
  function AttrPart(open: string): string
    requires IsTag(open)
  {
    if 1 + |TagName(open)| <= |open| - 1 then open[1 + |TagName(open)|..|open| - 1] else ""
  }

  /** One well-formed opening tag of the named element with just these attributes, and
      its closing tag. */
  predicate WhiteListed(t: Tags, name: string, attrs: seq<Attr>) {
    && IsOpenTag(t.open) && TagName(t.open) == name && ReadAttrs(AttrPart(t.open)) == Some(attrs)
    && IsCloseTag(t.close) && t.close == CloseFor(t.open)
  }

  lemma TagParts(name: string, text: string)
    requires name != "" && name[0] != '/' && ' ' !in name && '>' !in name
    requires '>' !in text && (text == "" || text[0] == ' ')
    ensures var open := "<" + name + text + ">"; IsOpenTag(open) && TagName(open) == name && AttrPart(open) == text
  {
    var open := "<" + name + text + ">";
    assert open[..|open| - 1] == "<" + name + text;
    if text == "" {
      NameBeforeStop(name, '>', "");
      assert open[1..] == name + ['>'] + "";
    } else {
      NameBeforeStop(name, ' ', text[1..] + ">");
      assert open[1..] == name + [' '] + (text[1..] + ">");
    }
  }

  lemma ElementWhiteListed(name: string, attrs: seq<Attr>)
    requires name != "" && name[0] != '/' && ' ' !in name && '>' !in name
    requires AllPrintable(attrs)
    ensures WhiteListed(Element(name, attrs), name, Seen(attrs))
  {
    var t := Element(name, attrs);
    ReadBack(attrs);
    TagParts(name, AttrText(attrs));
    assert t.close[..|t.close| - 1] == "</" + name;
  }

  /** The element an entity is printed as. */
  function ElementOf(kind: Kind): string {
    match kind
    case Bold => "strong"
    case Italic => "em"
    case Underline => "u"
    case Strike => "s"
    case Code => "code"
    case Pre => "pre"
    case Blockquote => "blockquote"
    case Spoiler => "span"
    case Hashtag => "span"
    case _ => "a"
  }

  /** The attributes an entity is printed with, as a client reads them. */
  function AttrsOf(u: Unicode, kind: Kind, slice: string): seq<Attr>
    requires TagsFor(u, kind, slice).Some?
  {
    match kind
    case Spoiler => [Attr("class", "tg-spoiler")]
    case Hashtag => [Attr("class", "tg-hashtag")]
    case TextUrl(url) => [Attr("href", SanitizeHref(u, url).value)] + OUTSIDE
    case Url => [Attr("href", SanitizeHref(u, slice).value)] + OUTSIDE
    case Mention => MentionAttrs(StripAt(slice))
    case MentionName(userId) => MentionNameAttrs(userId.value)
    case _ => []
  }

  /** Whatever entity, text and link come in, the tags printed are one well-formed
      opening tag of a white-listed element with just the attributes meant, the link
      itself included, and its closing tag. */
  lemma TagsAreWhiteListed(u: Unicode, kind: Kind, slice: string)
    ensures TagsFor(u, kind, slice).Some? ==>
      WhiteListed(TagsFor(u, kind, slice).value, ElementOf(kind), AttrsOf(u, kind, slice))
  {
    if TagsFor(u, kind, slice).Some? {
      match kind
      case TextUrl(url) => LinkWhiteListed(SanitizeHref(u, url).value);
      case Url => LinkWhiteListed(SanitizeHref(u, slice).value);
      case Mention => MentionWhiteListed(u, StripAt(slice));
      case MentionName(userId) => MentionNameWhiteListed(userId.value);
      case Spoiler => ClassWhiteListed("tg-spoiler");
      case Hashtag => ClassWhiteListed("tg-hashtag");
      case _ => StyleWhiteListed(u, kind, slice);
    }
  }

  /** Printed as it is read. */
  predicate Plain(a: Attr) { Printable(a) && '&' !in a.value }

  predicate AllPlain(attrs: seq<Attr>) { forall k | 0 <= k < |attrs| :: Plain(attrs[k]) }

  lemma {:induction false} PlainSeen(attrs: seq<Attr>)
    requires AllPlain(attrs)
    ensures Seen(attrs) == attrs && AllPrintable(attrs)
  {
    if attrs != [] {
      UnescapePlain(attrs[0].value);
      PlainSeen(attrs[1..]);
    }
  }

  lemma PlainWhiteListed(name: string, attrs: seq<Attr>)
    requires name != "" && name[0] != '/' && ' ' !in name && '>' !in name && AllPlain(attrs)
    ensures WhiteListed(Element(name, attrs), name, attrs)
  {
    PlainSeen(attrs);
    ElementWhiteListed(name, attrs);
  }

  lemma ClassPlain(name: string)
    requires '&' !in name && '"' !in name && '>' !in name
    ensures Plain(Attr("class", name))
  {
  }

  lemma HrefPlain(scheme: string, rest: string)
    requires forall c | c in {'&', '"', '>'} :: c !in scheme && c !in rest
    ensures Plain(Attr("href", scheme + rest))
  {
  }

  lemma NoOpenerPlain()
    ensures Plain(NO_OPENER)
  {
  }

  lemma OutsidePlain()
    ensures AllPlain(OUTSIDE)
  {
    NoOpenerPlain();
  }

  lemma StyleWhiteListed(u: Unicode, kind: Kind, slice: string)
    requires !kind.Spoiler? && !kind.Hashtag? && !kind.TextUrl? && !kind.Url? && !kind.Mention? && !kind.MentionName?
      && !kind.Unknown?
    ensures WhiteListed(TagsFor(u, kind, slice).value, ElementOf(kind), [])
  {
    PlainWhiteListed(ElementOf(kind), []);
  }

  lemma ClassWhiteListed(name: string)
    requires '&' !in name && '"' !in name && '>' !in name
    ensures WhiteListed(Element("span", [Attr("class", name)]), "span", [Attr("class", name)])
  {
    ClassPlain(name);
    PlainWhiteListed("span", [Attr("class", name)]);
  }

  lemma FirstSeen(a: Attr, rest: seq<Attr>)
    requires Printable(a) && AllPlain(rest)
    ensures AllPrintable([a] + rest) && Seen([a] + rest) == [SeenOne(a)] + rest
  {
    PlainSeen(rest);
    assert ([a] + rest)[1..] == rest;
  }

  lemma LinkPrintable(href: string)
    ensures Printable(Attr("href", EscapeAttr(href))) && SeenOne(Attr("href", EscapeAttr(href))) == Attr("href", href)
  {
    EscapeAttrChars(href);
    UnescapeEscaped(href);
  }

  lemma LinkWhiteListed(href: string)
    ensures WhiteListed(Element("a", LinkAttrs(href)), "a", [Attr("href", href)] + OUTSIDE)
  {
    LinkPrintable(href);
    OutsidePlain();
    FirstSeen(Attr("href", EscapeAttr(href)), OUTSIDE);
    ElementWhiteListed("a", LinkAttrs(href));
  }

  lemma MentionWhiteListed(u: Unicode, username: string)
    requires IsValidUsername(u, username)
    ensures WhiteListed(Element("a", MentionAttrs(username)), "a", MentionAttrs(username))
  {
    UsernamePlain(u, username);
    ClassPlain("tg-mention");
    HrefPlain("https://t.me/", username);
    OutsidePlain();
    PlainWhiteListed("a", MentionAttrs(username));
  }

  lemma UsernamePlain(u: Unicode, username: string)
    requires IsValidUsername(u, username)
    ensures forall c | c in {'&', '"', '>'} :: c !in username
  {
    assert forall i | 0 <= i < |username| :: username[i] !in {'&', '"', '>'};
  }

  lemma MentionNameWhiteListed(userId: int)
    ensures WhiteListed(Element("a", MentionNameAttrs(userId)), "a", MentionNameAttrs(userId))
  {
    Decimal.ShowChars(userId, '>');
    Decimal.ShowChars(userId, '"');
    Decimal.ShowChars(userId, '&');
    ClassPlain("tg-mention");
    HrefPlain("tg://user?id=", Decimal.Show(userId));
    PlainWhiteListed("a", MentionNameAttrs(userId));
  }

  // ---- tokens ---------------------------------------------------------------

  datatype Token = Chr(c: char) | Open(tag: string) | Close(tag: string)

  function Print(t: Token): string {
    match t
    case Chr(c) => EscapeChar(c)
    case Open(tag) => tag
    case Close(tag) => tag
  }

  function PrintAll(ts: seq<Token>): string {
    if ts == [] then "" else Print(ts[0]) + PrintAll(ts[1..])
  }

  predicate IsToken(t: Token) {
    match t
    case Chr(_) => true
    case Open(tag) => IsOpenTag(tag)
    case Close(tag) => IsCloseTag(tag)
  }

  predicate AreTokens(ts: seq<Token>) { forall i | 0 <= i < |ts| :: IsToken(ts[i]) }

  /** Length of the tag at the head of `s`, or 0 if no `>` follows. */
  function TagLen(s: string): (n: nat)
    ensures n <= |s|
  {
    if s == "" then 0
    else if s[0] == '>' then 1
    else var n := TagLen(s[1..]); if n == 0 then 0 else n + 1
  }

  /** Reads one token off the head of a string, as an HTML client would. */
  function LexOne(s: string): (r: Option<(Token, nat)>)
    requires s != ""
    ensures r.Some? ==> 0 < r.value.1 <= |s|
  {
    if s[0] == '<' then
      var n := TagLen(s);
      if n < 3 then None
      else if s[1] == '/' then Some((Close(s[..n]), n))
      else Some((Open(s[..n]), n))
    else if s[0] == '&' then
      if StartsWith(s, "&amp;") then Some((Chr('&'), 5))
      else if StartsWith(s, "&lt;") then Some((Chr('<'), 4))
      else if StartsWith(s, "&gt;") then Some((Chr('>'), 4))
      else None
    else if s[0] == '>' then None
    else Some((Chr(s[0]), 1))
  }

  function Lex(s: string): Option<seq<Token>>
    decreases |s|
  {
    if s == "" then Some([])
    else
      var one := LexOne(s);
      if one.None? then None
      else
        var rest := Lex(s[one.value.1..]);
        if rest.None? then None else Some([one.value.0] + rest.value)
  }

  lemma {:induction false} TagLenOfTag(body: string, rest: string)
    requires '>' !in body
    ensures TagLen(body + ">" + rest) == |body| + 1
  {
    if body != "" {
      TagLenOfTag(body[1..], rest);
      assert (body + ">" + rest)[1..] == body[1..] + ">" + rest;
    }
  }

  lemma LexOnePrinted(t: Token, rest: string)
    requires IsToken(t)
    ensures Print(t) != "" && LexOne(Print(t) + rest) == Some((t, |Print(t)|))
  {
    var s := Print(t) + rest;
    match t
    case Chr(c) =>
      if c == '&' {
        assert s[..5] == "&amp;";
      } else if c == '<' {
        assert s[..4] == "&lt;";
        assert s[1] == 'l';
      } else if c == '>' {
        assert s[..4] == "&gt;";
        assert s[1] == 'g';
      }
    case Open(tag) =>
      TagLenOfTag(tag[..|tag| - 1], rest);
      assert s == tag[..|tag| - 1] + ">" + rest;
    case Close(tag) =>
      TagLenOfTag(tag[..|tag| - 1], rest);
      assert s == tag[..|tag| - 1] + ">" + rest;
  }

  /** A printed token list is read back exactly: no text can pass for a tag. */
  lemma {:induction false} LexPrint(ts: seq<Token>)
    requires AreTokens(ts)
    ensures Lex(PrintAll(ts)) == Some(ts)
  {
    if ts != [] {
      var s, n := PrintAll(ts), |Print(ts[0])|;
      LexOnePrinted(ts[0], PrintAll(ts[1..]));
      assert s[n..] == PrintAll(ts[1..]);
      LexPrint(ts[1..]);
      assert LexOne(s) == Some((ts[0], n));
      assert [ts[0]] + ts[1..] == ts;
    }
  }

  lemma {:induction false} PrintAppend(a: seq<Token>, b: seq<Token>)
    ensures PrintAll(a + b) == PrintAll(a) + PrintAll(b)
  {
    if a == [] {
      assert a + b == b;
    } else {
      assert (a + b)[1..] == a[1..] + b;
      PrintAppend(a[1..], b);
    }
  }

  /** What is left of a token list when its tags are dropped. */
  function TextOf(ts: seq<Token>): string {
    if ts == [] then ""
    else TextOf(ts[..|ts| - 1]) + (if ts[|ts| - 1].Chr? then [ts[|ts| - 1].c] else "")
  }
}
