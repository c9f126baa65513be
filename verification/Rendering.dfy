/** What a client sees of a rendered text: which characters each entity covers, as which
    element, and with which attributes, said without the renderer's own functions. */
module Rendering {
  import opened Prelude
  import opened Markup
  import opened TextHtml
  import Decimal
  import Sorting
  import Utf16

  // ---- what an entity means -------------------------------------------------------------

  /** A link's text is white space around `bare`, and its href is `bare` itself or, without
      an allowed scheme, `bare` behind `https://`. */
  predicate LinkParts(u: Unicode, url: string, left: string, bare: string, right: string, href: string) {
    && url == left + bare + right && AllSpace(u, left) && AllSpace(u, right) && Bare(u, bare)
    && !OtherScheme(u, bare)
    && href == (if HasScheme(Lower(u, bare), ALLOWED_SCHEMES) then "" else "https://") + bare
  }

  ghost predicate LinkMeant(u: Unicode, url: string, attrs: seq<Attr>) {
    exists left, bare, right, href | LinkParts(u, url, left, bare, right, href) ::
      attrs == [Attr("href", href), Attr("rel", "noopener noreferrer"), Attr("target", "_blank")]
  }

  /** One to 64 letters, digits and underscores. */
  predicate IsName(u: Unicode, s: string) {
    1 <= |s| <= 64 && forall i | 0 <= i < |s| :: IsAlnum(u, s[i]) || s[i] == '_'
  }

  /** At signs and a name behind them. */
  predicate NamedAt(u: Unicode, slice: string, k: nat) {
    k <= |slice| && (forall i | 0 <= i < k :: slice[i] == '@') && IsName(u, slice[k..])
  }

  predicate MentionAt(u: Unicode, slice: string, k: nat, attrs: seq<Attr>) {
    && NamedAt(u, slice, k)
    && attrs == [Attr("class", "tg-mention"), Attr("href", "https://t.me/" + slice[k..]),
                 Attr("rel", "noopener noreferrer"), Attr("target", "_blank")]
  }

  /** The element and the attributes that a client is to read for an entity over `slice`. */
  ghost predicate Meant(u: Unicode, kind: Kind, slice: string, name: string, attrs: seq<Attr>) {
    match kind
    case Bold => name == "strong" && attrs == []
    case Italic => name == "em" && attrs == []
    case Underline => name == "u" && attrs == []
    case Strike => name == "s" && attrs == []
    case Code => name == "code" && attrs == []
    case Pre => name == "pre" && attrs == []
    case Blockquote => name == "blockquote" && attrs == []
    case Spoiler => name == "span" && attrs == [Attr("class", "tg-spoiler")]
    case Hashtag => name == "span" && attrs == [Attr("class", "tg-hashtag")]
    case TextUrl(url) => name == "a" && LinkMeant(u, url, attrs)
    case Url => name == "a" && LinkMeant(u, slice, attrs)
    case Mention => name == "a" && exists k: nat :: MentionAt(u, slice, k, attrs)
    case MentionName(id) =>
      && id.Some? && id.value > 0 && name == "a"
      && attrs == [Attr("class", "tg-mention"), Attr("href", "tg://user?id=" + Decimal.Show(id.value))]
    case Unknown => false
  }

  lemma LinkIff(u: Unicode, url: string, attrs: seq<Attr>)
    ensures LinkMeant(u, url, attrs) <==>
      && SanitizeHref(u, url).Some?
      && attrs == [Attr("href", SanitizeHref(u, url).value), Attr("rel", "noopener noreferrer"),
                   Attr("target", "_blank")]
  {
    if LinkMeant(u, url, attrs) {
      var left, bare, right, href :| LinkParts(u, url, left, bare, right, href)
        && attrs == [Attr("href", href), Attr("rel", "noopener noreferrer"), Attr("target", "_blank")];
      KeptLink(u, left, bare, right);
    }
    if SanitizeHref(u, url).Some? {
      var left, bare, right := Parts(u, url);
      KeptLink(u, left, bare, right);
      assert LinkParts(u, url, left, bare, right, SanitizeHref(u, url).value);
    }
  }

  lemma MentionIff(u: Unicode, slice: string, attrs: seq<Attr>)
    ensures (exists k: nat :: MentionAt(u, slice, k, attrs)) <==>
      IsValidUsername(u, StripAt(slice)) && attrs == MentionAttrs(StripAt(slice))
  {
    if k: nat :| MentionAt(u, slice, k, attrs) {
      assert slice[k] == slice[k..][0];
      StripsAts(slice, k);
    }
    if IsValidUsername(u, StripAt(slice)) && attrs == MentionAttrs(StripAt(slice)) {
      var k := AtsBefore(slice);
      assert MentionAt(u, slice, k, attrs);
    }
  }

  lemma OneReading(t: Tags, name: string, attrs: seq<Attr>, name': string, attrs': seq<Attr>)
    requires WhiteListed(t, name, attrs)
    ensures WhiteListed(t, name', attrs') <==> name' == name && attrs' == attrs
  {
  }

  lemma StyleMeant(u: Unicode, kind: Kind, slice: string, name: string, attrs: seq<Attr>)
    requires !kind.TextUrl? && !kind.Url? && !kind.Mention? && !kind.MentionName?
    ensures Meant(u, kind, slice, name, attrs) <==>
      TagsFor(u, kind, slice).Some? && name == ElementOf(kind) && attrs == AttrsOf(u, kind, slice)
  {
  }

  lemma AnchorMeant(u: Unicode, kind: Kind, slice: string, name: string, attrs: seq<Attr>)
    requires kind.TextUrl? || kind.Url? || kind.Mention? || kind.MentionName?
    ensures Meant(u, kind, slice, name, attrs) <==>
      TagsFor(u, kind, slice).Some? && name == ElementOf(kind) && attrs == AttrsOf(u, kind, slice)
  {
    match kind
    case TextUrl(url) => LinkIff(u, url, attrs);
    case Url => LinkIff(u, slice, attrs);
    case Mention => MentionIff(u, slice, attrs);
    case MentionName(_) =>
  }

  /** An entity is printed as the tags of an element exactly when it means one, and a
      client reads from them just that element and those attributes. */
  lemma PrintedAsMeant(u: Unicode, kind: Kind, slice: string, name: string, attrs: seq<Attr>)
    ensures Meant(u, kind, slice, name, attrs) <==>
      TagsFor(u, kind, slice).Some? && WhiteListed(TagsFor(u, kind, slice).value, name, attrs)
  {
    if kind.TextUrl? || kind.Url? || kind.Mention? || kind.MentionName? {
      AnchorMeant(u, kind, slice, name, attrs);
    } else {
      StyleMeant(u, kind, slice, name, attrs);
    }
    if TagsFor(u, kind, slice).Some? {
      TagsAreWhiteListed(u, kind, slice);
      OneReading(TagsFor(u, kind, slice).value, ElementOf(kind), AttrsOf(u, kind, slice), name, attrs);
    }
  }

  // ---- which characters it covers -------------------------------------------------------

  /** The character's first code unit lies in the entity's range. */
  predicate Covers(text: string, e: Entity, k: nat)
    requires k < |text|
  {
    e.offset <= Utf16.UnitLen(text, k) < e.offset + e.length
  }

  lemma CoveredIff(text: string, e: Entity, k: nat)
    requires k < |text|
    ensures Covers(text, e, k) <==>
      Utf16.Utf16ToChar(text, e.offset) <= k < Utf16.Utf16ToChar(text, e.offset + e.length)
  {
    Utf16.OffsetIsLeastCover(text, e.offset, k);
    Utf16.OffsetIsLeastCover(text, e.offset + e.length, k);
  }

  /** The characters from `a` to `b` are those an entity covers. */
  predicate CoversJust(text: string, e: Entity, a: nat, b: nat) {
    a < b <= |text| && forall k | 0 <= k < |text| :: Covers(text, e, k) <==> a <= k < b
  }

  lemma RangeIff(text: string, e: Entity, a: nat, b: nat)
    ensures CoversJust(text, e, a, b) <==>
      Utf16.Utf16ToChar(text, e.offset) == a && Utf16.Utf16ToChar(text, e.offset + e.length) == b && a < b
  {
    Utf16.OffsetIsLeastCover(text, e.offset, |text|);
    Utf16.OffsetIsLeastCover(text, e.offset + e.length, |text|);
    forall k | 0 <= k < |text|
      ensures Covers(text, e, k) <==>
        Utf16.Utf16ToChar(text, e.offset) <= k < Utf16.Utf16ToChar(text, e.offset + e.length)
    {
      CoveredIff(text, e, k);
    }
    if CoversJust(text, e, a, b) {
      assert Covers(text, e, a) && Covers(text, e, b - 1);
      assert a > 0 ==> !Covers(text, e, a - 1);
      assert b < |text| ==> !Covers(text, e, b);
    }
  }

  /** The span a client sees: these characters, in this element with these attributes. */
  ghost predicate Seen(u: Unicode, text: string, e: Entity, s: Span, name: string, attrs: seq<Attr>) {
    && CoversJust(text, e, s.start, s.end) && Meant(u, e.kind, text[s.start..s.end], name, attrs)
    && WhiteListed(Tags(s.open, s.close), name, attrs)
  }

  lemma SpanOfRange(u: Unicode, text: string, e: Entity, a: nat, b: nat)
    requires CoversJust(text, e, a, b)
    ensures var tags := TagsFor(u, e.kind, text[a..b]);
      ConvertOne(u, text, e) == if tags.None? then None else Some(Span(a, b, tags.value.open, tags.value.close))
  {
    RangeIff(text, e, a, b);
  }

  lemma RangeOfSpan(u: Unicode, text: string, e: Entity) returns (a: nat, b: nat)
    requires ConvertOne(u, text, e).Some?
    ensures CoversJust(text, e, a, b)
  {
    a, b := ConvertOne(u, text, e).value.start, ConvertOne(u, text, e).value.end;
    RangeIff(text, e, a, b);
  }

  lemma MeantSpan(u: Unicode, text: string, e: Entity, a: nat, b: nat, name: string, attrs: seq<Attr>)
    returns (s: Span)
    requires CoversJust(text, e, a, b) && Meant(u, e.kind, text[a..b], name, attrs)
    ensures ConvertOne(u, text, e) == Some(s) && Seen(u, text, e, s, name, attrs)
  {
    SpanOfRange(u, text, e, a, b);
    PrintedAsMeant(u, e.kind, text[a..b], name, attrs);
    s := ConvertOne(u, text, e).value;
  }

  lemma SpanMeant(u: Unicode, text: string, e: Entity) returns (name: string, attrs: seq<Attr>)
    requires ConvertOne(u, text, e).Some?
    ensures Seen(u, text, e, ConvertOne(u, text, e).value, name, attrs)
  {
    var a, b := RangeOfSpan(u, text, e);
    SpanOfRange(u, text, e, a, b);
    var slice := text[a..b];
    name, attrs := ElementOf(e.kind), AttrsOf(u, e.kind, slice);
    TagsAreWhiteListed(u, e.kind, slice);
    PrintedAsMeant(u, e.kind, slice, name, attrs);
  }

  /** An entity becomes a span exactly when it covers some characters and means an element
      over them; the span is over just those characters and is read as just that. */
  lemma ConvertedAsMeant(u: Unicode, text: string, e: Entity)
    ensures ConvertOne(u, text, e).Some? <==> exists a: nat, b: nat, name, attrs ::
      CoversJust(text, e, a, b) && Meant(u, e.kind, text[a..b], name, attrs)
    ensures ConvertOne(u, text, e).Some? ==> exists name, attrs ::
      Seen(u, text, e, ConvertOne(u, text, e).value, name, attrs)
  {
    if ConvertOne(u, text, e).Some? {
      var name, attrs := SpanMeant(u, text, e);
    }
    if a: nat, b: nat, name, attrs :| CoversJust(text, e, a, b) && Meant(u, e.kind, text[a..b], name, attrs) {
      var s := MeantSpan(u, text, e, a, b, name, attrs);
    }
  }

  // ---- the whole text -------------------------------------------------------------------

  /** `at` lists, in order, the entities that become spans. */
  ghost predicate Chosen(u: Unicode, text: string, entities: seq<Entity>, at: seq<nat>) {
    && Rises(at, |entities|)
    && (forall i: nat | i < |entities| :: i in at <==> ConvertOne(u, text, entities[i]).Some?)
  }

  /** `spans` are theirs. */
  ghost predicate Theirs(u: Unicode, text: string, entities: seq<Entity>, at: seq<nat>, spans: seq<Span>) {
    && Rises(at, |entities|) && |spans| == |at|
    && (forall i | 0 <= i < |at| :: ConvertOne(u, text, entities[at[i]]) == Some(spans[i]))
  }

  lemma ChosenNext(u: Unicode, text: string, front: seq<Entity>, e: Entity, at: seq<nat>, spans: seq<Span>)
    requires Chosen(u, text, front, at) && Theirs(u, text, front, at, spans)
    ensures var one := ConvertOne(u, text, e);
      var (at', spans') := if one.Some? then (at + [|front|], spans + [one.value]) else (at, spans);
      Chosen(u, text, front + [e], at') && Theirs(u, text, front + [e], at', spans')
  {
    assert forall i: nat | i < |front| :: (front + [e])[i] == front[i];
  }

  /** The spans are those of the entities that mean something, one each, in their order. */
  lemma {:induction false} ConvertedAre(u: Unicode, text: string, entities: seq<Entity>) returns (at: seq<nat>)
    ensures Chosen(u, text, entities, at) && Theirs(u, text, entities, at, Convert(u, text, entities))
  {
    at := [];
    if entities != [] {
      var front, e := entities[..|entities| - 1], entities[|entities| - 1];
      at := ConvertedAre(u, text, front);
      ChosenNext(u, text, front, e, at, Convert(u, text, front));
      assert entities == front + [e];
      at := if ConvertOne(u, text, e).Some? then at + [|front|] else at;
    }
  }

  /** What a client gets of a rendered text whose spans do not cross: the text, and over it
      a span for each entity that means something, of the characters it covers, as the
      element and with the attributes it means, and no other. */
  lemma ClientReads(u: Unicode, text: string, entities: seq<Entity>, html: string)
    requires Renders(html, text, Convert(u, text, entities)) && Laminar(Convert(u, text, entities))
    ensures Parse(html).Some? && Parse(html).value.text == text
    ensures forall s | s in Parse(html).value.spans ::
      exists i, name, attrs :: 0 <= i < |entities| && Seen(u, text, entities[i], s, name, attrs)
    ensures forall i, a: nat, b: nat, name, attrs | 0 <= i < |entities|
      && CoversJust(text, entities[i], a, b) && Meant(u, entities[i].kind, text[a..b], name, attrs) ::
      exists s :: s in Parse(html).value.spans && Seen(u, text, entities[i], s, name, attrs)
    ensures exists at :: Chosen(u, text, entities, at) && |at| == |Parse(html).value.spans|
  {
    var spans := Convert(u, text, entities);
    var at := ConvertedAre(u, text, entities);
    SortContents(spans);
    assert |multiset(TextHtml.Sort(spans))| == |multiset(spans)|;
    forall s | s in spans
      ensures exists i, name, attrs :: 0 <= i < |entities| && Seen(u, text, entities[i], s, name, attrs)
    {
      var j :| 0 <= j < |spans| && spans[j] == s;
      ConvertedAsMeant(u, text, entities[at[j]]);
    }
    forall i, a: nat, b: nat, name, attrs | 0 <= i < |entities|
      && CoversJust(text, entities[i], a, b) && Meant(u, entities[i].kind, text[a..b], name, attrs)
      ensures exists s :: s in spans && Seen(u, text, entities[i], s, name, attrs)
    {
      var s := MeantSpan(u, text, entities[i], a, b, name, attrs);
      var j :| 0 <= j < |at| && at[j] == i;
      assert spans[j] in spans;
    }
  }
}
