/** `entities_to_html`: one sweep over the text with a stack of pending closing
    tags, and the parser that reads its output back. */
module TextHtml {
  import opened Prelude
  import opened Markup
  import Sorting
  import Utf16

  /** One converted entity: character range and tags. */
  datatype Span = Span(start: nat, end: nat, open: string, close: string)

  datatype Entity = Entity(offset: int, length: int, kind: Kind)

  predicate InText(text: string, s: Span) {
    && s.start < s.end <= |text|
    && IsOpenTag(s.open) && IsCloseTag(s.close) && s.close == CloseFor(s.open)
  }

  predicate AllInText(text: string, spans: seq<Span>) {
    forall s | s in spans :: InText(text, s)
  }

  // ---- conversion -------------------------------------------------------------

  function ConvertOne(u: Unicode, text: string, e: Entity): Option<Span> {
    var start, end := Utf16.Utf16ToChar(text, e.offset), Utf16.Utf16ToChar(text, e.offset + e.length);
    if start >= end || start < 0 || end > |text| then None
    else
      var tags := TagsFor(u, e.kind, text[start..end]);
      if tags.None? then None else Some(Span(start, end, tags.value.open, tags.value.close))
  }

  function Convert(u: Unicode, text: string, entities: seq<Entity>): seq<Span> {
    if entities == [] then []
    else
      var last := ConvertOne(u, text, entities[|entities| - 1]);
      Convert(u, text, entities[..|entities| - 1]) + (if last.None? then [] else [last.value])
  }

  lemma {:induction false} ConvertedInText(u: Unicode, text: string, entities: seq<Entity>)
    ensures AllInText(text, Convert(u, text, entities))
  {
    if entities != [] {
      var e := entities[|entities| - 1];
      ConvertedInText(u, text, entities[..|entities| - 1]);
      if ConvertOne(u, text, e).Some? {
        var start, end := Utf16.Utf16ToChar(text, e.offset), Utf16.Utf16ToChar(text, e.offset + e.length);
        TagsAreWhiteListed(u, e.kind, text[start..end]);
      }
    }
  }

  // ---- sorting ----------------------------------------------------------------

  /** The sort key: by start, the longer span first. */
  predicate Before(a: Span, b: Span) {
    a.start < b.start || (a.start == b.start && a.end >= b.end)
  }

  /** `converted.sort(...)`. */
  function Sort(s: seq<Span>): seq<Span> { Sorting.Sort(s, Before) }

  predicate Sorted(s: seq<Span>) { Sorting.Ordered(s, Before) }

  lemma SortContents(s: seq<Span>)
    ensures Sorted(Sort(s)) && multiset(Sort(s)) == multiset(s)
    ensures forall x :: x in Sort(s) <==> x in s
  {
    Sorting.SortOrdered(s, Before);
    Sorting.SortContents(s, Before);
  }

  /** The sort is a permutation, ordered by the key, and stable: spans over the
      same characters keep the order Telegram listed them in. */
  lemma SortIsStable(s: seq<Span>, start: nat, end: nat)
    ensures Sorted(Sort(s)) && multiset(Sort(s)) == multiset(s)
    ensures var here := (x: Span) => x.start == start && x.end == end;
      Sorting.Filter(Sort(s), here) == Sorting.Filter(s, here)
  {
    SortContents(s);
    Sorting.SortStable(s, Before, (x: Span) => x.start == start && x.end == end);
  }

  // ---- crossing ---------------------------------------------------------------

  /** Two spans cross when they overlap and neither contains the other. */
  predicate Cross(a: Span, b: Span) {
    a.start < b.start < a.end < b.end
  }

  predicate Laminar(spans: seq<Span>) {
    forall a, b | a in spans && b in spans :: !Cross(a, b)
  }

  predicate EntitiesCross(a: Entity, b: Entity) {
    a.offset < b.offset < a.offset + a.length < b.offset + b.length
  }

  lemma CrossingComesFromEntities(u: Unicode, text: string, a: Entity, b: Entity)
    requires ConvertOne(u, text, a).Some? && ConvertOne(u, text, b).Some?
    requires Cross(ConvertOne(u, text, a).value, ConvertOne(u, text, b).value)
    ensures EntitiesCross(a, b)
  {
    if b.offset <= a.offset {
      Utf16.Monotone(text, b.offset, a.offset);
    }
    if a.offset + a.length <= b.offset {
      Utf16.Monotone(text, a.offset + a.length, b.offset);
    }
    if b.offset + b.length <= a.offset + a.length {
      Utf16.Monotone(text, b.offset + b.length, a.offset + a.length);
    }
  }

  lemma {:induction false} ConvertedFrom(u: Unicode, text: string, entities: seq<Entity>, s: Span) returns (e: Entity)
    requires s in Convert(u, text, entities)
    ensures e in entities && ConvertOne(u, text, e) == Some(s)
  {
    e := entities[|entities| - 1];
    if ConvertOne(u, text, e) != Some(s) {
      e := ConvertedFrom(u, text, entities[..|entities| - 1], s);
    }
  }

  /** Entities whose code-unit ranges are nested or disjoint are converted to
      spans that are nested or disjoint. */
  lemma NestedEntitiesGiveLaminarSpans(u: Unicode, text: string, entities: seq<Entity>)
    requires forall a, b | a in entities && b in entities :: !EntitiesCross(a, b)
    ensures Laminar(Convert(u, text, entities))
  {
    var spans := Convert(u, text, entities);
    forall s, t | s in spans && t in spans
      ensures !Cross(s, t)
    {
      var a := ConvertedFrom(u, text, entities, s);
      var b := ConvertedFrom(u, text, entities, t);
      if Cross(s, t) {
        CrossingComesFromEntities(u, text, a, b);
      }
    }
  }

  // ---- parsing ----------------------------------------------------------------

  /** A document: its text, and its elements in the order they are opened. */
  datatype Doc = Doc(text: string, spans: seq<Span>)

  /** A parser in mid-document; `stack` holds the elements still open. */
  datatype Parser = Parser(doc: Doc, stack: seq<nat>)

  function Read(p: Parser, t: Token): Option<Parser> {
    var n := |p.doc.text|;
    match t
    case Chr(c) => Some(p.(doc := p.doc.(text := p.doc.text + [c])))
    case Open(tag) =>
      if !IsTag(tag) then None
      else Some(Parser(p.doc.(spans := p.doc.spans + [Span(n, n, tag, CloseFor(tag))]),
                       p.stack + [|p.doc.spans|]))
    case Close(tag) =>
      if p.stack == [] then None
      else
        var top := p.stack[|p.stack| - 1];
        if top >= |p.doc.spans| || tag != p.doc.spans[top].close then None
        else Some(Parser(p.doc.(spans := p.doc.spans[top := p.doc.spans[top].(end := n)]),
                         p.stack[..|p.stack| - 1]))
  }

  function ReadAll(ts: seq<Token>): Option<Parser> {
    if ts == [] then Some(Parser(Doc("", []), []))
    else
      var p := ReadAll(ts[..|ts| - 1]);
      if p.None? then None else Read(p.value, ts[|ts| - 1])
  }

  /** Parses markup whose elements must be closed by name, innermost first, with
      none left open. */
  function Parse(html: string): Option<Doc> {
    var ts := Lex(html);
    if ts.None? then None
    else
      var p := ReadAll(ts.value);
      if p.Some? && p.value.stack == [] then Some(p.value.doc) else None
  }

  ghost predicate WellFormed(p: Parser) {
    && (forall k | 0 <= k < |p.stack| :: p.stack[k] < |p.doc.spans|)
    && (forall k, l | 0 <= k < l < |p.stack| :: p.stack[k] < p.stack[l])
    && (forall i | 0 <= i < |p.doc.spans| :: p.doc.spans[i].start <= |p.doc.text|)
    && (forall i | 0 <= i < |p.doc.spans| && i !in p.stack :: p.doc.spans[i].end <= |p.doc.text|)
  }

  lemma ReadKeepsWellFormed(p: Parser, t: Token, q: Parser)
    requires WellFormed(p) && Read(p, t) == Some(q)
    ensures WellFormed(q)
  {
    if t.Close? {
      var top := p.stack[|p.stack| - 1];
      forall i | 0 <= i < |q.doc.spans| && i !in q.stack
        ensures q.doc.spans[i].end <= |q.doc.text|
      {
        assert i in p.stack ==> i == top;
      }
    } else if t.Open? {
      forall i | 0 <= i < |q.doc.spans| && i !in q.stack
        ensures i < |p.doc.spans| && i !in p.stack
      {
        assert q.stack[|q.stack| - 1] == |p.doc.spans|;
        assert q.stack[..|p.stack|] == p.stack;
      }
    }
  }

  lemma {:induction false} ReadIsWellFormed(ts: seq<Token>)
    requires ReadAll(ts).Some?
    ensures WellFormed(ReadAll(ts).value)
  {
    if ts != [] {
      ReadIsWellFormed(ts[..|ts| - 1]);
      ReadKeepsWellFormed(ReadAll(ts[..|ts| - 1]).value, ts[|ts| - 1], ReadAll(ts).value);
    }
  }

  /** `q` is reached from `p` by reading a character and more tokens after it. */
  ghost predicate ReadPast(p: Parser, q: Parser) {
    var n := |p.doc.text|;
    && n < |q.doc.text| && |p.doc.spans| <= |q.doc.spans|
    && (forall i | 0 <= i < |p.doc.spans| :: q.doc.spans[i].start == p.doc.spans[i].start)
    && (forall i | 0 <= i < |p.doc.spans| && i !in p.stack :: i !in q.stack && q.doc.spans[i].end <= n)
    && (forall i | 0 <= i < |p.doc.spans| && i in p.stack && i !in q.stack :: q.doc.spans[i].end > n)
    && (forall i | |p.doc.spans| <= i < |q.doc.spans| :: q.doc.spans[i].start > n)
  }

  lemma ReadPastMore(p: Parser, m: Parser, t: Token, q: Parser)
    requires WellFormed(m) && ReadPast(p, m) && Read(m, t) == Some(q)
    ensures ReadPast(p, q)
  {
    if t.Close? {
      var top := m.stack[|m.stack| - 1];
      assert forall i | i in m.stack && i !in q.stack :: i == top;
      assert forall i | i in q.stack :: i in m.stack;
    } else if t.Open? {
      assert forall i | i in m.stack :: i in q.stack;
    }
  }

  lemma {:induction false} ReadPastCharacter(a: seq<Token>, c: char, b: seq<Token>)
    requires ReadAll(a + [Chr(c)] + b).Some?
    ensures ReadAll(a).Some? && ReadPast(ReadAll(a).value, ReadAll(a + [Chr(c)] + b).value)
    decreases |b|
  {
    var ts := a + [Chr(c)] + b;
    var front := ts[..|ts| - 1];
    ReadIsWellFormed(front);
    if b == [] {
      assert front == a;
    } else {
      assert front == a + [Chr(c)] + b[..|b| - 1];
      ReadPastCharacter(a, c, b[..|b| - 1]);
      ReadPastMore(ReadAll(a).value, ReadAll(front).value, ts[|ts| - 1], ReadAll(ts).value);
    }
  }

  /** The element ranges of a parsed document say which elements a character is
      inside of: those, and no others, are open when the character is read, the
      outer ones first. */
  lemma OpenElementsCover(a: seq<Token>, c: char, b: seq<Token>, doc: Doc)
    requires ReadAll(a + [Chr(c)] + b) == Some(Parser(doc, []))
    ensures ReadAll(a).Some?
    ensures var p := ReadAll(a).value;
      && (forall k, l | 0 <= k < l < |p.stack| :: p.stack[k] < p.stack[l])
      && forall i | 0 <= i < |doc.spans| :: i in p.stack <==> doc.spans[i].start <= |p.doc.text| < doc.spans[i].end
  {
    ReadPastCharacter(a, c, b);
    ReadIsWellFormed(a);
  }

  // ---- the sweep --------------------------------------------------------------

  datatype Pending = Pending(end: nat, close: string)

  predicate Crossed(spans: seq<Span>, i: nat) {
    i < |spans| && exists j | i < j < |spans| :: Cross(spans[i], spans[j])
  }

  predicate SameTags(a: Span, b: Span) {
    a.start == b.start && a.open == b.open && a.close == b.close
  }

  /** The spans opened so far, as parsed: complete once they left the stack. */
  ghost predicate SpansRead(spans: seq<Span>, idx: nat, p: Parser) {
    && idx <= |spans| && |p.doc.spans| == idx
    && (forall i | 0 <= i < idx :: SameTags(p.doc.spans[i], spans[i]))
    && (forall i | 0 <= i < idx && i !in p.stack :: p.doc.spans[i].end == spans[i].end)
  }

  /** The sweep's stack of pending closing tags is the parser's stack. */
  ghost predicate SameStack(spans: seq<Span>, idx: nat, stack: seq<Pending>, open: seq<nat>) {
    && |stack| == |open| && idx <= |spans|
    && (forall k | 0 <= k < |open| :: open[k] < idx)
    && (forall k, l | 0 <= k < l < |open| :: open[k] < open[l])
    && (forall k | 0 <= k < |open| :: stack[k] == Pending(spans[open[k]].end, spans[open[k]].close))
  }

  /** The strings put out are the tokens, which the parser has read. */
  ghost predicate Printed(out: seq<string>, ts: seq<Token>, p: Parser) {
    && AreTokens(ts) && ReadAll(ts) == Some(p)
    && TextOf(ts) == p.doc.text && Join(out) == PrintAll(ts)
  }

  /** Which spans are still open: none that ends after `hi` is closed already, and
      a crossed one stays open for good; without crossings those that ended by
      `lo` are all closed. */
  ghost predicate StillOpen(spans: seq<Span>, idx: nat, open: seq<nat>, hi: int, lo: int) {
    && idx <= |spans|
    && (forall i | 0 <= i < idx && spans[i].end > hi :: i in open)
    && (forall i | 0 <= i < idx && Crossed(spans, i) :: i in open)
    && (Laminar(spans) ==> forall k | 0 <= k < |open| && open[k] < |spans| :: spans[open[k]].end > lo)
  }

  /** The spans opened are those that start before `pos`. */
  ghost predicate Reached(spans: seq<Span>, idx: nat, pos: int) {
    && idx <= |spans|
    && (forall i | 0 <= i < idx :: spans[i].start < pos)
    && (forall i | idx <= i < |spans| :: spans[i].start >= pos)
  }

  /** Spans that start at `pos` are being opened. */
  ghost predicate Opening(spans: seq<Span>, idx: nat, pos: int) {
    && idx <= |spans|
    && (forall i | 0 <= i < idx :: spans[i].start <= pos)
    && (forall i | idx <= i < |spans| :: spans[i].start >= pos)
  }

  lemma PrintMore(out: seq<string>, ts: seq<Token>, p: Parser, t: Token, p': Parser)
    requires Printed(out, ts, p) && IsToken(t) && Read(p, t) == Some(p')
    ensures Printed(out + [Print(t)], ts + [t], p')
  {
    assert (ts + [t])[..|ts|] == ts;
    JoinAppend(out, [Print(t)]);
    PrintAppend(ts, [t]);
    assert Join([Print(t)]) == Print(t) + Join([]);
    assert PrintAll([t]) == Print(t) + PrintAll([]);
  }

  lemma ClosingStep(text: string, spans: seq<Span>, idx: nat, stack: seq<Pending>, p: Parser)
    returns (p': Parser)
    requires AllInText(text, spans)
    requires SpansRead(spans, idx, p) && SameStack(spans, idx, stack, p.stack)
    requires stack != [] && stack[|stack| - 1].end == |p.doc.text|
    ensures var close := stack[|stack| - 1].close; IsCloseTag(close) && Read(p, Close(close)) == Some(p')
    ensures SpansRead(spans, idx, p') && SameStack(spans, idx, stack[..|stack| - 1], p'.stack)
    ensures p'.doc.text == p.doc.text && p'.stack == p.stack[..|p.stack| - 1]
  {
    var top := p.stack[|p.stack| - 1];
    assert spans[top] in spans && InText(text, spans[top]);
    assert SameTags(p.doc.spans[top], spans[top]);
    p' := Read(p, Close(stack[|stack| - 1].close)).value;
    forall i | 0 <= i < idx && i !in p'.stack
      ensures p'.doc.spans[i].end == spans[i].end
    {
      if i in p.stack {
        assert i == top;
      }
    }
  }

  lemma OpeningStep(text: string, spans: seq<Span>, idx: nat, stack: seq<Pending>, p: Parser)
    returns (p': Parser)
    requires AllInText(text, spans)
    requires SpansRead(spans, idx, p) && SameStack(spans, idx, stack, p.stack)
    requires idx < |spans| && spans[idx].start == |p.doc.text|
    ensures IsOpenTag(spans[idx].open) && Read(p, Token.Open(spans[idx].open)) == Some(p')
    ensures SpansRead(spans, idx + 1, p')
    ensures SameStack(spans, idx + 1, stack + [Pending(spans[idx].end, spans[idx].close)], p'.stack)
    ensures p'.doc.text == p.doc.text && p'.stack == p.stack + [idx]
  {
    assert spans[idx] in spans && InText(text, spans[idx]);
    p' := Read(p, Token.Open(spans[idx].open)).value;
    forall i | 0 <= i < idx + 1 && i !in p'.stack
      ensures p'.doc.spans[i].end == spans[i].end
    {
      assert i !in p.stack;
      assert idx in p'.stack;
    }
  }

  /** A span on top of the stack that ends here is crossed by none. */
  lemma ClosingKeeps(spans: seq<Span>, idx: nat, stack: seq<Pending>, open: seq<nat>, pos: nat)
    requires SameStack(spans, idx, stack, open) && Reached(spans, idx, pos)
    requires StillOpen(spans, idx, open, pos, pos - 1)
    requires open != [] && spans[open[|open| - 1]].end == pos
    ensures StillOpen(spans, idx, open[..|open| - 1], pos, pos - 1)
  {
    var top := open[|open| - 1];
    assert !Crossed(spans, top);
    forall i | 0 <= i < idx && (spans[i].end > pos || Crossed(spans, i))
      ensures i in open[..|open| - 1]
    {
      var k :| 0 <= k < |open| && open[k] == i;
      assert open[..|open| - 1][k] == i;
    }
  }

  /** Without crossings the stack's ends do not grow towards the top, so once the
      top ends later everything below it does. */
  lemma NoneLeftHere(spans: seq<Span>, idx: nat, stack: seq<Pending>, open: seq<nat>, pos: nat)
    requires Sorted(spans) && SameStack(spans, idx, stack, open) && Reached(spans, idx, pos)
    requires StillOpen(spans, idx, open, pos, pos - 1)
    requires open == [] || spans[open[|open| - 1]].end != pos
    ensures StillOpen(spans, idx, open, pos, pos)
  {
    if Laminar(spans) && open != [] {
      var top := open[|open| - 1];
      forall k | 0 <= k < |open|
        ensures spans[open[k]].end > pos
      {
        if k < |open| - 1 {
          assert Before(spans[open[k]], spans[top]);
          assert spans[open[k]] in spans && spans[top] in spans;
          assert !Cross(spans[open[k]], spans[top]);
        }
      }
    }
  }

  lemma OpeningKeeps(spans: seq<Span>, idx: nat, open: seq<nat>, pos: nat)
    requires idx < |spans| && StillOpen(spans, idx, open, pos, pos) && spans[idx].end > pos
    ensures StillOpen(spans, idx + 1, open + [idx], pos, pos)
  {
    forall i | 0 <= i < idx + 1 && (spans[i].end > pos || Crossed(spans, i))
      ensures i in open + [idx]
    {
      if i < idx {
        assert i in open;
      }
    }
  }

  /** At the end of the text the stack is empty exactly when no two spans cross. */
  lemma EmptyIffLaminar(text: string, spans: seq<Span>, stack: seq<Pending>, open: seq<nat>)
    requires AllInText(text, spans) && Sorted(spans)
    requires SameStack(spans, |spans|, stack, open)
    requires StillOpen(spans, |spans|, open, |text|, |text|)
    ensures stack == [] <==> Laminar(spans)
  {
    EndsInText(text, spans);
    if open != [] {
      assert spans[open[0]].end <= |text|;
    }
    if !Laminar(spans) {
      CrossedStaysOpen(spans, open);
    }
  }

  lemma EndsInText(text: string, spans: seq<Span>)
    requires AllInText(text, spans)
    ensures forall i | 0 <= i < |spans| :: spans[i].start < spans[i].end <= |text|
  {
    forall i | 0 <= i < |spans|
      ensures spans[i].start < spans[i].end <= |text|
    {
      assert spans[i] in spans && InText(text, spans[i]);
    }
  }

  lemma CrossedStaysOpen(spans: seq<Span>, open: seq<nat>)
    requires Sorted(spans) && !Laminar(spans)
    requires forall i | 0 <= i < |spans| && Crossed(spans, i) :: i in open
    ensures open != []
  {
    var a, b :| a in spans && b in spans && Cross(a, b);
    var i :| 0 <= i < |spans| && spans[i] == a;
    var j :| 0 <= j < |spans| && spans[j] == b;
    assert !Before(spans[j], spans[i]);
    assert Crossed(spans, i);
    assert i in open;
  }

  /** The text a client shows for `html`. */
  function Shown(html: string): Option<string> {
    var ts := Lex(html);
    if ts.None? then None else Some(TextOf(ts.value))
  }

  /** What rendering `spans` over `text` must give: markup that shows exactly the
      text, and that parses, to exactly these spans in sort order, when and only
      when no two of them cross. */
  ghost predicate Renders(html: string, text: string, spans: seq<Span>) {
    && Shown(html) == Some(text)
    && Parse(html) == if Laminar(spans) then Some(Doc(text, Sort(spans))) else None
  }

  lemma SortedLaminar(spans: seq<Span>)
    ensures Laminar(Sort(spans)) <==> Laminar(spans)
  {
    SortContents(spans);
  }

  /** The state of the sweep between two of its steps. */
  ghost predicate Sweeping(text: string, spans: seq<Span>, idx: nat, stack: seq<Pending>, out: seq<string>,
                           ts: seq<Token>, p: Parser, pos: nat)
  {
    && pos <= |text| && p.doc.text == text[..pos]
    && Printed(out, ts, p) && SpansRead(spans, idx, p) && SameStack(spans, idx, stack, p.stack)
  }

  /** The sweep while the spans that end at `pos` are closed, and while those that
      start there are opened. */
  ghost predicate ClosingAt(text: string, spans: seq<Span>, idx: nat, stack: seq<Pending>, out: seq<string>,
                            ts: seq<Token>, p: Parser, pos: nat)
  {
    && Sweeping(text, spans, idx, stack, out, ts, p, pos)
    && Reached(spans, idx, pos) && StillOpen(spans, idx, p.stack, pos, pos - 1)
  }

  ghost predicate OpeningAt(text: string, spans: seq<Span>, idx: nat, stack: seq<Pending>, out: seq<string>,
                            ts: seq<Token>, p: Parser, pos: nat)
  {
    && Sweeping(text, spans, idx, stack, out, ts, p, pos)
    && Opening(spans, idx, pos) && StillOpen(spans, idx, p.stack, pos, pos)
  }

  lemma CloseOne(text: string, spans: seq<Span>, idx: nat, stack: seq<Pending>, out: seq<string>,
                 ts: seq<Token>, p: Parser, pos: nat) returns (p': Parser)
    requires AllInText(text, spans) && stack != [] && stack[|stack| - 1].end == pos
    requires ClosingAt(text, spans, idx, stack, out, ts, p, pos)
    ensures var close := stack[|stack| - 1].close;
      ClosingAt(text, spans, idx, stack[..|stack| - 1], out + [close], ts + [Close(close)], p', pos)
  {
    p' := ClosingStep(text, spans, idx, stack, p);
    assert StillOpen(spans, idx, p'.stack, pos, pos - 1) by {
      ClosingKeeps(spans, idx, stack, p.stack, pos);
    }
    assert Printed(out + [stack[|stack| - 1].close], ts + [Close(stack[|stack| - 1].close)], p') by {
      PrintMore(out, ts, p, Close(stack[|stack| - 1].close), p');
    }
  }

  lemma OpenOne(text: string, spans: seq<Span>, idx: nat, stack: seq<Pending>, out: seq<string>,
                ts: seq<Token>, p: Parser, pos: nat) returns (p': Parser)
    requires AllInText(text, spans) && idx < |spans| && spans[idx].start == pos
    requires OpeningAt(text, spans, idx, stack, out, ts, p, pos)
    ensures var s := spans[idx];
      OpeningAt(text, spans, idx + 1, stack + [Pending(s.end, s.close)], out + [s.open], ts + [Token.Open(s.open)],
        p', pos)
  {
    assert spans[idx] in spans && InText(text, spans[idx]);
    OpeningKeeps(spans, idx, p.stack, pos);
    p' := OpeningStep(text, spans, idx, stack, p);
    PrintMore(out, ts, p, Token.Open(spans[idx].open), p');
  }

  lemma ShowOne(text: string, spans: seq<Span>, idx: nat, stack: seq<Pending>, out: seq<string>,
                ts: seq<Token>, p: Parser, pos: nat) returns (p': Parser)
    requires pos < |text| && Sweeping(text, spans, idx, stack, out, ts, p, pos)
    ensures Sweeping(text, spans, idx, stack, out + [EscapeChar(text[pos])], ts + [Chr(text[pos])], p', pos + 1)
    ensures p'.stack == p.stack
  {
    p' := p.(doc := p.doc.(text := p.doc.text + [text[pos]]));
    PrintMore(out, ts, p, Chr(text[pos]), p');
  }

  /** The state of the sweep when position `pos` is next. */
  ghost predicate AtPosition(text: string, spans: seq<Span>, idx: nat, stack: seq<Pending>, out: seq<string>,
                             ts: seq<Token>, p: Parser, pos: nat)
  {
    && Sweeping(text, spans, idx, stack, out, ts, p, if pos < |text| then pos else |text|)
    && Reached(spans, idx, pos) && StillOpen(spans, idx, p.stack, pos - 1, pos - 1)
  }

  lemma BeginClosing(text: string, spans: seq<Span>, idx: nat, stack: seq<Pending>, out: seq<string>,
                     ts: seq<Token>, p: Parser, pos: nat)
    requires pos <= |text| && AtPosition(text, spans, idx, stack, out, ts, p, pos)
    ensures ClosingAt(text, spans, idx, stack, out, ts, p, pos)
  {
  }

  lemma BeginOpening(text: string, spans: seq<Span>, idx: nat, stack: seq<Pending>, out: seq<string>,
                     ts: seq<Token>, p: Parser, pos: nat)
    requires Sorted(spans) && ClosingAt(text, spans, idx, stack, out, ts, p, pos)
    requires stack != [] ==> stack[|stack| - 1].end != pos
    ensures OpeningAt(text, spans, idx, stack, out, ts, p, pos)
  {
    NoneLeftHere(spans, idx, stack, p.stack, pos);
  }

  /** The loop of `entities_to_html`, over the sorted spans. */
  method Sweep(text: string, spans: seq<Span>) returns (html: string)
    requires AllInText(text, spans) && Sorted(spans)
    ensures Shown(html) == Some(text)
    ensures Parse(html) == if Laminar(spans) then Some(Doc(text, spans)) else None
  {
    var n := |text|;
    var out: seq<string> := [];
    var stack: seq<Pending> := [];
    var idx: nat := 0;
    ghost var ts: seq<Token> := [];
    ghost var p := Parser(Doc("", []), []);

    NothingSwept(text, spans);
    for pos := 0 to n + 1
      invariant AtPosition(text, spans, idx, stack, out, ts, p, pos)
    {
      idx, stack, out, ts, p := SweepPosition(text, spans, idx, stack, out, ts, p, pos);
    }

    html := Join(out);
    Finished(text, spans, idx, stack, out, ts, p);
  }

  lemma Finished(text: string, spans: seq<Span>, idx: nat, stack: seq<Pending>, out: seq<string>, ts: seq<Token>,
      p: Parser)
    requires AllInText(text, spans) && Sorted(spans)
    requires AtPosition(text, spans, idx, stack, out, ts, p, |text| + 1)
    ensures Shown(Join(out)) == Some(text)
    ensures Parse(Join(out)) == if Laminar(spans) then Some(Doc(text, spans)) else None
  {
    assert text[..|text|] == text;
    AllOpened(text, spans, idx);
    PrintedParses(ts, p);
    EmptyIffLaminar(text, spans, stack, p.stack);
    if p.stack == [] {
      AllRead(spans, p);
    }
  }

  lemma AllOpened(text: string, spans: seq<Span>, idx: nat)
    requires AllInText(text, spans) && Reached(spans, idx, |text| + 1)
    ensures idx == |spans|
  {
    EndsInText(text, spans);
    if spans != [] {
      assert spans[|spans| - 1].start < |text|;
    }
  }

  lemma AllRead(spans: seq<Span>, p: Parser)
    requires SpansRead(spans, |spans|, p) && p.stack == []
    ensures p.doc.spans == spans
  {
  }

  lemma PrintedParses(ts: seq<Token>, p: Parser)
    requires AreTokens(ts) && ReadAll(ts) == Some(p)
    ensures Shown(PrintAll(ts)) == Some(TextOf(ts))
    ensures Parse(PrintAll(ts)) == if p.stack == [] then Some(p.doc) else None
  {
    LexPrint(ts);
  }

  lemma NothingSwept(text: string, spans: seq<Span>)
    requires AllInText(text, spans)
    ensures AtPosition(text, spans, 0, [], [], [], Parser(Doc("", []), []), 0)
  {
  }

  /** One position: the tags that close here, those that open here, the character. */
  method SweepPosition(text: string, spans: seq<Span>, idx0: nat, stack0: seq<Pending>, out0: seq<string>,
                       ghost ts0: seq<Token>, ghost p0: Parser, pos: nat)
    returns (idx: nat, stack: seq<Pending>, out: seq<string>, ghost ts: seq<Token>, ghost p: Parser)
    requires AllInText(text, spans) && Sorted(spans) && pos <= |text|
    requires AtPosition(text, spans, idx0, stack0, out0, ts0, p0, pos)
    ensures AtPosition(text, spans, idx, stack, out, ts, p, pos + 1)
  {
    BeginClosing(text, spans, idx0, stack0, out0, ts0, p0, pos);
    stack, out, ts, p := CloseTags(text, spans, idx0, stack0, out0, ts0, p0, pos);
    BeginOpening(text, spans, idx0, stack, out, ts, p, pos);
    idx, stack, out, ts, p := OpenTags(text, spans, idx0, stack, out, ts, p, pos);
    OpenedAll(spans, idx, pos);
    if pos < |text| {
      p := ShowOne(text, spans, idx, stack, out, ts, p, pos);
      ts := ts + [Chr(text[pos])];
      out := out + [EscapeChar(text[pos])];
    }
  }

  method OpenTags(text: string, spans: seq<Span>, idx0: nat, stack0: seq<Pending>, out0: seq<string>,
                  ghost ts0: seq<Token>, ghost p0: Parser, pos: nat)
    returns (idx: nat, stack: seq<Pending>, out: seq<string>, ghost ts: seq<Token>, ghost p: Parser)
    requires AllInText(text, spans) && OpeningAt(text, spans, idx0, stack0, out0, ts0, p0, pos)
    ensures OpeningAt(text, spans, idx, stack, out, ts, p, pos) && (idx < |spans| ==> spans[idx].start != pos)
  {
    idx, stack, out, ts, p := idx0, stack0, out0, ts0, p0;
    while idx < |spans| && spans[idx].start == pos
      invariant idx <= |spans| && OpeningAt(text, spans, idx, stack, out, ts, p, pos)
    {
      p := OpenOne(text, spans, idx, stack, out, ts, p, pos);
      ts := ts + [Token.Open(spans[idx].open)];
      out := out + [spans[idx].open];
      stack := stack + [Pending(spans[idx].end, spans[idx].close)];
      idx := idx + 1;
    }
  }

  lemma OpenedAll(spans: seq<Span>, idx: nat, pos: nat)
    requires Sorted(spans) && Opening(spans, idx, pos) && (idx < |spans| ==> spans[idx].start != pos)
    ensures Reached(spans, idx, pos + 1)
  {
    forall i | idx <= i < |spans|
      ensures spans[i].start >= pos + 1
    {
      assert i > idx ==> Before(spans[idx], spans[i]);
    }
  }

  method CloseTags(text: string, spans: seq<Span>, idx: nat, stack0: seq<Pending>, out0: seq<string>,
                   ghost ts0: seq<Token>, ghost p0: Parser, pos: nat)
    returns (stack: seq<Pending>, out: seq<string>, ghost ts: seq<Token>, ghost p: Parser)
    requires AllInText(text, spans) && ClosingAt(text, spans, idx, stack0, out0, ts0, p0, pos)
    ensures ClosingAt(text, spans, idx, stack, out, ts, p, pos)
    ensures stack != [] ==> stack[|stack| - 1].end != pos
  {
    stack, out, ts, p := stack0, out0, ts0, p0;
    while stack != [] && stack[|stack| - 1].end == pos
      invariant ClosingAt(text, spans, idx, stack, out, ts, p, pos)
      decreases |stack|
    {
      var top := stack[|stack| - 1];
      p := CloseOne(text, spans, idx, stack, out, ts, p, pos);
      ts := ts + [Close(top.close)];
      stack := stack[..|stack| - 1];
      out := out + [top.close];
    }
  }

  /** Rendering without spans is escaping: the sweep over no spans agrees with the
      early returns. */
  lemma {:induction false} PlainText(text: string)
    ensures Renders(Escape(text), text, [])
  {
    var ts := seq(|text|, i requires 0 <= i < |text| => Chr(text[i]));
    PlainTokens(text, ts);
    EscapeIsEscapeAll(text);
    LexPrint(ts);
  }

  lemma {:induction false} PlainTokens(text: string, ts: seq<Token>)
    requires |ts| == |text| && forall i | 0 <= i < |text| :: ts[i] == Chr(text[i])
    ensures PrintAll(ts) == EscapeAll(text) && TextOf(ts) == text
    ensures ReadAll(ts) == Some(Parser(Doc(text, []), []))
  {
    if text != "" {
      var m := |text| - 1;
      PlainTokens(text[..m], ts[..m]);
      assert ts == ts[..m] + [ts[m]] && text == text[..m] + [text[m]];
      PrintAppend(ts[..m], [ts[m]]);
      EscapeAllAppend(text[..m], [text[m]]);
      assert PrintAll([ts[m]]) == Print(ts[m]) + PrintAll([]);
      assert EscapeAll([text[m]]) == EscapeChar(text[m]) + EscapeAll("");
    }
  }

  /** `entities_to_html`. */
  method EntitiesToHtml(u: Unicode, text: Option<string>, entities: seq<Entity>) returns (html: Option<string>)
    ensures text.None? ==> html.None?
    ensures text.Some? ==> html.Some? && Renders(html.value, text.value, Convert(u, text.value, entities))
  {
    if text.None? {
      return None;
    }
    var t := text.value;
    PlainText(t);
    if t == "" {
      assert Convert(u, t, entities) == [] by { NothingFits(u, t, entities); }
      assert Escape("") == "";
      return Some("");
    }
    if entities == [] {
      return Some(Escape(t));
    }
    var converted: seq<Span> := [];
    for i := 0 to |entities|
      invariant converted == Convert(u, t, entities[..i])
    {
      assert entities[..i + 1][..i] == entities[..i];
      var span := ConvertOne(u, t, entities[i]);
      if span.Some? {
        converted := converted + [span.value];
      }
    }
    assert entities[..|entities|] == entities;
    if converted == [] {
      return Some(Escape(t));
    }
    ConvertedInText(u, t, entities);
    SortContents(converted);
    SortedLaminar(converted);
    var swept := Sweep(t, Sort(converted));
    return Some(swept);
  }

  // ---- a rendering that cannot be parsed ------------------------------------------

  /** Bold over [a, c) and italics over [b, d), in code units. */
  function Overlapping(text: string, a: nat, b: nat, c: nat, d: nat): seq<Entity>
    requires a <= |text| && b <= |text| && c <= |text| && d <= |text|
  {
    [Entity(Utf16.UnitLen(text, a), Utf16.UnitLen(text, c) - Utf16.UnitLen(text, a), Bold),
     Entity(Utf16.UnitLen(text, b), Utf16.UnitLen(text, d) - Utf16.UnitLen(text, b), Italic)]
  }

  lemma OverlapCrosses(u: Unicode, text: string, a: nat, b: nat, c: nat, d: nat)
    requires a < b < c < d <= |text|
    ensures !Laminar(Convert(u, text, Overlapping(text, a, b, c, d)))
  {
    var es := Overlapping(text, a, b, c, d);
    Utf16.BoundaryRoundTrip(text, a);
    Utf16.BoundaryRoundTrip(text, b);
    Utf16.BoundaryRoundTrip(text, c);
    Utf16.BoundaryRoundTrip(text, d);
    var bold, italic := ConvertOne(u, text, es[0]).value, ConvertOne(u, text, es[1]).value;
    assert es[..1] == [es[0]] && [es[0]][..0] == [];
    assert Convert(u, text, es[..1]) == [bold];
    assert Convert(u, text, es) == [bold, italic];
    assert bold in [bold, italic] && italic in [bold, italic] && Cross(bold, italic);
  }

  /** On every text bold and italics that overlap without nesting, on any characters,
      are rendered to markup that shows the text and does not parse. */
  lemma OverlapDoesNotParse(u: Unicode, text: string, a: nat, b: nat, c: nat, d: nat, html: string)
    requires a < b < c < d <= |text|
    requires Renders(html, text, Convert(u, text, Overlapping(text, a, b, c, d)))
    ensures Shown(html) == Some(text) && Parse(html) == None
  {
    OverlapCrosses(u, text, a, b, c, d);
  }

  /** One such input: the text "abc" with its first two letters bold and its last two
      in italics. */
  lemma CrossingInput(u: Unicode)
    ensures !Laminar(Convert(u, "abc", [Entity(0, 2, Bold), Entity(1, 2, Italic)]))
  {
    var text := "abc";
    assert text[..0] == "" && text[..1] == "a" && text[..2] == "ab" && text[..3] == "abc";
    assert Utf16.UnitLen(text, 0) == 0;
    PlainUnits("a");
    PlainUnits("ab");
    PlainUnits("abc");
    assert Overlapping(text, 0, 1, 2, 3) == [Entity(0, 2, Bold), Entity(1, 2, Italic)];
    OverlapCrosses(u, text, 0, 1, 2, 3);
  }

  lemma {:induction false} PlainUnits(text: string)
    requires forall i | 0 <= i < |text| :: text[i] as int < 0x1_0000
    ensures |Utf16.Encode(text)| == |text|
  {
    if text != "" {
      PlainUnits(text[1..]);
    }
  }

  lemma {:induction false} NothingFits(u: Unicode, text: string, entities: seq<Entity>)
    requires text == ""
    ensures Convert(u, text, entities) == []
  {
    if entities != [] {
      NothingFits(u, text, entities[..|entities| - 1]);
      var e := entities[|entities| - 1];
      Utf16.OffsetIsLeastCover(text, e.offset, 0);
      Utf16.OffsetIsLeastCover(text, e.offset + e.length, 0);
    }
  }
}
