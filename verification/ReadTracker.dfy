/** The feed's read tracker: dwell timers, the debounce window, and the batches of
    posts reported as read. */
module ReadTracker {
  import opened Prelude
  import Sorting

  const DWELL_MS := 1000
  const DEBOUNCE_MS := 2000

  /** Elements and posts by number; `dwell` maps a post to when its timer was set, and
      `debounce` is when the open window was. `batches` is what went to /feed/read. */
  datatype Tracker = Tracker(
    postByEl: map<int, int>,
    elByPost: map<int, int>,
    dwell: map<int, int>,
    pending: seq<int>,
    flushed: set<int>,
    debounce: Option<int>,
    batches: seq<seq<int>>)

  /** One observer entry: an element and whether it intersects the viewport. */
  datatype Entry = Entry(el: int, on: bool)

  const START := Tracker(map[], map[], map[], [], {}, None, [])

  function WithId(pending: seq<int>, post: int): seq<int> {
    if post in pending then pending else pending + [post]
  }

  function Flushed(t: Tracker): Tracker {
    if t.pending == [] then t.(debounce := None)
    else t.(debounce := None, pending := [], flushed := t.flushed + Sorting.Elements(t.pending), batches := t.batches
      + [t.pending])
  }

  function Noticed(t: Tracker, e: Entry, now: int): Tracker {
    if e.el !in t.postByEl then t
    else
      var post := t.postByEl[e.el];
      if !e.on then t.(dwell := t.dwell - {post})
      else if post in t.flushed || post in t.pending || post in t.dwell then t
      else t.(dwell := t.dwell[post := now])
  }

  function NoticedAll(t: Tracker, es: seq<Entry>, now: int): Tracker {
    if es == [] then t else Noticed(NoticedAll(t, es[..|es| - 1], now), es[|es| - 1], now)
  }

  predicate Due(t: Tracker, post: int, now: int) {
    post in t.dwell && now >= t.dwell[post] + DWELL_MS
  }

  function Dwelled(t: Tracker, post: int, now: int): Tracker {
    var rest := t.(dwell := t.dwell - {post});
    if post in t.flushed then rest
    else rest.(pending := WithId(t.pending, post), debounce := if t.debounce.Some? then t.debounce else Some(now))
  }

  function Detached(t: Tracker, post: int): Tracker {
    if post !in t.elByPost then t
    else t.(postByEl := t.postByEl - {t.elByPost[post]}, elByPost := t.elByPost - {post}, dwell := t.dwell - {post})
  }

  /** The ref callback of a post's card. */
  function Attached(t: Tracker, post: int, el: Option<int>): Tracker {
    var d := Detached(t, post);
    if el.None? then d
    else d.(elByPost := d.elByPost[post := el.value], postByEl := d.postByEl[el.value := post])
  }

  function Tapped(t: Tracker, post: int): Tracker {
    if post in t.flushed then t else Flushed(t.(pending := WithId(t.pending, post)))
  }

  function Unmounted(t: Tracker): Tracker { Flushed(t).(dwell := map[]) }

  class PostRead {
    var postByEl: map<int, int>
    var elByPost: map<int, int>
    var dwell: map<int, int>
    var pending: seq<int>
    var flushed: set<int>
    var debounce: Option<int>
    ghost var batches: seq<seq<int>>

    ghost function View(): Tracker
      reads this
    {
      Tracker(postByEl, elByPost, dwell, pending, flushed, debounce, batches)
    }

    constructor ()
      ensures View() == START
    {
      postByEl, elByPost, dwell := map[], map[], map[];
      pending, flushed, debounce, batches := [], {}, None, [];
    }

    method Flush() returns (batch: seq<int>)
      modifies this`pending, this`flushed, this`debounce, this`batches
      ensures View() == Flushed(old(View())) && batch == old(pending)
    {
      debounce := None;
      batch := pending;
      if |pending| == 0 {
        return;
      }
      pending := [];
      var i := 0;
      while i < |batch|
        invariant 0 <= i <= |batch|
        invariant flushed == old(flushed) + Sorting.Elements(batch[..i])
        modifies this`flushed
      {
        assert batch[..i + 1] == batch[..i] + [batch[i]];
        flushed := flushed + {batch[i]};
        i := i + 1;
      }
      assert batch[..i] == batch;
      batches := batches + [batch];
    }

    method ScheduleFlush(now: int)
      modifies this`debounce
      ensures debounce == if old(debounce).Some? then old(debounce) else Some(now)
    {
      if debounce.None? {
        debounce := Some(now);
      }
    }

    method HandleEntries(entries: seq<Entry>, now: int)
      modifies this`dwell
      ensures View() == NoticedAll(old(View()), entries, now)
    {
      var i := 0;
      while i < |entries|
        invariant 0 <= i <= |entries|
        invariant View() == NoticedAll(old(View()), entries[..i], now)
        modifies this`dwell
      {
        assert entries[..i + 1][..i] == entries[..i];
        var entry := entries[i];
        if entry.el in postByEl {
          var post := postByEl[entry.el];
          if !entry.on {
            dwell := dwell - {post};
          } else if post !in flushed && post !in pending && post !in dwell {
            dwell := dwell[post := now];
          }
        }
        i := i + 1;
      }
      assert entries[..i] == entries;
    }

    /** A dwell timer fires; a cleared one does not. */
    method DwellElapsed(post: int, now: int)
      requires post in dwell
      modifies this`dwell, this`pending, this`debounce
      ensures View() == Dwelled(old(View()), post, now)
    {
      dwell := dwell - {post};
      if post in flushed {
        return;
      }
      pending := WithId(pending, post);
      ScheduleFlush(now);
    }

    method SetElement(post: int, el: Option<int>)
      modifies this`postByEl, this`elByPost, this`dwell
      ensures View() == Attached(old(View()), post, el)
    {
      if post in elByPost {
        postByEl := postByEl - {elByPost[post]};
        elByPost := elByPost - {post};
        dwell := dwell - {post};
      }
      if el.Some? {
        elByPost := elByPost[post := el.value];
        postByEl := postByEl[el.value := post];
      }
    }

    method MarkRead(post: int)
      modifies this`pending, this`flushed, this`debounce, this`batches
      ensures View() == Tapped(old(View()), post)
    {
      if post in flushed {
        return;
      }
      pending := WithId(pending, post);
      var _ := Flush();
    }

    method Unmount()
      modifies this`dwell, this`pending, this`flushed, this`debounce, this`batches
      ensures View() == Unmounted(old(View()))
      ensures pending == [] && debounce == None && dwell == map[]
    {
      var _ := Flush();
      dwell := map[];
    }
  }

  // ---- events ---------------------------------------------------------------------------

  /** Everything that can happen to the hook, with the time it happens. */
  datatype Event =
    | Observed(now: int, entries: seq<Entry>)
    | DwellTimer(now: int, post: int)
    | DebounceTimer(now: int)
    | Ref(now: int, post: int, el: Option<int>)
    | Tap(now: int, post: int)
    | Cleanup(now: int)

  /** A timer fires only once its time has come. */
  function Step(t: Tracker, e: Event): Tracker {
    match e
    case Observed(now, entries) => NoticedAll(t, entries, now)
    case DwellTimer(now, post) => if Due(t, post, now) then Dwelled(t, post, now) else t
    case DebounceTimer(now) => if t.debounce.Some? && now >= t.debounce.value + DEBOUNCE_MS then Flushed(t) else t
    case Ref(now, post, el) => Attached(t, post, el)
    case Tap(now, post) => Tapped(t, post)
    case Cleanup(now) => Unmounted(t)
  }

  function Run(es: seq<Event>): Tracker {
    if es == [] then START else Step(Run(es[..|es| - 1]), es[|es| - 1])
  }

  // ---- no id is reported twice ----------------------------------------------------------

  /** All ids sent, batch after batch. */
  function Sent(batches: seq<seq<int>>): seq<int> {
    if batches == [] then [] else Sent(batches[..|batches| - 1]) + batches[|batches| - 1]
  }

  ghost predicate Tidy(t: Tracker) {
    && Sorting.Distinct(t.pending)
    && (forall k | 0 <= k < |t.pending| :: t.pending[k] !in t.flushed)
    && (t.pending != [] ==> t.debounce.Some?)
    && Sorting.Distinct(Sent(t.batches))
    && Sorting.Elements(Sent(t.batches)) == t.flushed
  }

  /** Everything but the open window. */
  ghost predicate Orderly(t: Tracker) {
    Tidy(t.(debounce := Some(0)))
  }

  lemma FlushTidies(t: Tracker)
    requires Orderly(t)
    ensures Tidy(Flushed(t))
  {
    if t.pending != [] {
      var r := Flushed(t);
      assert r.batches[..|r.batches| - 1] == t.batches;
      forall x | x in Sent(t.batches) ensures x !in t.pending {
        assert x in Sorting.Elements(Sent(t.batches));
      }
      Sorting.DistinctAppend(Sent(t.batches), t.pending);
    }
  }

  lemma {:induction false} NoticedFrame(t: Tracker, es: seq<Entry>, now: int)
    ensures NoticedAll(t, es, now) == t.(dwell := NoticedAll(t, es, now).dwell)
  {
    if es != [] {
      NoticedFrame(t, es[..|es| - 1], now);
    }
  }

  lemma StepTidy(t: Tracker, e: Event)
    requires Tidy(t)
    ensures Tidy(Step(t, e))
  {
    match e
    case Observed(now, entries) => NoticedFrame(t, entries, now);
    case DwellTimer(_, _) =>
    case DebounceTimer(_) => FlushTidies(t);
    case Ref(_, _, _) =>
    case Tap(_, post) =>
      if post !in t.flushed {
        FlushTidies(t.(pending := WithId(t.pending, post)));
      }
    case Cleanup(_) => FlushTidies(t);
  }

  /** Over any sequence of events no id is sent twice, in one batch or in two; nothing
      pending has been sent; and whatever is pending has a window open to send it. */
  lemma {:induction false} RunTidy(es: seq<Event>)
    ensures Tidy(Run(es))
  {
    if es != [] {
      RunTidy(es[..|es| - 1]);
      StepTidy(Run(es[..|es| - 1]), es[|es| - 1]);
    }
  }

  // ---- nothing is lost ------------------------------------------------------------------

  /** A dwell timer that fires makes its post pending, with a window open, unless it was
      sent before. */
  lemma FiredIsPending(t: Tracker, post: int, now: int)
    requires post in t.dwell && now >= t.dwell[post] + DWELL_MS
    ensures var r := Step(t, DwellTimer(now, post));
      post !in r.dwell && (post in t.flushed || (post in r.pending && r.debounce.Some?))
  {
  }

  /** The moment empties the pending list: the window's time has come, an unsent post is
      tapped, or the hook goes away. */
  predicate Empties(t: Tracker, e: Event) {
    match e
    case DebounceTimer(now) => t.debounce.Some? && now >= t.debounce.value + DEBOUNCE_MS
    case Tap(_, post) => post !in t.flushed
    case Cleanup(_) => true
    case _ => false
  }

  predicate Reported(t: Tracker, post: int) {
    exists b :: 0 <= b < |t.batches| && post in t.batches[b]
  }

  /** What is pending stays so, with its window, until such a moment, and is then in the
      batch sent. */
  lemma PendingStep(t: Tracker, e: Event, post: int)
    requires post in t.pending && t.debounce.Some?
    ensures Empties(t, e) ==> Reported(Step(t, e), post) && Step(t, e).pending == []
    ensures !Empties(t, e) ==> post in Step(t, e).pending && Step(t, e).debounce == t.debounce
  {
    match e
    case Observed(now, entries) => NoticedFrame(t, entries, now);
    case Tap(_, tapped) =>
      if tapped !in t.flushed {
        assert post in WithId(t.pending, tapped);
        SentLast(t.(pending := WithId(t.pending, tapped)), post);
      }
    case DebounceTimer(_) => SentLast(t, post);
    case Cleanup(_) => SentLast(t, post);
    case _ =>
  }

  lemma SentLast(t: Tracker, post: int)
    requires post in t.pending
    ensures Reported(Flushed(t), post)
  {
    assert Flushed(t).batches[|t.batches|] == t.pending;
  }

  lemma ReportedStays(t: Tracker, e: Event, post: int)
    requires Reported(t, post)
    ensures Reported(Step(t, e), post)
  {
    var b :| 0 <= b < |t.batches| && post in t.batches[b];
    match e
    case Observed(now, entries) => NoticedFrame(t, entries, now);
    case _ =>
    assert Step(t, e).batches[b] == t.batches[b];
  }

  /** Sent, or pending in the window that opened at `d`. */
  predicate Waits(t: Tracker, post: int, d: int) {
    Reported(t, post) || (post in t.pending && t.debounce == Some(d))
  }

  lemma WaitsOn(t: Tracker, e: Event, post: int, d: int)
    requires Waits(t, post, d)
    ensures Waits(Step(t, e), post, d) && (Empties(t, e) ==> Reported(Step(t, e), post))
  {
    if Reported(t, post) {
      ReportedStays(t, e, post);
    } else {
      PendingStep(t, e, post);
    }
  }

  /** Whatever happens, it goes on waiting there until it is sent, and stays sent. */
  lemma {:induction false} WaitsTillSent(es: seq<Event>, i: nat, j: nat, post: int, d: int)
    requires i <= j <= |es| && Waits(Run(es[..i]), post, d)
    ensures Waits(Run(es[..j]), post, d) && (Reported(Run(es[..i]), post) ==> Reported(Run(es[..j]), post))
    decreases j
  {
    if i < j {
      WaitsTillSent(es, i, j - 1, post, d);
      assert es[..j][..j - 1] == es[..j - 1];
      WaitsOn(Run(es[..j - 1]), es[j - 1], post, d);
      if Reported(Run(es[..j - 1]), post) {
        ReportedStays(Run(es[..j - 1]), es[j - 1], post);
      }
    }
  }

  lemma SentBy(es: seq<Event>, i: nat, k: nat, n: nat, post: int, d: int)
    requires i <= k < n <= |es| && Waits(Run(es[..i]), post, d) && Empties(Run(es[..k]), es[k])
    ensures Reported(Run(es[..n]), post)
  {
    WaitsTillSent(es, i, k, post, d);
    assert es[..k + 1][..k] == es[..k];
    WaitsOn(Run(es[..k]), es[k], post, d);
    WaitsTillSent(es, k + 1, n, post, d);
  }

  lemma {:induction false} SentIsReported(batches: seq<seq<int>>, post: int)
    requires post in Sorting.Elements(Sent(batches))
    ensures exists b :: 0 <= b < |batches| && post in batches[b]
  {
    if batches != [] && post !in batches[|batches| - 1] {
      SentIsReported(batches[..|batches| - 1], post);
      var b :| 0 <= b < |batches| - 1 && post in batches[..|batches| - 1][b];
      assert batches[b] == batches[..|batches| - 1][b];
    }
  }

  lemma FiredWaits(t: Tracker, post: int, now: int) returns (d: int)
    requires Tidy(t) && post in t.dwell && now >= t.dwell[post] + DWELL_MS
    ensures Waits(Step(t, DwellTimer(now, post)), post, d)
  {
    d := now;
    FiredIsPending(t, post, now);
    if post in t.flushed {
      SentIsReported(t.batches, post);
      ReportedStays(t, DwellTimer(now, post), post);
    } else {
      d := Step(t, DwellTimer(now, post)).debounce.value;
    }
  }

  /** A post whose dwell timer fires is reported, at the latest by the first moment that
      empties the pending list after it. */
  lemma DwelledIsReported(es: seq<Event>, i: nat, k: nat, n: nat)
    requires i < k < n <= |es| && es[i].DwellTimer? && Due(Run(es[..i]), es[i].post, es[i].now)
    requires Empties(Run(es[..k]), es[k])
    ensures Reported(Run(es[..n]), es[i].post)
  {
    assert es[..i + 1][..i] == es[..i];
    RunTidy(es[..i]);
    var d := FiredWaits(Run(es[..i]), es[i].post, es[i].now);
    SentBy(es, i + 1, k, n, es[i].post, d);
  }

  /** The window of what is pending stays open until it is sent, so its timer sends it: two
      seconds after the window opened, whatever happens until then. */
  lemma WindowSends(es: seq<Event>, i: nat, k: nat, post: int)
    requires i <= k < |es| && post in Run(es[..i]).pending && es[k].DebounceTimer?
    requires Run(es[..i]).debounce.Some? ==> es[k].now >= Run(es[..i]).debounce.value + DEBOUNCE_MS
    ensures Run(es[..i]).debounce.Some? && Reported(Run(es[..k + 1]), post)
  {
    RunTidy(es[..i]);
    var d := Run(es[..i]).debounce.value;
    WaitsTillSent(es, i, k, post, d);
    assert es[..k + 1][..k] == es[..k];
    WaitsOn(Run(es[..k]), es[k], post, d);
    if Reported(Run(es[..k]), post) {
      ReportedStays(Run(es[..k]), es[k], post);
    }
  }

  /** The last entry of a card in a report of the observer decides about its timer. */
  predicate LastOf(es: seq<Entry>, k: nat, el: int) {
    k < |es| && es[k].el == el && forall j | k < j < |es| :: es[j].el != el
  }

  lemma {:induction false} ObservedSets(t: Tracker, es: seq<Entry>, now: int, k: nat, el: int)
    requires Inverse(t) && el in t.postByEl && LastOf(es, k, el)
    ensures var (post, r) := (t.postByEl[el], NoticedAll(t, es, now));
      && (es[k].on ==> post in r.dwell || post in r.pending || post in r.flushed)
      && (!es[k].on ==> post !in r.dwell)
  {
    var front, e := es[..|es| - 1], es[|es| - 1];
    NoticedFrame(t, front, now);
    if k < |front| {
      assert LastOf(front, k, el);
      ObservedSets(t, front, now, k, el);
      assert e.el in t.postByEl ==> t.postByEl[e.el] != t.postByEl[el];
    }
  }

  // ---- the element maps -----------------------------------------------------------------

  ghost predicate Inverse(t: Tracker) {
    && (forall post | post in t.elByPost :: t.elByPost[post] in t.postByEl && t.postByEl[t.elByPost[post]] == post)
    && (forall el | el in t.postByEl :: t.postByEl[el] in t.elByPost && t.elByPost[t.postByEl[el]] == el)
  }

  /** A ref callback keeps the maps inverse exactly when the element is not another
      post's at that moment. */
  lemma AttachKeepsInverse(t: Tracker, post: int, el: int)
    requires Inverse(t)
    ensures Inverse(Attached(t, post, Some(el))) <==> el !in t.postByEl || t.postByEl[el] == post
  {
    var r := Attached(t, post, Some(el));
    assert r.elByPost[post] == el && r.postByEl[el] == post;
    if el in t.postByEl && t.postByEl[el] != post {
      var other := t.postByEl[el];
      assert other in r.elByPost && r.elByPost[other] == el;
    }
  }

  // ---- what was really on screen --------------------------------------------------------

  /** The cards as the browser has them, whatever the tracker does: which element a
      post's card is since when, which elements have been intersecting since when, the
      posts tapped, and those that stayed on screen for the dwell time. */
  datatype Screen = Screen(cards: map<int, (int, int)>, shown: map<int, int>, tapped: set<int>, dwelled: set<int>)

  predicate OnScreen(s: Screen, post: int, now: int) {
    && post in s.cards
    && s.cards[post].1 + DWELL_MS <= now
    && s.cards[post].0 in s.shown
    && s.shown[s.cards[post].0] + DWELL_MS <= now
  }

  function ShownAfter(shown: map<int, int>, es: seq<Entry>, now: int): map<int, int> {
    if es == [] then shown
    else
      var before, e := ShownAfter(shown, es[..|es| - 1], now), es[|es| - 1];
      if !e.on then before - {e.el} else if e.el in before then before else before[e.el := now]
  }

  function Watched(s: Screen, now: int): Screen {
    s.(dwelled := s.dwelled + set p | p in s.cards && OnScreen(s, p, now))
  }

  function ScreenStep(screen: Screen, e: Event): Screen {
    var s := Watched(screen, e.now);
    match e
    case Observed(now, entries) => s.(shown := ShownAfter(s.shown, entries, now))
    case Ref(now, post, None) => s.(cards := s.cards - {post})
    case Ref(now, post, Some(el)) => s.(cards := s.cards[post := (el, now)])
    case Tap(_, post) => s.(tapped := s.tapped + {post})
    case _ => s
  }

  function ScreenAfter(es: seq<Event>): Screen {
    if es == [] then Screen(map[], map[], {}, {}) else ScreenStep(ScreenAfter(es[..|es| - 1]), es[|es| - 1])
  }

  /** Time does not run backwards, and no two cards share an element. */
  ghost predicate Plausible(es: seq<Event>) {
    es == [] ||
    var front, e := es[..|es| - 1], es[|es| - 1];
    && Plausible(front)
    && (front != [] ==> front[|front| - 1].now <= e.now)
    && (e.Ref? && e.el.Some? ==>
          var t := Run(front); e.el.value in t.postByEl ==> t.postByEl[e.el.value] == e.post)
  }

  /** A running timer is younger than its post's card and than the card's stay in the
      viewport. */
  ghost predicate TimersHonest(t: Tracker, s: Screen, now: int) {
    && Inverse(t)
    && t.elByPost.Keys == s.cards.Keys
    && (forall p | p in s.cards :: t.elByPost[p] == s.cards[p].0 && s.cards[p].1 <= now)
    && (forall el | el in s.shown :: s.shown[el] <= now)
    && (forall p | p in t.dwell :: TimerHonest(t, s, p))
  }

  predicate TimerHonest(t: Tracker, s: Screen, p: int)
    requires p in t.dwell
  {
    p in s.cards && s.cards[p].0 in s.shown && s.cards[p].1 <= t.dwell[p] && s.shown[s.cards[p].0] <= t.dwell[p]
  }

  /** Everything reported, or about to be, was tapped or dwelled on. */
  predicate Earned(t: Tracker, s: Screen) {
    && (forall p | p in t.flushed :: p in s.tapped || p in s.dwelled)
    && (forall k | 0 <= k < |t.pending| :: t.pending[k] in s.tapped || t.pending[k] in s.dwelled)
  }

  lemma NoticedHonest(t: Tracker, s: Screen, e: Entry, now: int)
    requires TimersHonest(t, s, now)
    ensures TimersHonest(Noticed(t, e, now), s.(shown := ShownAfter(s.shown, [e], now)), now)
  {
    assert [e][..0] == [];
  }

  lemma {:induction false} NoticedAllHonest(t: Tracker, s: Screen, es: seq<Entry>, now: int)
    requires TimersHonest(t, s, now)
    ensures TimersHonest(NoticedAll(t, es, now), s.(shown := ShownAfter(s.shown, es, now)), now)
  {
    if es != [] {
      var front, e := es[..|es| - 1], es[|es| - 1];
      NoticedAllHonest(t, s, front, now);
      assert [e][..0] == [];
      NoticedHonest(NoticedAll(t, front, now), s.(shown := ShownAfter(s.shown, front, now)), e, now);
    }
  }

  lemma AttachHonest(t: Tracker, s: Screen, post: int, el: Option<int>, now: int)
    requires TimersHonest(t, s, now)
    requires el.Some? ==> el.value in t.postByEl ==> t.postByEl[el.value] == post
    ensures TimersHonest(Attached(t, post, el),
      s.(cards := if el.None? then s.cards - {post} else s.cards[post := (el.value, now)]), now)
  {
    if el.Some? {
      AttachKeepsInverse(t, post, el.value);
    }
  }

  lemma LaterHonest(t: Tracker, s: Screen, now: int, later: int)
    requires TimersHonest(t, s, now) && now <= later
    ensures TimersHonest(t, Watched(s, later), later)
  {
  }

  lemma FewerTimersHonest(t: Tracker, r: Tracker, s: Screen, q: Screen, now: int)
    requires TimersHonest(t, s, now)
    requires r.postByEl == t.postByEl && r.elByPost == t.elByPost && q.cards == s.cards && q.shown == s.shown
    requires forall p | p in r.dwell :: p in t.dwell && r.dwell[p] == t.dwell[p]
    ensures TimersHonest(r, q, now)
  {
    forall p | p in r.dwell ensures TimerHonest(r, q, p) {
      assert TimerHonest(t, s, p);
    }
  }

  lemma StepHonest(t: Tracker, screen: Screen, e: Event, now: int)
    requires TimersHonest(t, screen, now) && now <= e.now
    requires e.Ref? && e.el.Some? ==> e.el.value in t.postByEl ==> t.postByEl[e.el.value] == e.post
    ensures TimersHonest(Step(t, e), ScreenStep(screen, e), e.now)
  {
    LaterHonest(t, screen, now, e.now);
    var s := Watched(screen, e.now);
    match e
    case Observed(at, entries) => NoticedAllHonest(t, s, entries, at);
    case Ref(at, post, el) => AttachHonest(t, s, post, el, at);
    case _ => FewerTimersHonest(t, Step(t, e), s, ScreenStep(screen, e), e.now);
  }

  lemma StepEarned(t: Tracker, s: Screen, e: Event, now: int)
    requires TimersHonest(t, s, now) && now <= e.now && Earned(t, s)
    ensures Earned(Step(t, e), ScreenStep(s, e))
  {
    match e
    case Observed(at, entries) => NoticedFrame(t, entries, at);
    case DwellTimer(at, post) =>
      if Due(t, post, at) {
        assert TimerHonest(t, s, post);
        assert OnScreen(s, post, at);
      }
    case _ =>
  }

  function Clock(es: seq<Event>): int { if es == [] then 0 else es[|es| - 1].now }

  lemma {:induction false} RunHonest(es: seq<Event>)
    requires Plausible(es)
    ensures TimersHonest(Run(es), ScreenAfter(es), Clock(es)) && Earned(Run(es), ScreenAfter(es))
  {
    if es != [] {
      var front, e := es[..|es| - 1], es[|es| - 1];
      RunHonest(front);
      var now := if front == [] then e.now else Clock(front);
      StepHonest(Run(front), ScreenAfter(front), e, now);
      StepEarned(Run(front), ScreenAfter(front), e, now);
    }
  }

  /** Every post in every batch was tapped, or its card stayed in the viewport without
      a break for the dwell time. */
  lemma ReportedWasRead(es: seq<Event>, b: nat, k: nat)
    requires Plausible(es) && b < |Run(es).batches| && k < |Run(es).batches[b]|
    ensures var post := Run(es).batches[b][k]; post in ScreenAfter(es).tapped || post in ScreenAfter(es).dwelled
  {
    RunHonest(es);
    RunTidy(es);
    InSent(Run(es).batches, b, k);
  }

  lemma {:induction false} InSent(batches: seq<seq<int>>, b: nat, k: nat)
    requires b < |batches| && k < |batches[b]|
    ensures batches[b][k] in Sorting.Elements(Sent(batches))
  {
    if b < |batches| - 1 {
      InSent(batches[..|batches| - 1], b, k);
    }
  }

  // ---- a card that stays on screen ------------------------------------------------------

  /** The element is the post's card, and the post is sent, pending, or on a timer set at
      `since` or before. */
  predicate Counting(t: Tracker, el: int, post: int, since: int) {
    && el in t.postByEl && t.postByEl[el] == post
    && (post in t.flushed || post in t.pending || (post in t.dwell && t.dwell[post] <= since))
  }

  /** The event neither takes the card away nor moves it out of the viewport. */
  predicate LeavesOn(e: Event, el: int, post: int) {
    match e
    case Observed(_, entries) => forall i | 0 <= i < |entries| && entries[i].el == el :: entries[i].on
    case Ref(_, other, card) => other != post && card != Some(el)
    case Cleanup(_) => false
    case _ => true
  }

  predicate NotAhead(t: Tracker, now: int) { forall p | p in t.dwell :: t.dwell[p] <= now }

  lemma {:induction false} NoticedNotAhead(t: Tracker, es: seq<Entry>, now: int)
    requires NotAhead(t, now)
    ensures NotAhead(NoticedAll(t, es, now), now)
  {
    if es != [] {
      NoticedNotAhead(t, es[..|es| - 1], now);
    }
  }

  lemma {:induction false} RunNotAhead(es: seq<Event>)
    requires Plausible(es)
    ensures NotAhead(Run(es), Clock(es))
  {
    if es != [] {
      var front, e := es[..|es| - 1], es[|es| - 1];
      RunNotAhead(front);
      if e.Observed? {
        NoticedNotAhead(Run(front), e.entries, e.now);
      }
    }
  }

  lemma {:induction false} NoticedCounting(t: Tracker, es: seq<Entry>, now: int, el: int, post: int, since: int)
    requires Inverse(t) && Counting(t, el, post, since)
    requires forall i | 0 <= i < |es| && es[i].el == el :: es[i].on
    ensures Counting(NoticedAll(t, es, now), el, post, since)
  {
    if es != [] {
      var front, e := es[..|es| - 1], es[|es| - 1];
      NoticedCounting(t, front, now, el, post, since);
      NoticedFrame(t, front, now);
      assert e.el in t.postByEl && t.postByEl[e.el] == post ==> e.el == el;
    }
  }

  lemma {:induction false} NoticedStarts(t: Tracker, es: seq<Entry>, now: int, k: nat, el: int)
    requires Inverse(t) && NotAhead(t, now) && el in t.postByEl && LastOf(es, k, el) && es[k].on
    ensures Counting(NoticedAll(t, es, now), el, t.postByEl[el], now)
  {
    ObservedSets(t, es, now, k, el);
    NoticedNotAhead(t, es, now);
    NoticedFrame(t, es, now);
  }

  lemma CountingOn(t: Tracker, e: Event, el: int, post: int, since: int)
    requires Inverse(t) && Counting(t, el, post, since) && LeavesOn(e, el, post)
    ensures Counting(Step(t, e), el, post, since)
  {
    match e
    case Observed(now, entries) => NoticedCounting(t, entries, now, el, post, since);
    case Tap(_, tapped) => assert post in t.pending ==> post in WithId(t.pending, tapped);
    case _ =>
  }

  lemma {:induction false} PlausiblePrefix(es: seq<Event>, k: nat)
    requires Plausible(es) && k <= |es|
    ensures Plausible(es[..k])
    decreases |es|
  {
    if k == |es| {
      assert es[..k] == es;
    } else {
      assert es[..|es| - 1][..k] == es[..k];
      PlausiblePrefix(es[..|es| - 1], k);
    }
  }

  lemma {:induction false} CountsOn(es: seq<Event>, i: nat, j: nat, el: int, post: int, since: int)
    requires Plausible(es) && i <= j <= |es| && Counting(Run(es[..i]), el, post, since)
    requires forall k | i <= k < j :: LeavesOn(es[k], el, post)
    ensures Counting(Run(es[..j]), el, post, since)
    decreases j
  {
    if i < j {
      CountsOn(es, i, j - 1, el, post, since);
      assert es[..j][..j - 1] == es[..j - 1];
      PlausiblePrefix(es, j - 1);
      RunHonest(es[..j - 1]);
      CountingOn(Run(es[..j - 1]), es[j - 1], el, post, since);
    }
  }

  lemma Starts(es: seq<Event>, i: nat, el: int, last: nat)
    requires Plausible(es) && i < |es| && es[i].Observed? && el in Run(es[..i]).postByEl
    requires LastOf(es[i].entries, last, el) && es[i].entries[last].on
    ensures Counting(Run(es[..i + 1]), el, Run(es[..i]).postByEl[el], es[i].now)
  {
    assert es[..i + 1][..i] == es[..i];
    PlausiblePrefix(es, i);
    RunHonest(es[..i]);
    NotAheadBy(es, i);
    NoticedStarts(Run(es[..i]), es[i].entries, es[i].now, last, el);
  }

  lemma CountedFires(t: Tracker, el: int, post: int, since: int, now: int)
    requires Tidy(t) && Counting(t, el, post, since) && now >= since + DWELL_MS
    ensures var r := Step(t, DwellTimer(now, post)); Reported(r, post) || (post in r.pending && r.debounce.Some?)
  {
    if post in t.flushed {
      SentIsReported(t.batches, post);
      ReportedStays(t, DwellTimer(now, post), post);
    }
  }

  /** The card comes into view with event `i`, by its last entry, and stays from then on. */
  predicate Stays(es: seq<Event>, i: nat, el: int, post: int, last: nat) {
    && i < |es| && es[i].Observed? && LastOf(es[i].entries, last, el) && es[i].entries[last].on
    && el in Run(es[..i]).postByEl && Run(es[..i]).postByEl[el] == post
    && forall j | i < j < |es| :: LeavesOn(es[j], el, post)
  }

  lemma StaysCounting(es: seq<Event>, i: nat, el: int, post: int, last: nat)
    requires Plausible(es) && Stays(es, i, el, post, last)
    ensures Counting(Run(es), el, post, es[i].now)
  {
    Starts(es, i, el, last);
    CountsOn(es, i + 1, |es|, el, post, es[i].now);
    assert es[..|es|] == es;
  }

  /** A card that comes into view and stays there is read: its timer counts from then, or
      from before, so when it fires a dwell time later the post is sent or pending. */
  lemma StayedIsRead(es: seq<Event>, i: nat, el: int, post: int, last: nat, now: int)
    requires Plausible(es) && Stays(es, i, el, post, last) && now >= es[i].now + DWELL_MS
    ensures var r := Step(Run(es), DwellTimer(now, post)); Reported(r, post) || (post in r.pending && r.debounce.Some?)
  {
    StaysCounting(es, i, el, post, last);
    RunTidy(es);
    CountedFires(Run(es), el, post, es[i].now, now);
  }

  lemma NotAheadBy(es: seq<Event>, i: nat)
    requires Plausible(es) && i < |es|
    ensures NotAhead(Run(es[..i]), es[i].now)
  {
    PlausiblePrefix(es, i + 1);
    assert es[..i + 1][..i] == es[..i];
    RunNotAhead(es[..i]);
  }
}
