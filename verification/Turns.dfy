/** Whose turn it is: the order in which the history worker takes its channels, tick by
    tick, and what the end of each pass does to a channel's place in the line. */
module Turns {
  import opened Prelude
  import opened BackfillLock
  import opened Eligibility
  import Keyset
  import Sorting

  // ---- the line -------------------------------------------------------------------------

  function Eligible(t: Tables, threshold: int, now: int): set<int> {
    set c | c in t.banned && Selects(t, c, threshold, now)
  }

  function ServedAt(states: States, channel: int): Option<int> {
    if channel in states then states[channel].lastBackfill else None
  }

  /** last_backfill_at ASC NULLS FIRST. */
  predicate Earlier(a: Option<int>, b: Option<int>) {
    b.Some? && (a.None? || a.value < b.value)
  }

  /** `d` stands strictly behind `c`. */
  predicate Behind(states: States, c: int, d: int) {
    Earlier(ServedAt(states, c), ServedAt(states, d))
  }

  /** What ORDER BY and LIMIT may answer; channels served at one time come in any order. */
  predicate Page(t: Tables, threshold: int, now: int, limit: nat, page: seq<int>) {
    var all := Eligible(t, threshold, now);
    && Sorting.Distinct(page) && Sorting.Elements(page) <= all
    && |page| == (if limit < |all| then limit else |all|)
    && (forall i, j | 0 <= i < j < |page| :: !Behind(t.states, page[j], page[i]))
    && (forall i, c | 0 <= i < |page| && c in all && c !in page :: !Behind(t.states, c, page[i]))
  }

  /** The eligible channels that may be picked before `channel`. */
  function Ahead(t: Tables, threshold: int, now: int, channel: int): set<int> {
    set d | d in Eligible(t, threshold, now) && d != channel && !Behind(t.states, channel, d)
  }

  // ---- passes ---------------------------------------------------------------------------

  /** A channel's pass within a tick: locked at `now`, ended at `at`. */
  datatype Visit = Visit(channel: int, now: int, at: int, ending: Ending)

  function Visited(states: States, v: Visit, ttl: int): States {
    if !Grants(states, v.channel, v.now) then states
    else EndStates(Acquired(states, v.channel, ttl, v.now), v.channel, v.ending, v.at)
  }

  /** The passes that write last_backfill_at. */
  predicate Serves(e: Ending) { e.Release? || e.Complete? }

  lemma VisitedAt(states: States, v: Visit, ttl: int)
    requires Grants(states, v.channel, v.now)
    ensures ServedAt(Visited(states, v, ttl), v.channel)
      == if Serves(v.ending) then Some(v.at) else ServedAt(states, v.channel)
  {
  }

  /** A pass puts its channel behind another one exactly when it ends in a release or a
      completion: a FloodWait, an upsert that raises or a crash leaves it in its place. */
  lemma GoesBackIff(states: States, v: Visit, ttl: int, other: int)
    requires Grants(states, v.channel, v.now) && other != v.channel && !Behind(states, other, v.channel)
    requires ServedAt(states, other).Some? ==> ServedAt(states, other).value < v.at
    ensures Behind(Visited(states, v, ttl), other, v.channel) <==> Serves(v.ending)
    ensures ServedAt(Visited(states, v, ttl), other) == ServedAt(states, other)
  {
    VisitedAt(states, v, ttl);
  }

  /** When a lock that a pass leaves behind runs out. */
  function Until(v: Visit, ttl: int): Option<int> {
    match v.ending
    case Release(_) => None
    case Complete => None
    case Defer(seconds) => Some(v.at + seconds)
    case Crash => Some(v.now + ttl)
  }

  lemma UnreadIgnoresStates(t: Tables, states: States, channel: int)
    ensures var t' := t.(states := states);
      && PostsOf(t', channel) == PostsOf(t, channel) && HasFollower(t', channel) == HasFollower(t, channel)
      && MinUnread(t', channel) == MinUnread(t, channel)
  {
    var t' := t.(states := states);
    assert forall c :: PostsOf(t', c) == PostsOf(t, c);
    assert forall source :: ReadRows(t', source) == ReadRows(t, source);
    assert ReadCounts(t') == ReadCounts(t);
    assert CountsOf(t', channel) == CountsOf(t, channel);
    assert JoinRows(t', channel) == JoinRows(t, channel);
  }

  /** With nothing else changed a channel is eligible again after its pass exactly when
      its history is not finished and the lock it was left with has run out. */
  lemma EligibleAgainIff(t: Tables, threshold: int, v: Visit, ttl: int, next: int)
    requires v.channel in Eligible(t, threshold, v.now)
    ensures v.channel in Eligible(t.(states := Visited(t.states, v, ttl)), threshold, next) <==>
      !v.ending.Complete? && (Until(v, ttl).Some? ==> Until(v, ttl).value < next)
  {
    UnreadIgnoresStates(t, Visited(t.states, v, ttl), v.channel);
  }

  // ---- a tick ---------------------------------------------------------------------------

  function AllVisited(states: States, vs: seq<Visit>, ttl: int): States {
    if vs == [] then states else Visited(AllVisited(states, vs[..|vs| - 1], ttl), vs[|vs| - 1], ttl)
  }

  /** A page is taken from its front, one channel after another. A pass that raises ends
      the tick, and so does the worker's death between two channels. */
  predicate Takes(page: seq<int>, vs: seq<Visit>) {
    && |vs| <= |page|
    && (forall i | 0 <= i < |vs| :: vs[i].channel == page[i])
    && (forall i | 0 <= i < |vs| - 1 :: !vs[i].ending.Crash?)
  }

  /** The worker lives on: only a pass that raises leaves channels of the page untaken. */
  predicate TakesAll(page: seq<int>, vs: seq<Visit>) {
    Takes(page, vs) && (|vs| < |page| ==> vs != [] && vs[|vs| - 1].ending.Crash?)
  }

  /** Then a channel of the page is taken exactly when no pass before it raised. */
  lemma TakenIff(page: seq<int>, vs: seq<Visit>, i: nat)
    requires TakesAll(page, vs) && i < |page|
    ensures i < |vs| <==> forall j | 0 <= j < i && j < |vs| :: !vs[j].ending.Crash?
  {
    if |vs| <= i {
      assert vs[|vs| - 1].ending.Crash?;
    }
  }

  predicate InTime(now: int, vs: seq<Visit>) {
    && (forall i | 0 <= i < |vs| :: now <= vs[i].now <= vs[i].at)
    && (forall i, j | 0 <= i < j < |vs| :: vs[i].at < vs[j].now)
  }

  /** The channels that a tick sends to the back. */
  function Served(vs: seq<Visit>): set<int> {
    set i | 0 <= i < |vs| && Serves(vs[i].ending) :: vs[i].channel
  }

  predicate SameRow(a: States, b: States, c: int) {
    (c in a <==> c in b) && (c in a ==> a[c] == b[c])
  }

  lemma VisitedRow(states: States, mid: States, v: Visit, ttl: int, c: int)
    ensures c != v.channel ==> SameRow(states, Visited(states, v, ttl), c)
    ensures SameRow(states, mid, v.channel) ==> SameRow(Visited(states, v, ttl), Visited(mid, v, ttl), v.channel)
  {
  }

  lemma {:induction false} Untouched(states: States, vs: seq<Visit>, ttl: int, c: int)
    requires forall i | 0 <= i < |vs| :: vs[i].channel != c
    ensures SameRow(states, AllVisited(states, vs, ttl), c)
    decreases |vs|
  {
    if vs != [] {
      var mid := AllVisited(states, vs[..|vs| - 1], ttl);
      Untouched(states, vs[..|vs| - 1], ttl, c);
      VisitedRow(mid, mid, vs[|vs| - 1], ttl, c);
    }
  }

  lemma {:induction false} TouchedOnce(states: States, vs: seq<Visit>, ttl: int, i: nat)
    requires i < |vs| && forall a, b | 0 <= a < b < |vs| :: vs[a].channel != vs[b].channel
    ensures SameRow(Visited(states, vs[i], ttl), AllVisited(states, vs, ttl), vs[i].channel)
    decreases |vs|
  {
    var front, last := vs[..|vs| - 1], vs[|vs| - 1];
    var mid := AllVisited(states, front, ttl);
    if i < |front| {
      TouchedOnce(states, front, ttl, i);
      VisitedRow(mid, mid, last, ttl, vs[i].channel);
    } else {
      Untouched(states, front, ttl, last.channel);
      VisitedRow(states, mid, last, ttl, last.channel);
    }
  }

  /** The end of a channel's own pass, or its old time. */
  predicate Updated(states: States, after: States, vs: seq<Visit>, c: int) {
    if c in Served(vs) then exists i | 0 <= i < |vs| :: ServedAt(after, c) == Some(vs[i].at)
    else ServedAt(after, c) == ServedAt(states, c)
  }

  lemma TickServes(t: Tables, threshold: int, now: int, limit: nat, page: seq<int>, vs: seq<Visit>, ttl: int)
    requires Page(t, threshold, now, limit, page) && Takes(page, vs) && InTime(now, vs)
    ensures Served(vs) <= Sorting.Elements(page)
    ensures forall c :: Updated(t.states, AllVisited(t.states, vs, ttl), vs, c)
  {
    var after := AllVisited(t.states, vs, ttl);
    forall i | 0 <= i < |vs|
      ensures vs[i].channel in Sorting.Elements(page)
      ensures ServedAt(after, page[i]) == if Serves(vs[i].ending) then Some(vs[i].at) else ServedAt(t.states, page[i])
    {
      assert page[i] in Sorting.Elements(page);
      TouchedOnce(t.states, vs, ttl, i);
      VisitedAt(t.states, vs[i], ttl);
    }
    forall c ensures Updated(t.states, after, vs, c) {
      if forall i | 0 <= i < |vs| :: vs[i].channel != c {
        Untouched(t.states, vs, ttl, c);
      }
    }
  }

  // ---- a run of ticks -------------------------------------------------------------------

  /** What a tick found, whom it picked, and the passes it made. */
  datatype Tick = Tick(t: Tables, now: int, page: seq<int>, visits: seq<Visit>)

  predicate Past(states: States, now: int) {
    forall c | c in states && states[c].lastBackfill.Some? :: states[c].lastBackfill.value < now
  }

  predicate Sane(tick: Tick, threshold: int, limit: nat) {
    && Page(tick.t, threshold, tick.now, limit, tick.page)
    && Takes(tick.page, tick.visits) && InTime(tick.now, tick.visits)
  }

  /** The next tick finds the states as the passes of the last one left them; posts,
      followers, reads and bans may have changed in any way. */
  predicate Follows(a: Tick, b: Tick, ttl: int) {
    && b.t.states == AllVisited(a.t.states, a.visits, ttl) && a.now < b.now
    && (forall i | 0 <= i < |a.visits| :: a.visits[i].at < b.now)
  }

  /** The ticks of one worker. */
  ghost predicate Ticking(ticks: seq<Tick>, threshold: int, limit: nat, ttl: int) {
    && (ticks != [] ==> Past(ticks[0].t.states, ticks[0].now))
    && (forall i | 0 <= i < |ticks| :: Sane(ticks[i], threshold, limit))
    && (forall i, j | 0 <= i && j == i + 1 < |ticks| :: Follows(ticks[i], ticks[j], ttl))
  }

  lemma NextServedAt(a: Tick, b: Tick, threshold: int, limit: nat, ttl: int, c: int)
    requires Sane(a, threshold, limit) && Follows(a, b, ttl)
    ensures Updated(a.t.states, b.t.states, a.visits, c) && Served(a.visits) <= Sorting.Elements(a.page)
    ensures c in Served(a.visits) ==>
      ServedAt(b.t.states, c).Some? && a.now <= ServedAt(b.t.states, c).value < b.now
  {
    TickServes(a.t, threshold, a.now, limit, a.page, a.visits, ttl);
    assert Updated(a.t.states, AllVisited(a.t.states, a.visits, ttl), a.visits, c);
  }

  lemma {:induction false} TickingPast(ticks: seq<Tick>, threshold: int, limit: nat, ttl: int, k: nat)
    requires Ticking(ticks, threshold, limit, ttl) && k < |ticks|
    ensures Past(ticks[k].t.states, ticks[k].now)
  {
    if k > 0 {
      var a, b := ticks[k - 1], ticks[k];
      TickingPast(ticks, threshold, limit, ttl, k - 1);
      assert Follows(a, b, ttl) && Sane(a, threshold, limit);
      forall c | c in b.t.states && b.t.states[c].lastBackfill.Some?
        ensures b.t.states[c].lastBackfill.value < b.now
      {
        NextServedAt(a, b, threshold, limit, ttl, c);
      }
    }
  }

  function Line(tick: Tick, threshold: int, channel: int): set<int> {
    Ahead(tick.t, threshold, tick.now, channel)
  }

  /** Places of the page whose channel was not sent to the back: deferred, raising, or not
      come to. */
  function Kept(tick: Tick): int { |tick.page| - |Served(tick.visits)| }

  /** Those that stand before `channel` at the next tick and did not at this one. */
  function Entered(a: Tick, b: Tick, threshold: int, channel: int): set<int> {
    Line(b, threshold, channel) - Line(a, threshold, channel)
  }

  /** Those that have left the line without being served. */
  function Left(a: Tick, b: Tick, threshold: int, channel: int): set<int> {
    Line(a, threshold, channel) - Line(b, threshold, channel) - Served(a.visits)
  }

  lemma {:induction false} Subset(a: set<int>, b: set<int>)
    requires a <= b
    ensures |a| <= |b|
  {
    assert b == a + (b - a);
  }

  lemma PageIsAhead(t: Tables, threshold: int, now: int, limit: nat, page: seq<int>, channel: int)
    requires Page(t, threshold, now, limit, page) && channel in Eligible(t, threshold, now) && channel !in page
    ensures |page| == limit && Sorting.Elements(page) <= Ahead(t, threshold, now, channel)
    ensures |Sorting.Elements(page)| == limit
  {
    Sorting.DistinctBySize(page);
    Subset(Sorting.Elements(page), Eligible(t, threshold, now) - {channel});
    forall d | d in Sorting.Elements(page) ensures d in Ahead(t, threshold, now, channel) {
      var i :| 0 <= i < |page| && page[i] == d;
    }
  }

  lemma SetLaw(before: set<int>, after: set<int>, served: set<int>)
    requires served <= before && served !! after
    ensures |after| + |served| + |before - after - served| == |before| + |after - before|
  {
    var both := before * after;
    assert before == both + (before - after) && both !! before - after;
    assert after == both + (after - before) && both !! after - before;
    assert before - after == served + (before - after - served) && served !! before - after - served;
  }

  /** One tick that passes over an eligible channel: the line before it loses those served
      and those that left, and gains those that entered. */
  lemma TickMoves(a: Tick, b: Tick, threshold: int, limit: nat, ttl: int, channel: int)
    requires Sane(a, threshold, limit) && Follows(a, b, ttl) && Past(a.t.states, a.now)
    requires channel in Eligible(a.t, threshold, a.now) && channel !in a.page
    ensures |Line(b, threshold, channel)| + limit + |Left(a, b, threshold, channel)|
      == |Line(a, threshold, channel)| + Kept(a) + |Entered(a, b, threshold, channel)|
  {
    PageIsAhead(a.t, threshold, a.now, limit, a.page, channel);
    NextServedAt(a, b, threshold, limit, ttl, channel);
    forall d | d in Served(a.visits) ensures d !in Line(b, threshold, channel) {
      NextServedAt(a, b, threshold, limit, ttl, d);
    }
    SetLaw(Line(a, threshold, channel), Line(b, threshold, channel), Served(a.visits));
  }

  function KeptBy(ticks: seq<Tick>, k: nat): int
    requires k <= |ticks|
  {
    if k == 0 then 0 else KeptBy(ticks, k - 1) + Kept(ticks[k - 1])
  }

  function EnteredBy(ticks: seq<Tick>, threshold: int, channel: int, k: nat): nat
    requires k < |ticks|
  {
    if k == 0 then 0
    else EnteredBy(ticks, threshold, channel, k - 1) + |Entered(ticks[k - 1], ticks[k], threshold, channel)|
  }

  function LeftBy(ticks: seq<Tick>, threshold: int, channel: int, k: nat): nat
    requires k < |ticks|
  {
    if k == 0 then 0
    else LeftBy(ticks, threshold, channel, k - 1) + |Left(ticks[k - 1], ticks[k], threshold, channel)|
  }

  /** A channel that is eligible at the first `k` ticks and on none of their pages. */
  predicate PassedOver(ticks: seq<Tick>, threshold: int, channel: int, k: nat)
    requires k <= |ticks|
  {
    forall i | 0 <= i < k :: channel in Eligible(ticks[i].t, threshold, ticks[i].now) && channel !in ticks[i].page
  }

  /** `k` full pages came off the line, but for the places kept, and for those that entered
      and left. */
  predicate Balances(ticks: seq<Tick>, threshold: int, limit: nat, channel: int, k: nat)
    requires k < |ticks|
  {
    |Line(ticks[k], threshold, channel)| + Keyset.Room(k, limit) + LeftBy(ticks, threshold, channel, k)
    == |Line(ticks[0], threshold, channel)| + KeptBy(ticks, k) + EnteredBy(ticks, threshold, channel, k)
  }

  /** The line's exact account. */
  lemma {:induction false} LineMoves(ticks: seq<Tick>, threshold: int, limit: nat, ttl: int, channel: int, k: nat)
    requires Ticking(ticks, threshold, limit, ttl) && k < |ticks| && PassedOver(ticks, threshold, channel, k)
    ensures Balances(ticks, threshold, limit, channel, k)
  {
    if k > 0 {
      LineMoves(ticks, threshold, limit, ttl, channel, k - 1);
      BalancesNext(ticks, threshold, limit, ttl, channel, k - 1);
    }
  }

  lemma BalancesNext(ticks: seq<Tick>, threshold: int, limit: nat, ttl: int, channel: int, k: nat)
    requires Ticking(ticks, threshold, limit, ttl) && k + 1 < |ticks| && PassedOver(ticks, threshold, channel, k + 1)
    requires Balances(ticks, threshold, limit, channel, k)
    ensures Balances(ticks, threshold, limit, channel, k + 1)
  {
    TickingPast(ticks, threshold, limit, ttl, k);
    assert Follows(ticks[k], ticks[k + 1], ttl) && Sane(ticks[k], threshold, limit);
    TickMoves(ticks[k], ticks[k + 1], threshold, limit, ttl, channel);
  }

  /** A channel that stays eligible is picked as soon as the pages had room for those that
      stood before it, those that entered, and the places that were kept. */
  lemma PickedInTime(ticks: seq<Tick>, threshold: int, limit: nat, ttl: int, channel: int, k: nat)
    requires Ticking(ticks, threshold, limit, ttl) && k < |ticks|
    requires forall i | 0 <= i <= k :: channel in Eligible(ticks[i].t, threshold, ticks[i].now)
    requires |Line(ticks[0], threshold, channel)| + KeptBy(ticks, k) + EnteredBy(ticks, threshold, channel, k)
      < Keyset.Room(k + 1, limit)
    ensures exists i | 0 <= i <= k :: channel in ticks[i].page
  {
    if forall i | 0 <= i <= k :: channel !in ticks[i].page {
      LineMoves(ticks, threshold, limit, ttl, channel, k);
      var last := ticks[k];
      assert Sane(last, threshold, limit);
      PageIsAhead(last.t, threshold, last.now, limit, last.page, channel);
      Subset(Sorting.Elements(last.page), Line(last, threshold, channel));
    }
  }

  lemma ServedAll(tick: Tick, threshold: int, limit: nat)
    requires Sane(tick, threshold, limit) && TakesAll(tick.page, tick.visits)
    requires forall i | 0 <= i < |tick.visits| :: Serves(tick.visits[i].ending)
    ensures Served(tick.visits) == Sorting.Elements(tick.page) && Kept(tick) == 0
  {
    Sorting.DistinctBySize(tick.page);
    assert |tick.visits| == |tick.page|;
    forall c | c in Sorting.Elements(tick.page) ensures c in Served(tick.visits) {
      var i :| 0 <= i < |tick.page| && tick.page[i] == c;
      assert Serves(tick.visits[i].ending) && tick.visits[i].channel == c;
    }
  }

  lemma {:induction false} NoneKept(ticks: seq<Tick>, threshold: int, limit: nat, ttl: int, k: nat)
    requires Ticking(ticks, threshold, limit, ttl) && k <= |ticks| && AllEnd(ticks)
    ensures KeptBy(ticks, k) == 0
  {
    if k > 0 {
      NoneKept(ticks, threshold, limit, ttl, k - 1);
      assert Sane(ticks[k - 1], threshold, limit);
      ServedAll(ticks[k - 1], threshold, limit);
    }
  }

  /** No pass meets a FloodWait, raises or dies. */
  predicate AllEnd(ticks: seq<Tick>) {
    forall k | 0 <= k < |ticks| :: TakesAll(ticks[k].page, ticks[k].visits)
      && forall i | 0 <= i < |ticks[k].visits| :: Serves(ticks[k].visits[i].ending)
  }

  /** While every pass ends in a release or a completion, an eligible channel is not only
      picked but served, in its turn. */
  lemma ServedInTurn(ticks: seq<Tick>, threshold: int, limit: nat, ttl: int, channel: int, k: nat)
    requires Ticking(ticks, threshold, limit, ttl) && k < |ticks| && AllEnd(ticks)
    requires forall i | 0 <= i <= k :: channel in Eligible(ticks[i].t, threshold, ticks[i].now)
    requires |Line(ticks[0], threshold, channel)| + EnteredBy(ticks, threshold, channel, k) < Keyset.Room(k + 1, limit)
    ensures exists i | 0 <= i <= k :: channel in Served(ticks[i].visits)
  {
    NoneKept(ticks, threshold, limit, ttl, k);
    PickedInTime(ticks, threshold, limit, ttl, channel, k);
    var i :| 0 <= i <= k && channel in ticks[i].page;
    assert Sane(ticks[i], threshold, limit);
    ServedAll(ticks[i], threshold, limit);
  }

  // ---- a line that does not move --------------------------------------------------------

  lemma FirstIsPicked(t: Tables, threshold: int, now: int, limit: nat, page: seq<int>, first: int)
    requires Page(t, threshold, now, limit, page) && limit > 0 && first in Eligible(t, threshold, now)
    requires forall d | d in Eligible(t, threshold, now) && d != first :: Behind(t.states, first, d)
    ensures page != [] && page[0] == first
  {
    Subset({first}, Eligible(t, threshold, now));
    var front := page[0];
    assert front in Sorting.Elements(page);
    assert first in page || !Behind(t.states, first, front);
    assert forall i | 0 < i < |page| :: !Behind(t.states, page[i], front);
  }

  /** The passes of the channel in front never send it back, and nobody is taken after
      it: it raises, or there is one channel a tick. */
  predicate FrontStays(tick: Tick, limit: nat, first: int) {
    forall i | 0 <= i < |tick.visits| && tick.visits[i].channel == first ::
      tick.visits[i].ending.Crash? || (limit == 1 && tick.visits[i].ending.Defer?)
  }

  lemma FrontServesNone(tick: Tick, threshold: int, limit: nat, first: int)
    requires Sane(tick, threshold, limit) && limit > 0 && FrontStays(tick, limit, first)
    requires tick.page != [] && tick.page[0] == first
    ensures Served(tick.visits) == {}
  {
    assert tick.visits != [] ==> tick.visits[0].channel == first;
    assert |tick.visits| <= 1;
  }

  lemma NoneServed(a: Tick, b: Tick, threshold: int, limit: nat, ttl: int)
    requires Sane(a, threshold, limit) && Follows(a, b, ttl) && Served(a.visits) == {}
    ensures forall c :: ServedAt(b.t.states, c) == ServedAt(a.t.states, c)
  {
    forall c ensures ServedAt(b.t.states, c) == ServedAt(a.t.states, c) {
      NextServedAt(a, b, threshold, limit, ttl, c);
    }
  }

  /** `first` is eligible at each tick, and stood before whoever else is eligible at any. */
  ghost predicate InFront(ticks: seq<Tick>, threshold: int, first: int) {
    forall i | 0 <= i < |ticks| :: FrontOf(ticks[0].t.states, ticks[i], threshold, first)
  }

  ghost predicate FrontOf(states: States, tick: Tick, threshold: int, first: int) {
    && first in Eligible(tick.t, threshold, tick.now)
    && forall d | d in Eligible(tick.t, threshold, tick.now) && d != first :: Behind(states, first, d)
  }

  lemma FrontPicked(states: States, tick: Tick, threshold: int, limit: nat, first: int)
    requires Sane(tick, threshold, limit) && limit > 0 && FrontStays(tick, limit, first)
    requires FrontOf(states, tick, threshold, first)
    requires forall c :: ServedAt(tick.t.states, c) == ServedAt(states, c)
    ensures tick.page != [] && tick.page[0] == first && Served(tick.visits) == {}
  {
    FirstIsPicked(tick.t, threshold, tick.now, limit, tick.page, first);
    FrontServesNone(tick, threshold, limit, first);
  }

  /** A channel that stands before all others, is eligible again at each tick and whose
      passes all raise, is picked first for ever, and no channel is ever served; likewise
      with FloodWaits at one channel a tick. */
  lemma {:induction false} FrontStarves(ticks: seq<Tick>, threshold: int, limit: nat, ttl: int, first: int, k: nat)
    requires Ticking(ticks, threshold, limit, ttl) && limit > 0 && k < |ticks| && InFront(ticks, threshold, first)
    requires forall i | 0 <= i < |ticks| :: FrontStays(ticks[i], limit, first)
    ensures ticks[k].page != [] && ticks[k].page[0] == first && Served(ticks[k].visits) == {}
    ensures forall c :: ServedAt(ticks[k].t.states, c) == ServedAt(ticks[0].t.states, c)
  {
    if k > 0 {
      FrontStarves(ticks, threshold, limit, ttl, first, k - 1);
      assert Follows(ticks[k - 1], ticks[k], ttl) && Sane(ticks[k - 1], threshold, limit);
      NoneServed(ticks[k - 1], ticks[k], threshold, limit, ttl);
    }
    FrontPicked(ticks[0].t.states, ticks[k], threshold, limit, first);
  }

  // ---- such a line ----------------------------------------------------------------------

  predicate AllFree(states: States, now: int) {
    forall c | c in states :: Free(states[c], now)
  }

  function RaisedIn(t: Tables, first: int, now: int, ttl: int): Tables {
    t.(states := Visited(t.states, Visit(first, now, now, Crash), ttl))
  }

  /** `n` ticks whose first pass raises. */
  function Raising(t: Tables, page: seq<int>, now: int, gap: int, ttl: int, n: nat): (ticks: seq<Tick>)
    requires page != []
    ensures |ticks| == n
    ensures forall i | 0 <= i < n :: ticks[i].page == page && |ticks[i].visits| == 1
    decreases n
  {
    if n == 0 then []
    else
      [Tick(t, now, page, [Visit(page[0], now, now, Crash)])]
        + Raising(RaisedIn(t, page[0], now, ttl), page, now + gap, gap, ttl, n - 1)
  }

  lemma RaisedChannel(t: Tables, threshold: int, now: int, next: int, ttl: int, first: int, c: int)
    requires first in Eligible(t, threshold, now) && AllFree(t.states, now) && now <= now + ttl < next
    ensures var t' := RaisedIn(t, first, now, ttl);
      && ServedAt(t'.states, c) == ServedAt(t.states, c)
      && (c in Eligible(t', threshold, next) <==> c in Eligible(t, threshold, now))
      && (c in t'.states ==> Free(t'.states[c], next))
  {
    UnreadIgnoresStates(t, RaisedIn(t, first, now, ttl).states, c);
  }

  lemma SamePage(t: Tables, t': Tables, threshold: int, now: int, next: int, limit: nat, page: seq<int>)
    requires Page(t, threshold, now, limit, page) && Eligible(t', threshold, next) == Eligible(t, threshold, now)
    requires forall c :: ServedAt(t'.states, c) == ServedAt(t.states, c)
    ensures Page(t', threshold, next, limit, page)
  {
  }

  /** Once the lock has run out the tables answer as before. */
  lemma RaisedSame(t: Tables, page: seq<int>, threshold: int, limit: nat, now: int, gap: int, ttl: int)
    requires Page(t, threshold, now, limit, page) && page != [] && AllFree(t.states, now) && 0 <= ttl < gap
    ensures var t' := RaisedIn(t, page[0], now, ttl);
      && (forall c :: ServedAt(t'.states, c) == ServedAt(t.states, c))
      && Eligible(t', threshold, now + gap) == Eligible(t, threshold, now)
      && Page(t', threshold, now + gap, limit, page) && AllFree(t'.states, now + gap)
  {
    var t' := RaisedIn(t, page[0], now, ttl);
    assert page[0] in Sorting.Elements(page);
    forall c
      ensures ServedAt(t'.states, c) == ServedAt(t.states, c)
      ensures c in Eligible(t', threshold, now + gap) <==> c in Eligible(t, threshold, now)
      ensures c in t'.states ==> Free(t'.states[c], now + gap)
    {
      RaisedChannel(t, threshold, now, now + gap, ttl, page[0], c);
    }
    SamePage(t, t', threshold, now, now + gap, limit, page);
  }

  ghost predicate Stuck(ticks: seq<Tick>, threshold: int, limit: nat, ttl: int, first: int) {
    && Ticking(ticks, threshold, limit, ttl) && InFront(ticks, threshold, first)
    && forall i | 0 <= i < |ticks| :: FrontStays(ticks[i], limit, first)
  }

  lemma {:induction false} RaisingStuck(t: Tables, page: seq<int>, threshold: int, limit: nat, now: int, gap: int,
      ttl: int, n: nat)
    requires Page(t, threshold, now, limit, page) && page != [] && AllFree(t.states, now) && 0 <= ttl < gap
    requires Past(t.states, now)
    requires forall d | d in Eligible(t, threshold, now) && d != page[0] :: Behind(t.states, page[0], d)
    ensures Stuck(Raising(t, page, now, gap, ttl, n), threshold, limit, ttl, page[0])
    decreases n
  {
    if n > 0 {
      var t', v := RaisedIn(t, page[0], now, ttl), Visit(page[0], now, now, Crash);
      var rest := Raising(t', page, now + gap, gap, ttl, n - 1);
      RaisedSame(t, page, threshold, limit, now, gap, ttl);
      StillPast(t.states, t'.states, now, now + gap);
      RaisingStuck(t', page, threshold, limit, now + gap, gap, ttl, n - 1);
      OneMore(Tick(t, now, page, [v]), rest, threshold, limit, ttl, page[0]);
    }
  }

  lemma StillPast(states: States, states': States, now: int, next: int)
    requires Past(states, now) && now <= next && forall c :: ServedAt(states', c) == ServedAt(states, c)
    ensures Past(states', next)
  {
    assert forall c | c in states' :: states'[c].lastBackfill == ServedAt(states, c);
  }

  lemma OneMore(tick: Tick, rest: seq<Tick>, threshold: int, limit: nat, ttl: int, first: int)
    requires Stuck(rest, threshold, limit, ttl, first) && Sane(tick, threshold, limit)
    requires Past(tick.t.states, tick.now) && FrontStays(tick, limit, first)
    requires FrontOf(tick.t.states, tick, threshold, first)
    requires rest != [] ==> Follows(tick, rest[0], ttl)
    requires rest != [] ==> forall c :: ServedAt(rest[0].t.states, c) == ServedAt(tick.t.states, c)
    ensures Stuck([tick] + rest, threshold, limit, ttl, first)
  {
    var all := [tick] + rest;
    forall i | 0 <= i < |all| ensures FrontOf(tick.t.states, all[i], threshold, first) {
      assert i > 0 ==> all[i] == rest[i - 1] && FrontOf(rest[0].t.states, rest[i - 1], threshold, first);
    }
    forall i, j | 0 <= i && j == i + 1 < |all| ensures Follows(all[i], all[j], ttl) {
      assert all[j] == rest[i] && (i > 0 ==> all[i] == rest[i - 1]);
    }
    assert forall i | 0 < i < |all| :: all[i] == rest[i - 1];
  }

  /** One channel whose every pass raises: whatever the page's size, with ticks further
      apart than the lock lasts, it is the only one tried, and none is ever served. */
  lemma OneBadChannelStarvesAll(t: Tables, page: seq<int>, threshold: int, limit: nat, now: int, gap: int, ttl: int,
      n: nat)
    requires Page(t, threshold, now, limit, page) && page != [] && AllFree(t.states, now) && 0 <= ttl < gap
    requires Past(t.states, now)
    requires forall d | d in Eligible(t, threshold, now) && d != page[0] :: Behind(t.states, page[0], d)
    ensures var ticks := Raising(t, page, now, gap, ttl, n);
      && Ticking(ticks, threshold, limit, ttl)
      && forall k | 0 <= k < n :: ticks[k].page == page && |ticks[k].visits| == 1 && Served(ticks[k].visits) == {}
  {
    var ticks := Raising(t, page, now, gap, ttl, n);
    RaisingStuck(t, page, threshold, limit, now, gap, ttl, n);
    forall k | 0 <= k < n ensures Served(ticks[k].visits) == {} {
      FrontStarves(ticks, threshold, limit, ttl, page[0], k);
    }
  }
}
