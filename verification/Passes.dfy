/** A tick of the history worker as a pass under the lock: which acquisition and which end
    it is, and when the channel can be picked again. */
module Passes {
  import opened Prelude
  import opened Convergence
  import opened HistoryBackfill
  import opened HistoryFaults
  import PostStore
  import Ingest
  import BackfillLock
  import Turns

  // ---- how a picked tick ends -----------------------------------------------------------

  /** `oldest` is the last of the `n` newest messages below `cursor`, or of all there are. */
  predicate OldestOf(r: Remote, cursor: int, n: nat, oldest: int) {
    && oldest in r && oldest < cursor
    && |Below(r, oldest)| + n == (if n < |Below(r, cursor)| then |Below(r, cursor)| else n)
  }

  /** A FloodWait defers for as long as it asks; a failed fetch releases at the cursor; a
      fetch that finds nothing closes the channel; another releases at its oldest message. */
  predicate EndsWith(w: Store, s: Settings, outcome: Outcome, ending: BackfillLock.Ending)
    requires Cursor(w.db, w.states, s.channel).Some?
  {
    var cursor := Cursor(w.db, w.states, s.channel).value;
    match outcome
    case FloodWait(seconds) => ending == BackfillLock.Defer(seconds)
    case Failed => ending == BackfillLock.Release(cursor)
    case Fetched => FetchEndsWith(s, cursor, ending)
  }

  predicate FetchEndsWith(s: Settings, cursor: int, ending: BackfillLock.Ending) {
    if Below(s.remote, cursor) == {} then ending == BackfillLock.Complete
    else ending.Release? && OldestOf(s.remote, cursor, s.batchSize, ending.oldest)
  }

  /** The states after a lock won and a pass ended, at the same time. */
  function AfterPass(states: BackfillLock.States, s: Settings, now: int, ending: BackfillLock.Ending)
    : BackfillLock.States
  {
    var tried := BackfillLock.Step(BackfillLock.World(states, map[], now),
      BackfillLock.Try(now, s.channel, 0, s.ttl));
    BackfillLock.Step(tried, BackfillLock.End(now, s.channel, 0, ending)).states
  }

  lemma PassIsVisit(states: BackfillLock.States, s: Settings, now: int, ending: BackfillLock.Ending)
    requires BackfillLock.Grants(states, s.channel, now)
    ensures AfterPass(states, s, now, ending)
      == Turns.Visited(states, Turns.Visit(s.channel, now, now, ending), s.ttl)
  {
  }

  function FetchEnding(s: Settings, cursor: int): BackfillLock.Ending {
    var batch := FetchBelow(s.remote, cursor, s.batchSize);
    if batch == [] then BackfillLock.Complete else BackfillLock.Release(OldestId(batch))
  }

  lemma FetchEndingIs(s: Settings, cursor: int)
    requires (forall id | id in s.remote :: s.remote[id].id == id) && s.batchSize > 0
    ensures FetchEndsWith(s, cursor, FetchEnding(s, cursor))
  {
    BatchIsSpan(s.channel, s.remote, cursor, s.batchSize);
    if FetchBelow(s.remote, cursor, s.batchSize) != [] {
      OldestIsRemote(s.remote, cursor, s.batchSize);
    }
  }

  lemma FetchStates(w: Store, s: Settings, t: Tick)
    requires Picks(w, s, t.now) && t.outcome.Fetched? && Step(w, s, t).Some?
    ensures Step(w, s, t).value.states
      == AfterPass(w.states, s, t.now, FetchEnding(s, Cursor(w.db, w.states, s.channel).value))
  {
  }

  lemma OldestIsRemote(r: Remote, cursor: int, n: nat)
    requires (forall id | id in r :: r[id].id == id) && FetchBelow(r, cursor, n) != []
    ensures OldestId(FetchBelow(r, cursor, n)) in r
  {
    var batch := FetchBelow(r, cursor, n);
    BatchIsSpan(0, r, cursor, n);
    var m := OldestMessage(batch);
    assert Fed(0, m) in FedOf(0, batch);
  }

  lemma {:induction false} OldestMessage(msgs: seq<Ingest.Message>) returns (m: Ingest.Message)
    requires msgs != []
    ensures m in msgs && m.id == OldestId(msgs)
  {
    m := msgs[|msgs| - 1];
    if |msgs| > 1 {
      var front := msgs[..|msgs| - 1];
      var x := OldestMessage(front);
      m := if x.id < m.id then x else m;
    }
  }

  /** A tick that picks the channel is one acquisition of its lock and one end of the pass,
      as its outcome says; any other tick changes nothing. So the theorems about passes and
      about the line speak of ticks. */
  lemma TickIsPass(w: Store, s: Settings, t: Tick) returns (ending: BackfillLock.Ending)
    requires Sound(w, s) && s.batchSize > 0
    ensures Step(w, s, t).Some?
    ensures !Picks(w, s, t.now) ==> Step(w, s, t) == Some(w)
    ensures Picks(w, s, t.now) ==>
      && BackfillLock.Grants(w.states, s.channel, t.now) && EndsWith(w, s, t.outcome, ending)
      && Step(w, s, t).value.states == AfterPass(w.states, s, t.now, ending)
      && (!t.outcome.Fetched? ==> Step(w, s, t).value.db == w.db && Step(w, s, t).value.fed == w.fed)
  {
    ending := BackfillLock.Crash;
    if Picks(w, s, t.now) {
      match t.outcome
      case FloodWait(seconds) => ending := BackfillLock.Defer(seconds);
      case Failed => ending := BackfillLock.Release(Cursor(w.db, w.states, s.channel).value);
      case Fetched =>
        ending := FetchEnding(s, Cursor(w.db, w.states, s.channel).value);
        FetchedPass(w, s, t);
        FetchEndingIs(s, Cursor(w.db, w.states, s.channel).value);
        FetchStates(w, s, t);
    }
  }

  /** A pass whose worker dies is an acquisition that ends in a crash. */
  lemma CrashIsPass(w: Store, s: Settings, now: int, k: nat)
    requires Sound(w, s) && Picks(w, s, now)
    ensures var r := Interrupted(w, s, now, k);
      r.Some? && r.value.states == AfterPass(w.states, s, now, BackfillLock.Crash)
  {
    InterruptedHolds(w, s, now, k);
    Crashed(w, s, now, k);
  }

  lemma Crashed(w: Store, s: Settings, now: int, k: nat)
    requires Picks(w, s, now)
    ensures var r := Interrupted(w, s, now, k);
      r.Some? ==> r.value.states == AfterPass(w.states, s, now, BackfillLock.Crash)
  {
  }

  /** So is a pass in which an upsert raises. */
  lemma RaiseIsPass(w: Store, s: Settings, now: int, db: PostStore.Db, states: BackfillLock.States)
    requires Sound(w, s) && Picks(w, s, now) && Broken(w, s, now, db, states)
    ensures states == AfterPass(w.states, s, now, BackfillLock.Crash)
  {
  }

  // ---- when the channel is picked again -------------------------------------------------

  /** After a tick that picked it the channel is picked again: after a FloodWait, exactly
      once the wait is over; after a fetch that found nothing, never; else at any time. */
  lemma PicksAgainIff(w: Store, s: Settings, t: Tick, now: int)
    requires Sound(w, s) && s.batchSize > 0 && Picks(w, s, t.now)
    ensures Step(w, s, t).Some?
    ensures Picks(Step(w, s, t).value, s, now) <==>
      match t.outcome
      case FloodWait(seconds) => now > t.now + seconds
      case Failed => true
      case Fetched => Below(s.remote, Cursor(w.db, w.states, s.channel).value) != {}
  {
    var ending := TickIsPass(w, s, t);
    if t.outcome.Fetched? {
      FetchedPass(w, s, t);
    }
  }

  /** A FloodWait moves neither the cursor nor the channel's place in the line. */
  lemma FloodWaitKeeps(w: Store, s: Settings, t: Tick)
    requires Sound(w, s) && s.batchSize > 0 && Picks(w, s, t.now) && t.outcome.FloodWait?
    ensures Step(w, s, t).Some?
    ensures var w' := Step(w, s, t).value;
      && Cursor(w'.db, w'.states, s.channel) == Cursor(w.db, w.states, s.channel)
      && StoredCursor(w'.states, s.channel) == StoredCursor(w.states, s.channel)
      && Turns.ServedAt(w'.states, s.channel) == Turns.ServedAt(w.states, s.channel)
      && (forall c | c != s.channel :: c in w'.states <==> c in w.states)
      && (forall c | c != s.channel && c in w.states :: w'.states[c] == w.states[c])
  {
  }

  function TimeOf(e: Event): Option<int> {
    match e
    case Pass(t) => Some(t.now)
    case Crash(now, _) => Some(now)
    case Other(_) => None
  }

  /** Whatever tries the channel does so in the order of time. */
  predicate InOrder(es: seq<Event>) {
    forall i, j | 0 <= i < j < |es| && TimeOf(es[i]).Some? && TimeOf(es[j]).Some? ::
      TimeOf(es[i]).value <= TimeOf(es[j]).value
  }

  ghost predicate LockedUntil(states: BackfillLock.States, channel: int, until: int) {
    channel in states && states[channel].lockedUntil == Some(until)
  }

  lemma LockedStays(w: Store, s: Settings, h: set<Fed>, e: Event, until: int)
    requires InHistory(w, s, h) && FeedsOf([e], h) && LockedUntil(w.states, s.channel, until)
    requires TimeOf(e).Some? ==> TimeOf(e).value <= until
    ensures TimeOf(e).Some? ==> !Picks(w, s, TimeOf(e).value)
    ensures Happen(w, s, e).Some? && InHistory(Happen(w, s, e).value, s, h)
    ensures LockedUntil(Happen(w, s, e).value.states, s.channel, until)
  {
    if e.Other? {
      assert [e][0].Other?;
      OtherAdds(w, s, h, e.feed);
    }
  }

  /** A FloodWait is respected: through any later ticks, crashes and other feeds nothing
      picks the channel before the wait is over. */
  lemma FloodWaitRespected(w: Store, s: Settings, h: set<Fed>, t: Tick, es: seq<Event>, k: nat)
    requires InHistory(w, s, h) && FeedsOf(es, h) && InOrder(es) && k < |es|
    requires Picks(w, s, t.now) && t.outcome.FloodWait?
    requires TimeOf(es[k]).Some? && TimeOf(es[k]).value <= t.now + t.outcome.seconds
    ensures Step(w, s, t).Some? && Life(Step(w, s, t).value, s, es[..k]).Some?
    ensures !Picks(Life(Step(w, s, t).value, s, es[..k]).value, s, TimeOf(es[k]).value)
  {
    WaitStands(w, s, h, t, es, k, TimeOf(es[k]).value);
  }

  lemma {:induction false} WaitStands(w: Store, s: Settings, h: set<Fed>, t: Tick, es: seq<Event>, k: nat, now: int)
    requires InHistory(w, s, h) && FeedsOf(es, h) && k <= |es|
    requires Picks(w, s, t.now) && t.outcome.FloodWait? && now <= t.now + t.outcome.seconds
    requires forall i | 0 <= i < k && TimeOf(es[i]).Some? :: TimeOf(es[i]).value <= now
    ensures Step(w, s, t).Some? && Life(Step(w, s, t).value, s, es[..k]).Some?
    ensures var later := Life(Step(w, s, t).value, s, es[..k]).value;
      InHistory(later, s, h) && LockedUntil(later.states, s.channel, t.now + t.outcome.seconds)
    decreases k
  {
    if k > 0 {
      WaitStands(w, s, h, t, es, k - 1, now);
      assert es[..k][..k - 1] == es[..k - 1];
      assert FeedsOf([es[k - 1]], h) by {
        assert es[k - 1].Other? ==> FeedOf(es[k - 1].feed, h);
      }
      LockedStays(Life(Step(w, s, t).value, s, es[..k - 1]).value, s, h, es[k - 1], t.now + t.outcome.seconds);
    }
  }
}
