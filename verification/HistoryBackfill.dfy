/** Walking a channel's history downwards, a batch per tick. */
module HistoryBackfill {
  import opened Prelude
  import opened PostStore
  import opened Ingest
  import opened Convergence
  import opened BackfillLock

  /** The messages Telegram has for a channel, by id. */
  type Remote = map<int, Message>

  function Below(r: Remote, maxId: int): set<int> {
    set id | id in r && id < maxId
  }

  function NewestIds(s: set<int>, limit: nat): seq<int> {
    if limit == 0 || s == {} then [] else [Max(s)] + NewestIds(s - {Max(s)}, limit - 1)
  }

  function MessagesAt(r: Remote, ids: seq<int>): seq<Message>
    requires forall k | 0 <= k < |ids| :: ids[k] in r
  {
    if ids == [] then [] else [r[ids[0]]] + MessagesAt(r, ids[1..])
  }

  /** `iter_messages(max_id=..., limit=...)`: the newest messages strictly below. */
  function FetchBelow(r: Remote, maxId: int, limit: nat): seq<Message> {
    var ids := NewestIds(Below(r, maxId), limit);
    NewestAre(Below(r, maxId), limit);
    MessagesAt(r, ids)
  }

  function OldestId(msgs: seq<Message>): int
    requires msgs != []
  {
    if |msgs| == 1 then msgs[0].id
    else var rest := OldestId(msgs[..|msgs| - 1]); if msgs[|msgs| - 1].id < rest then msgs[|msgs| - 1].id else rest
  }

  /** The newest ids of a set: as many as asked for, downwards without a gap. */
  lemma {:induction false} NewestAre(s: set<int>, limit: nat)
    ensures var ids := NewestIds(s, limit);
      && |ids| == (if limit < |s| then limit else |s|)
      && (forall k | 0 <= k < |ids| :: ids[k] in s)
      && (forall i, j | 0 <= i < j < |ids| :: ids[i] > ids[j])
      && (forall x, y | x in ids && y in s && y !in ids :: y < x)
  {
    if limit > 0 && s != {} {
      var rest := NewestIds(s - {Max(s)}, limit - 1);
      NewestAre(s - {Max(s)}, limit - 1);
      forall k | 0 <= k < |rest| ensures rest[k] < Max(s) {
        assert rest[k] in rest;
      }
    }
  }

  lemma {:induction false} OldestAre(r: Remote, ids: seq<int>)
    requires forall k | 0 <= k < |ids| :: ids[k] in r && r[ids[k]].id == ids[k]
    requires forall i, j | 0 <= i < j < |ids| :: ids[i] > ids[j]
    ensures var msgs := MessagesAt(r, ids);
      && |msgs| == |ids| && (forall k | 0 <= k < |ids| :: msgs[k] == r[ids[k]])
      && DistinctIds(msgs)
  {
    if ids != [] {
      OldestAre(r, ids[1..]);
    }
  }

  lemma {:induction false} OldestIsLast(msgs: seq<Message>)
    requires msgs != [] && forall i, j | 0 <= i < j < |msgs| :: msgs[i].id > msgs[j].id
    ensures OldestId(msgs) == msgs[|msgs| - 1].id
  {
    if |msgs| > 1 {
      OldestIsLast(msgs[..|msgs| - 1]);
    }
  }

  /** Messages of a channel with an id in [lo, hi). */
  function Span(channel: int, r: Remote, lo: int, hi: int): set<Fed> {
    set id | id in r && lo <= id < hi :: Fed(channel, r[id])
  }

  /** The ids fetched are those from the oldest of them up to the cursor. */
  lemma NewestAreStretch(r: Remote, maxId: int, limit: nat)
    ensures var ids := NewestIds(Below(r, maxId), limit);
      ids != [] ==>
        && ids[|ids| - 1] in Below(r, maxId)
        && (forall id :: id in ids <==> id in r && ids[|ids| - 1] <= id < maxId)
        && |Below(r, ids[|ids| - 1])| == |Below(r, maxId)| - |ids|
  {
    var s := Below(r, maxId);
    var ids := NewestIds(s, limit);
    NewestAre(s, limit);
    if ids != [] {
      var oldest := ids[|ids| - 1];
      assert oldest in ids;
      forall id | id in ids ensures oldest <= id {
        var k :| 0 <= k < |ids| && ids[k] == id;
      }
      var taken := set id | id in ids;
      assert taken <= s && Below(r, oldest) == s - taken;
      DistinctCount(ids);
    }
  }

  lemma FedOfStretch(channel: int, r: Remote, ids: seq<int>, lo: int, hi: int)
    requires forall k | 0 <= k < |ids| :: ids[k] in r && r[ids[k]].id == ids[k]
    requires forall i, j | 0 <= i < j < |ids| :: ids[i] > ids[j]
    requires forall id :: id in ids <==> id in r && lo <= id < hi
    ensures FedOf(channel, MessagesAt(r, ids)) == Span(channel, r, lo, hi)
  {
    var batch := MessagesAt(r, ids);
    OldestAre(r, ids);
    forall f | f in FedOf(channel, batch) ensures f in Span(channel, r, lo, hi) {
      var k :| 0 <= k < |batch| && f == Fed(channel, batch[k]);
      assert ids[k] in ids;
    }
    forall f | f in Span(channel, r, lo, hi) ensures f in FedOf(channel, batch) {
      var id :| id in r && lo <= id < hi && f == Fed(channel, r[id]);
      assert id in ids;
      var k :| 0 <= k < |ids| && ids[k] == id;
      assert batch[k] in batch;
    }
  }

  /** A batch is the stretch of history from its oldest message up to the cursor. */
  lemma BatchIsSpan(channel: int, r: Remote, maxId: int, limit: nat)
    requires (forall id | id in r :: r[id].id == id)
    ensures var batch := FetchBelow(r, maxId, limit); var n := |Below(r, maxId)|;
      && DistinctIds(batch) && |batch| == (if limit < n then limit else n)
      && (batch != [] ==>
            && OldestId(batch) < maxId
            && FedOf(channel, batch) == Span(channel, r, OldestId(batch), maxId)
            && |Below(r, OldestId(batch))| == n - |batch|)
  {
    var ids := NewestIds(Below(r, maxId), limit);
    var batch := FetchBelow(r, maxId, limit);
    NewestAre(Below(r, maxId), limit);
    OldestAre(r, ids);
    if batch != [] {
      OldestIsLast(batch);
      assert ids[|ids| - 1] in ids;
      NewestAreStretch(r, maxId, limit);
      FedOfStretch(channel, r, ids, OldestId(batch), maxId);
    }
  }

  lemma {:induction false} DistinctCount(ids: seq<int>)
    requires forall i, j | 0 <= i < j < |ids| :: ids[i] > ids[j]
    ensures |set id | id in ids| == |ids|
  {
    if ids != [] {
      DistinctCount(ids[1..]);
      assert (set id | id in ids) == {ids[0]} + (set id | id in ids[1..]);
    }
  }

  // ---- one pass ---------------------------------------------------------------------

  /** Ids of the stored posts of a channel. */
  function StoredIds(db: Db, channel: int): set<int> {
    set p | p in db.posts && db.posts[p].channel == channel :: db.posts[p].msgId
  }

  function StoredCursor(states: States, channel: int): Option<int> {
    if channel in states then states[channel].oldest else None
  }

  /** `COALESCE(oldest_seen_msg_id, MIN(tg_message_id))`; a channel without posts is
      not selected. */
  function Cursor(db: Db, states: States, channel: int): Option<int> {
    if StoredCursor(states, channel).Some? then StoredCursor(states, channel)
    else if StoredIds(db, channel) == {} then None
    else Some(Min(StoredIds(db, channel)))
  }

  predicate Finished(states: States, channel: int) {
    channel in states && states[channel].fully
  }

  /** How Telegram answers a fetch. */
  datatype Outcome =
    | Fetched
    | FloodWait(seconds: nat)
    | Failed

  /** The tables, the states, and (for the specification) what was fed so far. */
  datatype Store = Store(db: Db, states: States, fed: set<Fed>)

  datatype Settings = Settings(channel: int, remote: Remote, batchSize: nat, ttl: nat)

  datatype Tick = Tick(now: int, outcome: Outcome)

  /** Whether a tick picks the channel and gets its lock. */
  predicate Picks(w: Store, s: Settings, now: int) {
    && Cursor(w.db, w.states, s.channel).Some? && !Finished(w.states, s.channel)
    && Grants(w.states, s.channel, now)
  }

  /** One tick on the channel: `_one_tick` and `_backfill_one_channel`. `None` when an
      upsert raises. */
  ghost function Step(w: Store, s: Settings, t: Tick): Option<Store> {
    if !Picks(w, s, t.now) then Some(w)
    else
      var cursor := Cursor(w.db, w.states, s.channel).value;
      var states := Acquired(w.states, s.channel, s.ttl, t.now);
      match t.outcome
      case FloodWait(seconds) => Some(w.(states := Deferred(states, s.channel, seconds, t.now)))
      case Failed => Some(w.(states := Released(states, s.channel, cursor, t.now)))
      case Fetched =>
        var batch := FetchBelow(s.remote, cursor, s.batchSize);
        if batch == [] then Some(w.(states := Completed(states, s.channel, t.now)))
        else
          var r := RunJobs(w.db, BatchJobs(s.channel, batch));
          if r.Violation? then None
          else Some(Store(r.db, Released(states, s.channel, OldestId(batch), t.now), w.fed + FedOf(s.channel, batch)))
  }

  ghost function Run(w: Store, s: Settings, ts: seq<Tick>): Option<Store> {
    if ts == [] then Some(w)
    else
      var r := Run(w, s, ts[..|ts| - 1]);
      if r.None? then None else Step(r.value, s, ts[|ts| - 1])
  }

  /** Failure-free passes of a run. */
  ghost function Passes(w: Store, s: Settings, ts: seq<Tick>): nat {
    if ts == [] then 0
    else
      var r := Run(w, s, ts[..|ts| - 1]);
      Passes(w, s, ts[..|ts| - 1])
      + (if r.Some? && Picks(r.value, s, ts[|ts| - 1].now) && ts[|ts| - 1].outcome.Fetched? then 1 else 0)
  }

  /** An upsert raised: the jobs before it are committed and the lock is left set. */
  ghost predicate Broken(w: Store, s: Settings, now: int, db: Db, states: States) {
    && Cursor(w.db, w.states, s.channel).Some?
    && Stopped(w.db, BatchJobs(s.channel,
      FetchBelow(s.remote, Cursor(w.db, w.states, s.channel).value, s.batchSize)), db)
    && states == Acquired(w.states, s.channel, s.ttl, now)
  }

  /** `_one_tick` for one channel, with `_backfill_one_channel`. */
  method OneTick(tables: Tables, table: StateTable, s: Settings, t: Tick, ghost fed: set<Fed>) returns (ok: bool)
    requires Valid(tables.View())
    modifies tables, table
    ensures Valid(tables.View())
    ensures var r := Step(Store(old(tables.View()), old(table.states), fed), s, t);
      ok == r.Some? && (ok ==> tables.View() == r.value.db && table.states == r.value.states)
    ensures !ok ==> Broken(Store(old(tables.View()), old(table.states), fed), s, t.now, tables.View(), table.states)
  {
    var cursor := Cursor(tables.View(), table.states, s.channel);
    if cursor.None? || Finished(table.states, s.channel) {
      return true;
    }
    var got := table.TryAcquireLock(s.channel, s.ttl, t.now);
    if !got {
      return true;
    }
    match t.outcome {
      case FloodWait(seconds) =>
        table.DeferAfterFloodWait(s.channel, seconds, t.now);
        return true;
      case Failed =>
        table.ReleaseLock(s.channel, cursor.value, t.now);
        return true;
      case Fetched =>
    }
    var collected := FetchBelow(s.remote, cursor.value, s.batchSize);
    if collected == [] {
      table.MarkFullyBackfilled(s.channel, t.now);
      return true;
    }
    ok := IngestMessages(tables, s.channel, collected);
    if ok {
      table.ReleaseLock(s.channel, OldestId(collected), t.now);
    }
  }

  // ---- what a run ingests -------------------------------------------------------------

  /** Ids are the messages' own, and with what was fed before they form a history. */
  ghost predicate Sound(w: Store, s: Settings) {
    && (forall id | id in s.remote :: s.remote[id].id == id)
    && Holds(w.db, w.fed) && Cursor(w.db, w.states, s.channel).Some?
    && History(w.fed + Span(s.channel, s.remote, Least(s.remote), Cursor(w.db, w.states, s.channel).value))
  }

  /** A bound below every remote id. */
  function Least(r: Remote): int {
    if r.Keys == {} then 0 else Min(r.Keys)
  }

  /** After a run from `w0`: fed are exactly the messages it started with and those
      from the cursor up to where the cursor started. */
  ghost predicate Reached(w0: Store, w: Store, s: Settings) {
    var c0 := Cursor(w0.db, w0.states, s.channel);
    var c := Cursor(w.db, w.states, s.channel);
    && c0.Some? && c.Some? && c.value <= c0.value
    && Holds(w.db, w.fed)
    && w.fed == w0.fed + Span(s.channel, s.remote, c.value, c0.value)
    && (StoredCursor(w.states, s.channel).None? ==> w.db == w0.db)
    && (Finished(w.states, s.channel) ==> Below(s.remote, c.value) == {})
  }

  lemma SpanJoins(channel: int, r: Remote, a: int, b: int, c: int)
    requires a <= b <= c
    ensures Span(channel, r, a, b) + Span(channel, r, b, c) == Span(channel, r, a, c)
  {
    forall f | f in Span(channel, r, a, c) ensures f in Span(channel, r, a, b) + Span(channel, r, b, c) {
      var id :| id in r && a <= id < c && f == Fed(channel, r[id]);
      assert id < b ==> f in Span(channel, r, a, b);
    }
  }

  lemma SpanGrows(channel: int, r: Remote, a: int, b: int, c: int)
    requires a <= b || a <= Least(r)
    ensures Span(channel, r, b, c) <= Span(channel, r, a, c)
  {
  }

  lemma BatchStored(w: Store, s: Settings)
    requires Sound(w, s)
    ensures var cursor := Cursor(w.db, w.states, s.channel).value;
      var batch := FetchBelow(s.remote, cursor, s.batchSize);
      var r := RunJobs(w.db, BatchJobs(s.channel, batch));
      r.Stored? && Holds(r.db, w.fed + FedOf(s.channel, batch))
  {
    var cursor := Cursor(w.db, w.states, s.channel).value;
    var batch := FetchBelow(s.remote, cursor, s.batchSize);
    BatchIsSpan(s.channel, s.remote, cursor, s.batchSize);
    assert FedOf(s.channel, batch) <= Span(s.channel, s.remote, Least(s.remote), cursor) by {
      if batch != [] {
        SpanGrows(s.channel, s.remote, Least(s.remote), OldestId(batch), cursor);
      }
    }
    BatchHolds(w.db, w.fed, w.fed + Span(s.channel, s.remote, Least(s.remote), cursor), s.channel, batch);
  }

  lemma FetchedNothing(w: Store, s: Settings, t: Tick)
    requires Sound(w, s) && Picks(w, s, t.now) && t.outcome.Fetched?
    requires FetchBelow(s.remote, Cursor(w.db, w.states, s.channel).value, s.batchSize) == []
    ensures var r := Step(w, s, t);
      && r.Some? && Finished(r.value.states, s.channel) && r.value.db == w.db
        && r.value.fed == w.fed + FedOf(s.channel, [])
      && StoredCursor(r.value.states, s.channel) == StoredCursor(w.states, s.channel)
  {
    BatchStored(w, s);
  }

  lemma FetchedSome(w: Store, s: Settings, t: Tick)
    requires Sound(w, s) && Picks(w, s, t.now) && t.outcome.Fetched?
    requires FetchBelow(s.remote, Cursor(w.db, w.states, s.channel).value, s.batchSize) != []
    ensures var cursor := Cursor(w.db, w.states, s.channel).value;
      var batch := FetchBelow(s.remote, cursor, s.batchSize);
      var r := Step(w, s, t);
      && r.Some? && !Finished(r.value.states, s.channel) && r.value.fed == w.fed + FedOf(s.channel, batch)
      && StoredCursor(r.value.states, s.channel) == Some(OldestId(batch)) && OldestId(batch) < cursor
  {
    BatchIsSpan(s.channel, s.remote, Cursor(w.db, w.states, s.channel).value, s.batchSize);
    BatchStored(w, s);
  }

  /** A pass that fetches: the batch is stored whole and the cursor moves to its
      oldest message, strictly down; an empty batch closes the channel. */
  lemma FetchedPass(w: Store, s: Settings, t: Tick)
    requires Sound(w, s) && Picks(w, s, t.now) && t.outcome.Fetched?
    ensures var cursor := Cursor(w.db, w.states, s.channel).value;
      var batch := FetchBelow(s.remote, cursor, s.batchSize);
      var r := Step(w, s, t);
      && r.Some?
      && r.value.fed == w.fed + FedOf(s.channel, batch)
      && (batch == [] ==> Finished(r.value.states, s.channel) && r.value.db == w.db
                          && StoredCursor(r.value.states, s.channel) == StoredCursor(w.states, s.channel))
      && (batch != [] ==> StoredCursor(r.value.states, s.channel) == Some(OldestId(batch)) && OldestId(batch) < cursor
                          && !Finished(r.value.states, s.channel))
  {
    if FetchBelow(s.remote, Cursor(w.db, w.states, s.channel).value, s.batchSize) == [] {
      FetchedNothing(w, s, t);
    } else {
      FetchedSome(w, s, t);
    }
  }

  lemma FetchedHolds(w: Store, s: Settings, t: Tick)
    requires Sound(w, s) && Picks(w, s, t.now) && t.outcome.Fetched?
    ensures Step(w, s, t).Some? && Holds(Step(w, s, t).value.db, Step(w, s, t).value.fed)
  {
    FetchedPass(w, s, t);
    BatchStored(w, s);
    var batch := FetchBelow(s.remote, Cursor(w.db, w.states, s.channel).value, s.batchSize);
    if batch == [] {
      assert w.fed + FedOf(s.channel, batch) == w.fed;
    }
  }

  lemma SoundLater(w0: Store, w: Store, s: Settings)
    requires Sound(w0, s) && Reached(w0, w, s)
    ensures Sound(w, s)
  {
    var c0, c := Cursor(w0.db, w0.states, s.channel).value, Cursor(w.db, w.states, s.channel).value;
    var h0 := w0.fed + Span(s.channel, s.remote, Least(s.remote), c0);
    SpanGrows(s.channel, s.remote, Least(s.remote), c, c0);
    assert Span(s.channel, s.remote, Least(s.remote), c) <= Span(s.channel, s.remote, Least(s.remote), c0);
    assert w.fed + Span(s.channel, s.remote, Least(s.remote), c) <= h0;
  }

  /** A tick that is not picked, or whose fetch fails, moves nothing. */
  lemma QuietStep(w0: Store, w: Store, s: Settings, t: Tick)
    requires Reached(w0, w, s) && !(Picks(w, s, t.now) && t.outcome.Fetched?)
    ensures Step(w, s, t).Some? && Reached(w0, Step(w, s, t).value, s)
    ensures var w' := Step(w, s, t).value;
      Cursor(w'.db, w'.states, s.channel) == Cursor(w.db, w.states, s.channel)
      && (Finished(w'.states, s.channel) <==> Finished(w.states, s.channel))
  {
  }

  lemma EmptyStep(w0: Store, w: Store, s: Settings, t: Tick)
    requires Sound(w, s) && Reached(w0, w, s) && Picks(w, s, t.now) && t.outcome.Fetched? && s.batchSize > 0
    requires FetchBelow(s.remote, Cursor(w.db, w.states, s.channel).value, s.batchSize) == []
    ensures Step(w, s, t).Some? && Reached(w0, Step(w, s, t).value, s)
  {
    FetchedPass(w, s, t);
    BatchIsSpan(s.channel, s.remote, Cursor(w.db, w.states, s.channel).value, s.batchSize);
  }

  lemma BatchStep(w0: Store, w: Store, s: Settings, t: Tick)
    requires Sound(w, s) && Reached(w0, w, s) && Picks(w, s, t.now) && t.outcome.Fetched?
    requires FetchBelow(s.remote, Cursor(w.db, w.states, s.channel).value, s.batchSize) != []
    ensures Step(w, s, t).Some? && Reached(w0, Step(w, s, t).value, s)
  {
    var c0, cursor := Cursor(w0.db, w0.states, s.channel).value, Cursor(w.db, w.states, s.channel).value;
    var batch := FetchBelow(s.remote, cursor, s.batchSize);
    FetchedPass(w, s, t);
    FetchedHolds(w, s, t);
    BatchIsSpan(s.channel, s.remote, cursor, s.batchSize);
    var w' := Step(w, s, t).value;
    StretchAdded(s.channel, s.remote, w0.fed, OldestId(batch), cursor, c0);
  }

  lemma StretchAdded(channel: int, r: Remote, fed: set<Fed>, a: int, b: int, c: int)
    requires a <= b <= c
    ensures fed + Span(channel, r, b, c) + Span(channel, r, a, b) == fed + Span(channel, r, a, c)
  {
    SpanJoins(channel, r, a, b, c);
  }

  /** One more tick, whatever its outcome. */
  lemma StepReached(w0: Store, w: Store, s: Settings, t: Tick)
    requires Sound(w0, s) && Reached(w0, w, s) && s.batchSize > 0
    ensures Step(w, s, t).Some? && Reached(w0, Step(w, s, t).value, s)
  {
    SoundLater(w0, w, s);
    if !(Picks(w, s, t.now) && t.outcome.Fetched?) {
      QuietStep(w0, w, s, t);
    } else if FetchBelow(s.remote, Cursor(w.db, w.states, s.channel).value, s.batchSize) == [] {
      EmptyStep(w0, w, s, t);
    } else {
      BatchStep(w0, w, s, t);
    }
  }

  /** History completeness: whatever mix of fetches, failures and waits, a run has
      ingested exactly the history from the cursor up to where it started, and all
      of it once the channel is closed. Albums cut by a batch boundary included:
      the tables hold what was fed. */
  lemma {:induction false} RunReached(w0: Store, s: Settings, ts: seq<Tick>)
    requires Sound(w0, s) && !Finished(w0.states, s.channel) && s.batchSize > 0
    ensures Run(w0, s, ts).Some? && Reached(w0, Run(w0, s, ts).value, s)
  {
    if ts == [] {
      assert w0.fed + {} == w0.fed;
    } else {
      RunReached(w0, s, ts[..|ts| - 1]);
      StepReached(w0, Run(w0, s, ts[..|ts| - 1]).value, s, ts[|ts| - 1]);
    }
  }

  // ---- termination --------------------------------------------------------------------

  /** Passes still needed for `n` messages: the batches, and one that finds nothing. */
  function PassesFor(n: nat, batchSize: nat): nat
    requires batchSize > 0
  {
    if n == 0 then 1 else 1 + PassesFor(if n <= batchSize then 0 else n - batchSize, batchSize)
  }

  lemma DivideOneLess(x: nat, d: nat)
    requires d > 0 && x >= d
    ensures x / d == (x - d) / d + 1
  {
    var q, r := (x - d) / d, (x - d) % d;
    assert x == (q + 1) * d + r;
    DivideUnique(x, d, q + 1, r);
  }

  lemma DivideUnique(x: nat, d: nat, q: nat, r: nat)
    requires d > 0 && r < d && x == q * d + r
    ensures x / d == q
  {
    var k := x / d - q;
    assert x == (x / d) * d + x % d;
    assert k * d == r - x % d;
    assert k >= 1 ==> k * d >= d;
    assert k <= -1 ==> k * d + d <= 0;
  }

  lemma {:induction false} PassesForIsCeiling(n: nat, batchSize: nat)
    requires batchSize > 0
    ensures PassesFor(n, batchSize) == (n + batchSize - 1) / batchSize + 1
  {
    if n == 0 {
      DivideUnique(batchSize - 1, batchSize, 0, batchSize - 1);
    } else {
      DivideOneLess(n + batchSize - 1, batchSize);
      if n <= batchSize {
        DivideUnique(n - 1, batchSize, 0, n - 1);
      } else {
        PassesForIsCeiling(n - batchSize, batchSize);
      }
    }
  }

  ghost predicate Progress(w0: Store, w: Store, s: Settings, passes: nat)
    requires s.batchSize > 0 && Cursor(w0.db, w0.states, s.channel).Some? && Cursor(w.db, w.states, s.channel).Some?
  {
    var n := |Below(s.remote, Cursor(w0.db, w0.states, s.channel).value)|;
    var left := |Below(s.remote, Cursor(w.db, w.states, s.channel).value)|;
    if Finished(w.states, s.channel) then passes == PassesFor(n, s.batchSize)
    else passes + PassesFor(left, s.batchSize) == PassesFor(n, s.batchSize)
  }

  lemma StepProgress(w0: Store, w: Store, s: Settings, t: Tick, passes: nat)
    requires Sound(w0, s) && Reached(w0, w, s) && s.batchSize > 0 && Progress(w0, w, s, passes)
    requires Step(w, s, t).Some? && Cursor(Step(w, s, t).value.db, Step(w, s, t).value.states, s.channel).Some?
    ensures Progress(w0, Step(w, s, t).value, s, passes + (if Picks(w, s, t.now) && t.outcome.Fetched? then 1 else 0))
  {
    SoundLater(w0, w, s);
    if !(Picks(w, s, t.now) && t.outcome.Fetched?) {
      QuietStep(w0, w, s, t);
    } else {
      PassProgress(w, s, t);
    }
  }

  /** A failure-free pass takes its share: the channel is closed, or one pass fewer
      is needed. */
  lemma PassProgress(w: Store, s: Settings, t: Tick)
    requires Sound(w, s) && s.batchSize > 0 && Picks(w, s, t.now) && t.outcome.Fetched?
    ensures Step(w, s, t).Some?
    ensures var w' := Step(w, s, t).value; var left := |Below(s.remote, Cursor(w.db, w.states, s.channel).value)|;
      if left == 0 then Finished(w'.states, s.channel)
      else !Finished(w'.states, s.channel) && Cursor(w'.db, w'.states, s.channel).Some?
           && PassesFor(left, s.batchSize)
             == 1 + PassesFor(|Below(s.remote, Cursor(w'.db, w'.states, s.channel).value)|, s.batchSize)
  {
    FetchedMoves(w, s, t);
    OneBatchFewer(s, Cursor(w.db, w.states, s.channel).value);
  }

  lemma OneBatchFewer(s: Settings, cursor: int)
    requires (forall id | id in s.remote :: s.remote[id].id == id) && s.batchSize > 0
    ensures var batch, left := FetchBelow(s.remote, cursor, s.batchSize), |Below(s.remote, cursor)|;
      && (left == 0 <==> batch == [])
      && (batch != [] ==>
            PassesFor(left, s.batchSize) == 1 + PassesFor(|Below(s.remote, OldestId(batch))|, s.batchSize))
  {
    BatchLeaves(s, cursor);
    OnePassFewer(|Below(s.remote, cursor)|, s.batchSize);
  }

  lemma FetchedMoves(w: Store, s: Settings, t: Tick)
    requires Sound(w, s) && Picks(w, s, t.now) && t.outcome.Fetched?
    ensures Step(w, s, t).Some?
    ensures var batch := FetchBelow(s.remote, Cursor(w.db, w.states, s.channel).value, s.batchSize);
      var w' := Step(w, s, t).value;
      && (Finished(w'.states, s.channel) <==> batch == [])
      && (batch != [] ==> Cursor(w'.db, w'.states, s.channel) == Some(OldestId(batch)))
  {
    FetchedPass(w, s, t);
  }

  lemma BatchLeaves(s: Settings, cursor: int)
    requires (forall id | id in s.remote :: s.remote[id].id == id) && s.batchSize > 0
    ensures var batch, left := FetchBelow(s.remote, cursor, s.batchSize), |Below(s.remote, cursor)|;
      && (left == 0 <==> batch == [])
      && (batch != [] ==>
            |Below(s.remote, OldestId(batch))| == left - if s.batchSize < left then s.batchSize else left)
  {
    BatchIsSpan(s.channel, s.remote, cursor, s.batchSize);
  }

  lemma OnePassFewer(left: nat, batchSize: nat)
    requires batchSize > 0
    ensures left > 0 ==>
      PassesFor(left, batchSize) == 1 + PassesFor(left - if batchSize < left then batchSize else left, batchSize)
  {
  }

  lemma {:induction false} RunProgress(w0: Store, s: Settings, ts: seq<Tick>)
    requires Sound(w0, s) && !Finished(w0.states, s.channel) && s.batchSize > 0
    ensures Run(w0, s, ts).Some? && Reached(w0, Run(w0, s, ts).value, s)
    ensures Progress(w0, Run(w0, s, ts).value, s, Passes(w0, s, ts))
  {
    RunReached(w0, s, ts);
    if ts != [] {
      RunProgress(w0, s, ts[..|ts| - 1]);
      StepProgress(w0, Run(w0, s, ts[..|ts| - 1]).value, s, ts[|ts| - 1], Passes(w0, s, ts[..|ts| - 1]));
    }
  }

  lemma FinishedIffEnoughPasses(w0: Store, w: Store, s: Settings, passes: nat, enough: nat)
    requires Sound(w0, s) && Reached(w0, w, s) && s.batchSize > 0 && Progress(w0, w, s, passes)
    requires enough == PassesFor(|Below(s.remote, Cursor(w0.db, w0.states, s.channel).value)|, s.batchSize)
    ensures passes <= enough && (Finished(w.states, s.channel) <==> passes == enough)
  {
  }

  ghost predicate ClosedAfter(w0: Store, w: Store, s: Settings, passes: nat, enough: nat) {
    && passes <= enough
    && (Finished(w.states, s.channel) <==> passes == enough)
    && (Finished(w.states, s.channel) ==>
          (Cursor(w0.db, w0.states, s.channel).Some?
           && Holds(w.db, w0.fed + Span(s.channel, s.remote, Least(s.remote),
             Cursor(w0.db, w0.states, s.channel).value))))
  }

  lemma ClosedAfterPasses(w0: Store, s: Settings, ts: seq<Tick>, enough: nat)
    requires Sound(w0, s) && !Finished(w0.states, s.channel) && s.batchSize > 0
    requires enough == PassesFor(|Below(s.remote, Cursor(w0.db, w0.states, s.channel).value)|, s.batchSize)
    ensures Run(w0, s, ts).Some? && ClosedAfter(w0, Run(w0, s, ts).value, s, Passes(w0, s, ts), enough)
  {
    RunProgress(w0, s, ts);
    var w := Run(w0, s, ts).value;
    FinishedIffEnoughPasses(w0, w, s, Passes(w0, s, ts), enough);
    if Finished(w.states, s.channel) {
      FinishedHasAll(w0, w, s);
    }
  }

  /** With N messages below the start and batches of B, the channel is closed after
      exactly ceil(N / B) + 1 failure-free passes, however many failed in between,
      and then every one of the N is ingested. */
  lemma ClosedAfterExactly(w0: Store, s: Settings, ts: seq<Tick>)
    requires Sound(w0, s) && !Finished(w0.states, s.channel) && s.batchSize > 0
    ensures Run(w0, s, ts).Some?
    ensures var n := |Below(s.remote, Cursor(w0.db, w0.states, s.channel).value)|;
      ClosedAfter(w0, Run(w0, s, ts).value, s, Passes(w0, s, ts), (n + s.batchSize - 1) / s.batchSize + 1)
  {
    var n := |Below(s.remote, Cursor(w0.db, w0.states, s.channel).value)|;
    PassesForIsCeiling(n, s.batchSize);
    ClosedAfterPasses(w0, s, ts, PassesFor(n, s.batchSize));
  }

  lemma FinishedHasAll(w0: Store, w: Store, s: Settings)
    requires Sound(w0, s) && Reached(w0, w, s) && Finished(w.states, s.channel)
    ensures Holds(w.db, w0.fed + Span(s.channel, s.remote, Least(s.remote), Cursor(w0.db, w0.states, s.channel).value))
  {
    var c0, c := Cursor(w0.db, w0.states, s.channel).value, Cursor(w.db, w.states, s.channel).value;
    SpanGrows(s.channel, s.remote, Least(s.remote), c, c0);
    WholeSpan(s.channel, s.remote, c, c0);
  }

  lemma WholeSpan(channel: int, r: Remote, c: int, c0: int)
    requires Below(r, c) == {}
    ensures Span(channel, r, c, c0) == Span(channel, r, Least(r), c0)
  {
    forall id | id in r ensures id >= c && id >= Least(r) {
      assert id >= c || id in Below(r, c);
      assert id in r.Keys;
    }
  }
}
