/** The history worker among other feeds and through crashes: what is complete once a
    channel is closed, and exactly when. */
module HistoryFaults {
  import opened Prelude
  import opened PostStore
  import opened Ingest
  import opened Convergence
  import BackfillLock
  import opened HistoryBackfill

  /** The batch that a pass on the channel fetches. */
  function Batch(w: Store, s: Settings): seq<Message>
    requires Cursor(w.db, w.states, s.channel).Some?
  {
    FetchBelow(s.remote, Cursor(w.db, w.states, s.channel).value, s.batchSize)
  }

  /** A worker that dies in mid-pass: the first `k` of the batch's transactions are
      committed, the lock is left set and no cursor is saved. */
  ghost function Interrupted(w: Store, s: Settings, now: int, k: nat): Option<Store> {
    if !Picks(w, s, now) then Some(w)
    else
      var jobs := BatchJobs(s.channel, Batch(w, s));
      var n := Cut(|jobs|, k);
      var r := RunJobs(w.db, jobs[..n]);
      if r.Violation? then None
      else Some(Store(r.db, BackfillLock.Acquired(w.states, s.channel, s.ttl, now), w.fed
        + Committed(s.channel, Batch(w, s), n)))
  }

  lemma BatchInHistory(w: Store, s: Settings)
    requires Sound(w, s)
    ensures var c0 := Cursor(w.db, w.states, s.channel).value;
      && DistinctIds(Batch(w, s))
      && FedOf(s.channel, Batch(w, s)) <= Span(s.channel, s.remote, Least(s.remote), c0)
  {
    var c0 := Cursor(w.db, w.states, s.channel).value;
    BatchIsSpan(s.channel, s.remote, c0, s.batchSize);
    if Batch(w, s) != [] {
      SpanGrows(s.channel, s.remote, Least(s.remote), OldestId(Batch(w, s)), c0);
    }
  }

  /** What a crash leaves: the messages of the committed jobs and nothing else. */
  lemma InterruptedHolds(w: Store, s: Settings, now: int, k: nat)
    requires Sound(w, s) && Picks(w, s, now)
    ensures Interrupted(w, s, now, k).Some?
    ensures var w1 := Interrupted(w, s, now, k).value;
      && Holds(w1.db, w1.fed) && w.fed <= w1.fed
      && w1.fed <= w.fed + Span(s.channel, s.remote, Least(s.remote), Cursor(w.db, w.states, s.channel).value)
      && StoredCursor(w1.states, s.channel) == StoredCursor(w.states, s.channel) && !Finished(w1.states, s.channel)
      && (forall p | p in w.db.posts :: p in w1.db.posts && w1.db.posts[p] == w.db.posts[p])
  {
    var jobs := BatchJobs(s.channel, Batch(w, s));
    BatchInHistory(w, s);
    PrefixHolds(w.db, w.fed, w.fed
      + Span(s.channel, s.remote, Least(s.remote), Cursor(w.db, w.states, s.channel).value),
                s.channel, Batch(w, s), Cut(|jobs|, k));
    RunJobsKeepsPosts(w.db, jobs[..Cut(|jobs|, k)]);
  }

  // ---- the cursor after a crash ---------------------------------------------------------

  /** A post that a crashed pass added is at the id of a message of its batch. */
  lemma AddedPost(w: Store, s: Settings, now: int, k: nat, p: int)
    requires Sound(w, s) && Picks(w, s, now) && Interrupted(w, s, now, k).Some?
    requires p in Interrupted(w, s, now, k).value.db.posts && p !in w.db.posts
    ensures exists m :: m in Batch(w, s) && m.id == Interrupted(w, s, now, k).value.db.posts[p].msgId
  {
    var w1 := Interrupted(w, s, now, k).value;
    InterruptedHolds(w, s, now, k);
    assert Stands(w1.db.posts[p], w1.fed);
    var f :| f in w1.fed && KeyOf(f) == PostKey(w1.db.posts[p]) && f.channel == w1.db.posts[p].channel
      && f.msg.id == w1.db.posts[p].msgId;
    if f in w.fed {
      assert HasPost(w.db.posts, KeyOf(f));
      var q :| q in w.db.posts && PostKey(w.db.posts[q]) == KeyOf(f);
      OneKeyEach(w1.db, p, q);
    } else {
      BatchInHistory(w, s);
      PrefixHolds(w.db, w.fed, w.fed
        + Span(s.channel, s.remote, Least(s.remote), Cursor(w.db, w.states, s.channel).value),
                  s.channel, Batch(w, s), Cut(|BatchJobs(s.channel, Batch(w, s))|, k));
      assert f in FedOf(s.channel, Batch(w, s));
    }
  }

  /** Without a saved cursor the next worker starts at the least stored id. That is at
      or below the crashed pass's start, and above no message the pass did not fetch. */
  lemma RestartCursor(w: Store, s: Settings, now: int, k: nat)
    requires Sound(w, s) && Picks(w, s, now) && StoredCursor(w.states, s.channel).None?
    ensures Interrupted(w, s, now, k).Some?
    ensures var (w1, c0) := (Interrupted(w, s, now, k).value, Cursor(w.db, w.states, s.channel).value);
      && StoredIds(w1.db, s.channel) != {}
        && Cursor(w1.db, w1.states, s.channel) == Some(Min(StoredIds(w1.db, s.channel)))
      && Min(StoredIds(w1.db, s.channel)) <= c0
      && (Min(StoredIds(w1.db, s.channel)) == c0 || exists m ::
        m in Batch(w, s) && m.id == Min(StoredIds(w1.db, s.channel)))
  {
    InterruptedHolds(w, s, now, k);
    var (w1, c0) := (Interrupted(w, s, now, k).value, Cursor(w.db, w.states, s.channel).value);
    StoredIdsGrow(w.db, w1.db, s.channel);
    var c1 := Min(StoredIds(w1.db, s.channel));
    var p :| p in w1.db.posts && w1.db.posts[p].channel == s.channel && w1.db.posts[p].msgId == c1;
    if p in w.db.posts {
      assert c1 in StoredIds(w.db, s.channel);
    } else {
      AddedPost(w, s, now, k, p);
    }
  }

  lemma StoredIdsGrow(a: Db, b: Db, channel: int)
    requires forall p | p in a.posts :: p in b.posts && b.posts[p] == a.posts[p]
    ensures StoredIds(a, channel) <= StoredIds(b, channel)
  {
  }

  lemma OldestBound(msgs: seq<Message>, m: Message)
    requires m in msgs
    ensures OldestId(msgs) <= m.id
  {
    if |msgs| > 1 {
      var front, last := msgs[..|msgs| - 1], msgs[|msgs| - 1];
      assert msgs == front + [last];
      if m in front {
        OldestBound(front, m);
      }
    }
  }

  /** The stretch between the restart and the crashed pass's start is of its batch. */
  lemma GapIsOfBatch(w: Store, s: Settings, c1: int)
    requires Sound(w, s) && c1 <= Cursor(w.db, w.states, s.channel).value
    requires c1 == Cursor(w.db, w.states, s.channel).value || exists m :: m in Batch(w, s) && m.id == c1
    ensures var c0 := Cursor(w.db, w.states, s.channel).value;
      forall f :: f in Span(s.channel, s.remote, c1, c0)
        <==> exists m :: m in Batch(w, s) && m.id >= c1 && f == Fed(s.channel, m)
  {
    var c0, batch := Cursor(w.db, w.states, s.channel).value, Batch(w, s);
    BatchIsSpan(s.channel, s.remote, c0, s.batchSize);
    if c1 < c0 {
      var first :| first in batch && first.id == c1;
      OldestBound(batch, first);
    }
    forall f | f in Span(s.channel, s.remote, c1, c0)
      ensures exists m :: m in batch && m.id >= c1 && f == Fed(s.channel, m) {
      assert f in Span(s.channel, s.remote, OldestId(batch), c0);
      assert f in FedOf(s.channel, batch);
      var m :| m in batch && f == Fed(s.channel, m);
      SpanIds(s.channel, s.remote, c1, c0, m);
    }
    forall m | m in batch && m.id >= c1 ensures Fed(s.channel, m) in Span(s.channel, s.remote, c1, c0) {
      assert Fed(s.channel, m) in FedOf(s.channel, batch);
      SpanIds(s.channel, s.remote, OldestId(batch), c0, m);
    }
  }

  // ---- completeness after a crash -------------------------------------------------------

  /** Whatever happened before a worker (re)starts at `w1`: once the channel is closed,
      all of the history below `top` is ingested exactly when the part from the
      worker's first cursor up to `top` was ingested already. */
  lemma CompleteIffNoGap(w1: Store, s: Settings, ts: seq<Tick>, top: int)
    requires Sound(w1, s) && !Finished(w1.states, s.channel) && s.batchSize > 0
    requires Cursor(w1.db, w1.states, s.channel).value <= top
    requires Run(w1, s, ts).Some? && Finished(Run(w1, s, ts).value.states, s.channel)
    ensures Span(s.channel, s.remote, Least(s.remote), top) <= Run(w1, s, ts).value.fed
            <==> Span(s.channel, s.remote, Cursor(w1.db, w1.states, s.channel).value, top) <= w1.fed
  {
    var w, c1 := Run(w1, s, ts).value, Cursor(w1.db, w1.states, s.channel).value;
    RunReached(w1, s, ts);
    var c := Cursor(w.db, w.states, s.channel).value;
    WholeSpan(s.channel, s.remote, c, c1);
    WholeSpan(s.channel, s.remote, c, top);
    if Span(s.channel, s.remote, Least(s.remote), top) <= w.fed {
      forall f | f in Span(s.channel, s.remote, c1, top) ensures f in w1.fed {
        var id :| id in s.remote && c1 <= id < top && f == Fed(s.channel, s.remote[id]);
        assert id in s.remote.Keys;
        assert f in Span(s.channel, s.remote, Least(s.remote), top);
        assert f !in Span(s.channel, s.remote, c, c1);
      }
    }
  }

  /** Only messages below the cursor are ever fetched. */
  lemma NeverFetchedAbove(w: Store, s: Settings, m: Message, ts: seq<Tick>)
    requires Sound(w, s) && !Finished(w.states, s.channel) && s.batchSize > 0
    requires Fed(s.channel, m) !in w.fed && Cursor(w.db, w.states, s.channel).value <= m.id
    ensures Run(w, s, ts).Some? && Fed(s.channel, m) !in Run(w, s, ts).value.fed
  {
    RunReached(w, s, ts);
    var later := Run(w, s, ts).value;
    SpanIds(s.channel, s.remote, Cursor(later.db, later.states, s.channel).value,
            Cursor(w.db, w.states, s.channel).value, m);
  }

  lemma SpanIds(channel: int, r: Remote, lo: int, hi: int, m: Message)
    requires forall id | id in r :: r[id].id == id
    ensures Fed(channel, m) in Span(channel, r, lo, hi) ==> lo <= m.id < hi
  {
  }

  /** Some post of the channel is at or below the id. */
  predicate ReachedDown(db: Db, channel: int, id: int) {
    exists x :: x in StoredIds(db, channel) && x <= id
  }

  /** A crash after `k` transactions leaves nothing behind: a cursor was saved before,
      or each message of the batch at or above the least id now stored is of the first
      `k` transactions or was fed before. */
  ghost predicate NoneLeftBehind(w: Store, s: Settings, now: int, k: nat)
    requires Cursor(w.db, w.states, s.channel).Some? && Interrupted(w, s, now, k).Some?
  {
    var w1 := Interrupted(w, s, now, k).value;
    || StoredCursor(w.states, s.channel).Some?
    || forall m | m in Batch(w, s) && ReachedDown(w1.db, s.channel, m.id) :: Fed(s.channel, m) in w1.fed
  }

  lemma CrashedCursor(w: Store, s: Settings, now: int, k: nat)
    requires Sound(w, s) && Picks(w, s, now)
    ensures Interrupted(w, s, now, k).Some?
    ensures var w1 := Interrupted(w, s, now, k).value; var c1 := Cursor(w1.db, w1.states, s.channel);
      c1.Some? && c1.value <= Cursor(w.db, w.states, s.channel).value
  {
    InterruptedHolds(w, s, now, k);
    if StoredCursor(w.states, s.channel).None? {
      RestartCursor(w, s, now, k);
    }
  }

  lemma PartOfHistory(h: set<Fed>, part: set<Fed>)
    requires History(h) && part <= h
    ensures History(part)
  {
  }

  lemma CrashedSound(w: Store, s: Settings, now: int, k: nat)
    requires Sound(w, s) && Picks(w, s, now)
    ensures Interrupted(w, s, now, k).Some? && Sound(Interrupted(w, s, now, k).value, s)
  {
    InterruptedHolds(w, s, now, k);
    CrashedCursor(w, s, now, k);
    var w1, c0 := Interrupted(w, s, now, k).value, Cursor(w.db, w.states, s.channel).value;
    var c1 := Cursor(w1.db, w1.states, s.channel).value;
    var left := Span(s.channel, s.remote, Least(s.remote), c1);
    assert left <= Span(s.channel, s.remote, Least(s.remote), c0);
    PartOfHistory(w.fed + Span(s.channel, s.remote, Least(s.remote), c0), w1.fed + left);
  }

  lemma GapFilledIff(w: Store, s: Settings, now: int, k: nat)
    requires Sound(w, s) && Picks(w, s, now) && StoredCursor(w.states, s.channel).None?
    ensures Interrupted(w, s, now, k).Some? && StoredIds(Interrupted(w, s, now, k).value.db, s.channel) != {}
    ensures var w1 := Interrupted(w, s, now, k).value;
      Span(s.channel, s.remote, Min(StoredIds(w1.db, s.channel)), Cursor(w.db, w.states, s.channel).value) <= w1.fed
      <==> NoneLeftBehind(w, s, now, k)
  {
    RestartCursor(w, s, now, k);
    var w1 := Interrupted(w, s, now, k).value;
    var c1 := Min(StoredIds(w1.db, s.channel));
    GapIsOfBatch(w, s, c1);
    ReachedDownFrom(w1.db, s.channel, c1);
    GapCovered(Span(s.channel, s.remote, c1, Cursor(w.db, w.states, s.channel).value), w1.fed, s.channel,
      Batch(w, s), c1);
  }

  lemma ReachedDownFrom(db: Db, channel: int, least: int)
    requires IsMin(StoredIds(db, channel), least)
    ensures forall id :: ReachedDown(db, channel, id) <==> id >= least
  {
  }

  lemma GapCovered(gap: set<Fed>, fed: set<Fed>, channel: int, msgs: seq<Message>, c1: int)
    requires forall f :: f in gap <==> exists m :: m in msgs && m.id >= c1 && f == Fed(channel, m)
    ensures gap <= fed <==> forall m | m in msgs && m.id >= c1 :: Fed(channel, m) in fed
  {
    if gap <= fed {
      forall m | m in msgs && m.id >= c1 ensures Fed(channel, m) in fed {
        assert Fed(channel, m) in gap;
      }
    }
  }

  /** Whenever the worker dies, every later run that closes the channel has all of the
      history below the dead pass's start if and only if the crash left nothing behind. */
  lemma CompleteAfterCrash(w: Store, s: Settings, now: int, k: nat, ts: seq<Tick>)
    requires Sound(w, s) && Picks(w, s, now) && s.batchSize > 0
    ensures Interrupted(w, s, now, k).Some?
    ensures var (w1, c0) := (Interrupted(w, s, now, k).value, Cursor(w.db, w.states, s.channel).value);
      && Run(w1, s, ts).Some?
      && (Finished(Run(w1, s, ts).value.states, s.channel) ==>
            (NoneLeftBehind(w, s, now, k)
            <==> Span(s.channel, s.remote, Least(s.remote), c0) <= Run(w1, s, ts).value.fed))
  {
    InterruptedHolds(w, s, now, k);
    CrashedSound(w, s, now, k);
    var w1 := Interrupted(w, s, now, k).value;
    RunReached(w1, s, ts);
    if Finished(Run(w1, s, ts).value.states, s.channel) {
      CrashedCursor(w, s, now, k);
      CompleteIffNoGap(w1, s, ts, Cursor(w.db, w.states, s.channel).value);
      if StoredCursor(w.states, s.channel).None? {
        RestartCursor(w, s, now, k);
        GapFilledIff(w, s, now, k);
      }
    }
  }

  lemma NothingCommitted(w: Store, s: Settings, now: int)
    requires Sound(w, s) && Picks(w, s, now) && StoredCursor(w.states, s.channel).None?
    ensures Interrupted(w, s, now, 0).Some? && NoneLeftBehind(w, s, now, 0)
  {
    var batch, c0 := Batch(w, s), Cursor(w.db, w.states, s.channel).value;
    BatchIsSpan(s.channel, s.remote, c0, s.batchSize);
    InterruptedHolds(w, s, now, 0);
    assert Interrupted(w, s, now, 0).value.db == w.db;
    forall m | m in batch ensures m.id < c0 {
      assert Fed(s.channel, m) in FedOf(s.channel, batch);
      SpanIds(s.channel, s.remote, OldestId(batch), c0, m);
    }
  }

  /** A crash before the first transaction, or after the last, leaves nothing behind. */
  lemma EitherEndIsSafe(w: Store, s: Settings, now: int, k: nat)
    requires Sound(w, s) && Picks(w, s, now)
    requires k == 0 || k >= |BatchJobs(s.channel, Batch(w, s))|
    ensures Interrupted(w, s, now, k).Some? && NoneLeftBehind(w, s, now, k)
  {
    InterruptedHolds(w, s, now, k);
    if StoredCursor(w.states, s.channel).None? {
      if k == 0 {
        NothingCommitted(w, s, now);
      } else {
        AllCommitted(s.channel, Batch(w, s));
      }
    }
  }

  // ---- the failing family ---------------------------------------------------------------

  /** A channel with its newest message stored, and below it a single message and,
      lower still, an album. */
  ghost predicate AlbumBelowSolo(s: Settings, stored: Message, solo: Message, album: Message) {
    && album.id < solo.id < stored.id && s.batchSize >= 2
    && stored.group.None? && solo.group.None? && album.group.Some?
    && s.remote == map[album.id := album, solo.id := solo]
  }

  lemma EmptyHolds()
    ensures Holds(EMPTY, {})
  {
  }

  lemma FirstBatch(s: Settings, stored: Message, solo: Message, album: Message)
    requires AlbumBelowSolo(s, stored, solo, album)
    ensures FetchBelow(s.remote, stored.id, s.batchSize) == [solo, album]
  {
    var ids := {solo.id, album.id};
    var newest := NewestIds(ids, s.batchSize);
    assert Below(s.remote, stored.id) == ids && |ids| == 2;
    NewestAre(ids, s.batchSize);
    assert newest[0] in ids && newest[1] in ids && newest[0] > newest[1];
    assert newest == [solo.id, album.id];
    OldestAre(s.remote, newest);
  }

  lemma AlbumGoesFirst(channel: int, solo: Message, album: Message)
    requires solo.group.None? && album.group.Some?
    ensures BatchJobs(channel, [solo, album]) == [AlbumJob(channel, [album]), SoloJob(channel, solo)]
  {
    var msgs, g := [solo, album], album.group.value;
    assert msgs[..1] == [solo] && [solo][..0] == [];
    assert Split([solo]) == Buckets(Albums([], map[]), [solo]);
    var b := Split(msgs);
    assert b == Buckets(Albums([g], map[g := [album]]), [solo]);
    SplitIsSplit(msgs);
    assert [g][..0] == [] && AlbumJobs(channel, b.albums, [g]) == [AlbumJob(channel, [album])];
    assert SoloJobs(channel, [solo]) == [SoloJob(channel, solo)];
  }

  /** The tables after the newest message, and after one more job. */
  ghost function WithNewest(channel: int, stored: Message): PostStore.Outcome {
    RunJobs(EMPTY, [SoloJob(channel, stored)])
  }

  lemma OneJob(db: Db, j: Job)
    ensures RunJobs(db, [j]) == Upsert(db, j.post, j.rows)
  {
    MoreJobs(db, [], j);
    assert [] + [j] == [j];
  }

  lemma NewestHolds(channel: int, stored: Message)
    requires stored.group.None?
    ensures WithNewest(channel, stored).Stored? && Holds(WithNewest(channel, stored).db, {Fed(channel, stored)})
    ensures StoredIds(WithNewest(channel, stored).db, channel) == {stored.id}
  {
    var f := Fed(channel, stored);
    EmptyHolds();
    SoloHolds(EMPTY, {}, {f}, channel, stored);
    OneJob(EMPTY, SoloJob(channel, stored));
    assert {} + {f} == {f};
    StoredIdsAre(channel, WithNewest(channel, stored).db, {f}, {stored.id});
  }

  lemma AlbumAloneHolds(db: Db, channel: int, stored: Message, album: Message)
    requires Holds(db, {Fed(channel, stored)}) && stored.group.None? && album.group.Some? && album.id != stored.id
    ensures var r := RunJobs(db, [AlbumJob(channel, [album])]);
      r.Stored? && Holds(r.db, {Fed(channel, stored), Fed(channel, album)})
      && StoredIds(r.db, channel) == {stored.id, album.id}
  {
    var fed := {Fed(channel, stored), Fed(channel, album)};
    AlbumAdded(db, channel, stored, album);
    StoredIdsAre(channel, RunJobs(db, [AlbumJob(channel, [album])]).db, fed, {stored.id, album.id});
  }

  lemma AlbumAdded(db: Db, channel: int, stored: Message, album: Message)
    requires Holds(db, {Fed(channel, stored)}) && stored.group.None? && album.group.Some? && album.id != stored.id
    ensures var r := RunJobs(db, [AlbumJob(channel, [album])]);
      r.Stored? && Holds(r.db, {Fed(channel, stored), Fed(channel, album)})
  {
    var fed := {Fed(channel, stored), Fed(channel, album)};
    OneJob(db, AlbumJob(channel, [album]));
    assert FedOf(channel, [album]) == {Fed(channel, album)};
    AlbumHolds(db, {Fed(channel, stored)}, fed, channel, album.group.value, [album]);
    assert {Fed(channel, stored)} + {Fed(channel, album)} == fed;
  }

  /** A worker that dies between the transactions of its first batch loses messages
      for good: of the batch's two jobs the album's is committed, the one of the
      single message above it is not, and as no cursor was saved the next worker
      starts below both. No later run ever ingests the single message. */
  lemma CrashInFirstPassLosesAMessage(s: Settings, stored: Message, solo: Message, album: Message,
      states: BackfillLock.States, ts: seq<Tick>)
    requires AlbumBelowSolo(s, stored, solo, album)
    requires StoredCursor(states, s.channel).None? && !Finished(states, s.channel)
    ensures var start := WithNewest(s.channel, stored);
      && start.Stored? && Cursor(start.db, states, s.channel) == Some(stored.id)
      && var jobs := BatchJobs(s.channel, FetchBelow(s.remote, stored.id, s.batchSize));
      && |jobs| == 2
      && var crashed := RunJobs(start.db, jobs[..1]);
      && crashed.Stored? && Holds(crashed.db, {Fed(s.channel, stored), Fed(s.channel, album)})
      && Cursor(crashed.db, states, s.channel) == Some(album.id)
      && var later := Run(Store(crashed.db, states, {Fed(s.channel, stored), Fed(s.channel, album)}), s, ts);
      && later.Some? && Fed(s.channel, solo) !in later.value.fed
  {
    CrashedFirstPass(s, stored, solo, album);
    var crashed := RunJobs(WithNewest(s.channel, stored).db, [AlbumJob(s.channel, [album])]);
    CursorFromPosts(WithNewest(s.channel, stored).db, states, s.channel, stored.id, {stored.id});
    RestartedBelow(s, stored, solo, album, states, crashed.db, ts);
  }

  lemma CrashedFirstPass(s: Settings, stored: Message, solo: Message, album: Message)
    requires AlbumBelowSolo(s, stored, solo, album)
    ensures var start := WithNewest(s.channel, stored);
      && start.Stored? && StoredIds(start.db, s.channel) == {stored.id}
      && var jobs := BatchJobs(s.channel, FetchBelow(s.remote, stored.id, s.batchSize));
      && |jobs| == 2 && jobs[..1] == [AlbumJob(s.channel, [album])]
      && var crashed := RunJobs(start.db, jobs[..1]);
      && crashed.Stored? && Holds(crashed.db, {Fed(s.channel, stored), Fed(s.channel, album)})
      && StoredIds(crashed.db, s.channel) == {stored.id, album.id}
  {
    FirstBatch(s, stored, solo, album);
    AlbumGoesFirst(s.channel, solo, album);
    NewestHolds(s.channel, stored);
    AlbumAloneHolds(WithNewest(s.channel, stored).db, s.channel, stored, album);
    assert [AlbumJob(s.channel, [album]), SoloJob(s.channel, solo)][..1] == [AlbumJob(s.channel, [album])];
  }

  lemma RestartedBelow(s: Settings, stored: Message, solo: Message, album: Message, states: BackfillLock.States,
      db: Db, ts: seq<Tick>)
    requires AlbumBelowSolo(s, stored, solo, album) && StoredCursor(states, s.channel).None?
      && !Finished(states, s.channel)
    requires Holds(db, {Fed(s.channel, stored), Fed(s.channel, album)})
      && StoredIds(db, s.channel) == {stored.id, album.id}
    ensures Cursor(db, states, s.channel) == Some(album.id)
    ensures var later := Run(Store(db, states, {Fed(s.channel, stored), Fed(s.channel, album)}), s, ts);
      later.Some? && Fed(s.channel, solo) !in later.value.fed
  {
    var w := Store(db, states, {Fed(s.channel, stored), Fed(s.channel, album)});
    RestartsAtAlbum(s, stored, solo, album, states, db);
    NeverFetchedAbove(w, s, solo, ts);
  }

  lemma RestartsAtAlbum(s: Settings, stored: Message, solo: Message, album: Message, states: BackfillLock.States,
      db: Db)
    requires AlbumBelowSolo(s, stored, solo, album) && StoredCursor(states, s.channel).None?
    requires Holds(db, {Fed(s.channel, stored), Fed(s.channel, album)})
      && StoredIds(db, s.channel) == {stored.id, album.id}
    ensures Cursor(db, states, s.channel) == Some(album.id)
    ensures Sound(Store(db, states, {Fed(s.channel, stored), Fed(s.channel, album)}), s)
  {
    CursorFromPosts(db, states, s.channel, album.id, {stored.id, album.id});
    SmallHistory(s.channel, stored, album);
    NothingLower(Store(db, states, {Fed(s.channel, stored), Fed(s.channel, album)}), s, album.id);
  }

  lemma CursorFromPosts(db: Db, states: BackfillLock.States, channel: int, least: int, ids: set<int>)
    requires StoredIds(db, channel) == ids && IsMin(ids, least) && StoredCursor(states, channel).None?
    ensures Cursor(db, states, channel) == Some(least)
  {
    assert ids != {};
  }

  lemma SmallHistory(channel: int, stored: Message, album: Message)
    requires stored.group.None? && album.group.Some? && stored.id != album.id
    ensures History({Fed(channel, stored), Fed(channel, album)})
  {
  }

  lemma NothingLower(w: Store, s: Settings, least: int)
    requires (forall id | id in s.remote :: s.remote[id].id == id && least <= id)
    requires Holds(w.db, w.fed) && Cursor(w.db, w.states, s.channel) == Some(least) && History(w.fed)
    ensures Sound(w, s)
  {
    var span := Span(s.channel, s.remote, Least(s.remote), least);
    assert span == {};
    assert w.fed + span == w.fed;
  }

  /** In a channel fed one message per key, the stored ids are the messages'. */
  lemma StoredIdsAre(channel: int, db: Db, fed: set<Fed>, ids: set<int>)
    requires Holds(db, fed) && forall f | f in fed :: f.channel == channel
    requires forall f, g | f in fed && g in fed && KeyOf(f) == KeyOf(g) :: f == g
    requires ids == set f | f in fed :: f.msg.id
    ensures StoredIds(db, channel) == ids
  {
    forall p | p in db.posts ensures db.posts[p].msgId in ids && db.posts[p].channel == channel {
      assert Stands(db.posts[p], fed);
    }
    forall f | f in fed ensures f.msg.id in StoredIds(db, channel) {
      assert HasPost(db.posts, KeyOf(f));
      var p :| p in db.posts && PostKey(db.posts[p]) == KeyOf(f);
      assert Stands(db.posts[p], fed);
    }
  }

  // ---- runs among other feeds, with crashes ---------------------------------------------

  /** A tick, a pass whose worker dies, or what another feed hands over. */
  datatype Event = Pass(tick: Tick) | Crash(now: int, k: nat) | Other(feed: Feed)

  ghost function Happen(w: Store, s: Settings, e: Event): Option<Store> {
    match e
    case Pass(t) => Step(w, s, t)
    case Crash(now, k) => Interrupted(w, s, now, k)
    case Other(feed) =>
      var r := RunJobs(w.db, FeedJobs(feed));
      if r.Violation? then None else Some(Store(r.db, w.states, w.fed + FedBy(feed)))
  }

  ghost function Life(w: Store, s: Settings, es: seq<Event>): Option<Store> {
    if es == [] then Some(w)
    else
      var r := Life(w, s, es[..|es| - 1]);
      if r.None? then None else Happen(r.value, s, es[|es| - 1])
  }

  function Whole(channel: int, r: Remote): set<Fed> { set id | id in r :: Fed(channel, r[id]) }

  /** All that the feeds hand over is of one history, the channel's remote included. */
  ghost predicate OneHistory(w: Store, s: Settings, h: set<Fed>, es: seq<Event>) {
    && (forall id | id in s.remote :: s.remote[id].id == id)
    && History(h) && w.fed <= h && Whole(s.channel, s.remote) <= h
    && forall k | 0 <= k < |es| && es[k].Other? :: FeedOf(es[k].feed, h)
  }

  /** The worker has not lost anything on its way down from `c0`. */
  ghost predicate KeepsUp(w: Store, s: Settings, h: set<Fed>, c0: int) {
    && (forall id | id in s.remote :: s.remote[id].id == id)
    && History(h) && w.fed <= h && Whole(s.channel, s.remote) <= h
    && Holds(w.db, w.fed) && StoredCursor(w.states, s.channel).Some?
    && var c := StoredCursor(w.states, s.channel).value;
    && c <= c0 && Span(s.channel, s.remote, c, c0) <= w.fed
    && (Finished(w.states, s.channel) ==> Below(s.remote, c) == {})
  }

  lemma KeepsUpSound(w: Store, s: Settings, h: set<Fed>, c0: int)
    requires KeepsUp(w, s, h, c0)
    ensures Sound(w, s) && Reached(w, w, s)
  {
    var c := StoredCursor(w.states, s.channel).value;
    assert Span(s.channel, s.remote, Least(s.remote), c) <= Whole(s.channel, s.remote);
    assert w.fed + Span(s.channel, s.remote, Least(s.remote), c) <= h;
    assert Span(s.channel, s.remote, c, c) == {};
    assert w.fed + {} == w.fed;
  }

  lemma PassKeepsUp(w: Store, s: Settings, h: set<Fed>, c0: int, t: Tick)
    requires KeepsUp(w, s, h, c0) && s.batchSize > 0
    ensures Step(w, s, t).Some? && KeepsUp(Step(w, s, t).value, s, h, c0) && w.fed <= Step(w, s, t).value.fed
  {
    KeepsUpSound(w, s, h, c0);
    StepReached(w, w, s, t);
    StepKeepsStored(w, s, t);
    var w1 := Step(w, s, t).value;
    var (c, c1) := (StoredCursor(w.states, s.channel).value, StoredCursor(w1.states, s.channel).value);
    SpanJoins(s.channel, s.remote, c1, c, c0);
    assert Span(s.channel, s.remote, c1, c) <= Whole(s.channel, s.remote);
  }

  lemma StepKeepsStored(w: Store, s: Settings, t: Tick)
    requires StoredCursor(w.states, s.channel).Some? && Step(w, s, t).Some?
    ensures StoredCursor(Step(w, s, t).value.states, s.channel).Some?
  {
  }

  lemma CrashKeepsUp(w: Store, s: Settings, h: set<Fed>, c0: int, now: int, k: nat)
    requires KeepsUp(w, s, h, c0)
    ensures var r := Interrupted(w, s, now, k); r.Some? && KeepsUp(r.value, s, h, c0) && w.fed <= r.value.fed
  {
    KeepsUpSound(w, s, h, c0);
    if Picks(w, s, now) {
      InterruptedHolds(w, s, now, k);
      var c := StoredCursor(w.states, s.channel).value;
      assert Span(s.channel, s.remote, Least(s.remote), c) <= Whole(s.channel, s.remote);
    }
  }

  lemma OtherKeepsUp(w: Store, s: Settings, h: set<Fed>, c0: int, feed: Feed)
    requires KeepsUp(w, s, h, c0) && FeedOf(feed, h)
    ensures var r := Happen(w, s, Other(feed)); r.Some? && KeepsUp(r.value, s, h, c0) && w.fed <= r.value.fed
  {
    FeedHolds(w.db, w.fed, h, feed);
  }

  lemma {:induction false} LifeKeepsUp(w: Store, s: Settings, h: set<Fed>, c0: int, es: seq<Event>)
    requires KeepsUp(w, s, h, c0) && OneHistory(w, s, h, es) && s.batchSize > 0
    ensures Life(w, s, es).Some? && KeepsUp(Life(w, s, es).value, s, h, c0) && w.fed <= Life(w, s, es).value.fed
  {
    if es != [] {
      var front, e := es[..|es| - 1], es[|es| - 1];
      LifeKeepsUp(w, s, h, c0, front);
      var mid := Life(w, s, front).value;
      match e
      case Pass(t) => PassKeepsUp(mid, s, h, c0, t);
      case Crash(now, k) => CrashKeepsUp(mid, s, h, c0, now, k);
      case Other(feed) => OtherKeepsUp(mid, s, h, c0, feed);
    }
  }

  /** Once a cursor is saved, no crash, however often and wherever it falls, and no
      other feed in between makes the worker lose a message: a channel it closes holds
      all of the history below the cursor. */
  lemma SavedCursorLosesNothing(w: Store, s: Settings, h: set<Fed>, es: seq<Event>)
    requires Sound(w, s) && !Finished(w.states, s.channel) && StoredCursor(w.states, s.channel).Some?
    requires OneHistory(w, s, h, es) && s.batchSize > 0
    ensures Life(w, s, es).Some?
    ensures var later := Life(w, s, es).value;
      && Holds(later.db, later.fed) && w.fed <= later.fed <= h
      && (Finished(later.states, s.channel) ==>
            Span(s.channel, s.remote, Least(s.remote), StoredCursor(w.states, s.channel).value) <= later.fed)
  {
    var c0 := StoredCursor(w.states, s.channel).value;
    assert Span(s.channel, s.remote, c0, c0) == {};
    LifeKeepsUp(w, s, h, c0, es);
    var later := Life(w, s, es).value;
    if Finished(later.states, s.channel) {
      WholeSpan(s.channel, s.remote, StoredCursor(later.states, s.channel).value, c0);
    }
  }

  // ---- before the first cursor is saved -------------------------------------------------

  /** The tables hold what was fed, all of it of one history. */
  ghost predicate InHistory(w: Store, s: Settings, h: set<Fed>) {
    && (forall id | id in s.remote :: s.remote[id].id == id)
    && History(h) && w.fed <= h && Whole(s.channel, s.remote) <= h && Holds(w.db, w.fed)
  }

  predicate PostsKept(a: Db, b: Db) {
    forall p | p in a.posts :: p in b.posts && b.posts[p] == a.posts[p]
  }

  lemma InHistorySound(w: Store, s: Settings, h: set<Fed>)
    requires InHistory(w, s, h) && Cursor(w.db, w.states, s.channel).Some?
    ensures Sound(w, s)
  {
    var left := Span(s.channel, s.remote, Least(s.remote), Cursor(w.db, w.states, s.channel).value);
    assert left <= Whole(s.channel, s.remote);
    PartOfHistory(h, w.fed + left);
  }

  /** What an event may do: add messages of the history and keep every post. */
  ghost predicate Adds(w: Store, w': Store, s: Settings, h: set<Fed>) {
    InHistory(w', s, h) && w.fed <= w'.fed && PostsKept(w.db, w'.db)
  }

  lemma PassAdds(w: Store, s: Settings, h: set<Fed>, t: Tick)
    requires InHistory(w, s, h)
    ensures Step(w, s, t).Some? && Adds(w, Step(w, s, t).value, s, h)
  {
    if Picks(w, s, t.now) && t.outcome.Fetched? {
      InHistorySound(w, s, h);
      FetchedHolds(w, s, t);
      FetchedPass(w, s, t);
      BatchInHistory(w, s);
      assert Span(s.channel, s.remote, Least(s.remote), Cursor(w.db, w.states, s.channel).value)
        <= Whole(s.channel, s.remote);
      FetchKeepsPosts(w, s, t);
    }
  }

  lemma FetchKeepsPosts(w: Store, s: Settings, t: Tick)
    requires Picks(w, s, t.now) && t.outcome.Fetched? && Step(w, s, t).Some? && Valid(w.db)
    ensures PostsKept(w.db, Step(w, s, t).value.db)
  {
    RunJobsKeepsPosts(w.db, BatchJobs(s.channel, Batch(w, s)));
  }

  lemma CrashAdds(w: Store, s: Settings, h: set<Fed>, now: int, k: nat)
    requires InHistory(w, s, h)
    ensures Interrupted(w, s, now, k).Some? && Adds(w, Interrupted(w, s, now, k).value, s, h)
  {
    if Picks(w, s, now) {
      InHistorySound(w, s, h);
      InterruptedHolds(w, s, now, k);
      assert Span(s.channel, s.remote, Least(s.remote), Cursor(w.db, w.states, s.channel).value)
        <= Whole(s.channel, s.remote);
    }
  }

  lemma OtherAdds(w: Store, s: Settings, h: set<Fed>, feed: Feed)
    requires InHistory(w, s, h) && FeedOf(feed, h)
    ensures Happen(w, s, Other(feed)).Some? && Adds(w, Happen(w, s, Other(feed)).value, s, h)
  {
    FeedHolds(w.db, w.fed, h, feed);
    RunJobsKeepsPosts(w.db, FeedJobs(feed));
  }

  ghost predicate FeedsOf(es: seq<Event>, h: set<Fed>) {
    forall k | 0 <= k < |es| && es[k].Other? :: FeedOf(es[k].feed, h)
  }

  lemma {:induction false} LifeAdds(w: Store, s: Settings, h: set<Fed>, es: seq<Event>)
    requires InHistory(w, s, h) && FeedsOf(es, h)
    ensures Life(w, s, es).Some? && Adds(w, Life(w, s, es).value, s, h)
  {
    if es != [] {
      var front, e := es[..|es| - 1], es[|es| - 1];
      LifeAdds(w, s, h, front);
      var mid := Life(w, s, front).value;
      match e
      case Pass(t) => PassAdds(mid, s, h, t);
      case Crash(now, k) => CrashAdds(mid, s, h, now, k);
      case Other(feed) => OtherAdds(mid, s, h, feed);
    }
  }

  /** What the other feeds hand over. */
  function ByOthers(es: seq<Event>): set<Fed> {
    if es == [] then {}
    else ByOthers(es[..|es| - 1]) + if es[|es| - 1].Other? then FedBy(es[|es| - 1].feed) else {}
  }

  /** From a pass that started at `c1` and saved a cursor or closed the channel: below `c1`
      nothing is lost, and above it there is what there was and what other feeds brought. */
  ghost predicate Settled(w1: Store, w: Store, s: Settings, h: set<Fed>, c1: int, others: set<Fed>) {
    && w1.fed + others <= w.fed <= w1.fed + others + Span(s.channel, s.remote, Least(s.remote), c1)
    && InHistory(w, s, h)
    && (KeepsUp(w, s, h, c1) || (Finished(w.states, s.channel) && Below(s.remote, c1) == {}))
  }

  lemma PassBelow(w: Store, s: Settings, h: set<Fed>, c1: int, t: Tick)
    requires InHistory(w, s, h) && (Cursor(w.db, w.states, s.channel).Some? ==>
      Cursor(w.db, w.states, s.channel).value <= c1)
    ensures Step(w, s, t).Some?
    ensures Step(w, s, t).value.fed <= w.fed + Span(s.channel, s.remote, Least(s.remote), c1)
  {
    PassAdds(w, s, h, t);
    if Picks(w, s, t.now) && t.outcome.Fetched? {
      InHistorySound(w, s, h);
      FetchedPass(w, s, t);
      BatchInHistory(w, s);
      SpanCut(s.channel, s.remote, Cursor(w.db, w.states, s.channel).value, c1);
    }
  }

  lemma CrashBelow(w: Store, s: Settings, h: set<Fed>, c1: int, now: int, k: nat)
    requires InHistory(w, s, h) && (Cursor(w.db, w.states, s.channel).Some? ==>
      Cursor(w.db, w.states, s.channel).value <= c1)
    ensures Interrupted(w, s, now, k).Some?
    ensures Interrupted(w, s, now, k).value.fed <= w.fed + Span(s.channel, s.remote, Least(s.remote), c1)
  {
    if Picks(w, s, now) {
      InHistorySound(w, s, h);
      InterruptedHolds(w, s, now, k);
      SpanCut(s.channel, s.remote, Cursor(w.db, w.states, s.channel).value, c1);
    }
  }

  lemma SpanCut(channel: int, r: Remote, c: int, c1: int)
    requires c <= c1
    ensures Span(channel, r, Least(r), c) <= Span(channel, r, Least(r), c1)
  {
  }

  lemma TickSettles(w1: Store, w: Store, s: Settings, h: set<Fed>, c1: int, others: set<Fed>, t: Tick)
    requires Settled(w1, w, s, h, c1, others) && s.batchSize > 0
    ensures Step(w, s, t).Some? && Settled(w1, Step(w, s, t).value, s, h, c1, others)
  {
    PassAdds(w, s, h, t);
    if KeepsUp(w, s, h, c1) {
      PassKeepsUp(w, s, h, c1, t);
      PassBelow(w, s, h, c1, t);
    }
  }

  lemma CrashSettles(w1: Store, w: Store, s: Settings, h: set<Fed>, c1: int, others: set<Fed>, now: int, k: nat)
    requires Settled(w1, w, s, h, c1, others)
    ensures var r := Interrupted(w, s, now, k); r.Some? && Settled(w1, r.value, s, h, c1, others)
  {
    CrashAdds(w, s, h, now, k);
    if KeepsUp(w, s, h, c1) {
      CrashKeepsUp(w, s, h, c1, now, k);
      CrashBelow(w, s, h, c1, now, k);
    }
  }

  lemma OtherSettles(w1: Store, w: Store, s: Settings, h: set<Fed>, c1: int, others: set<Fed>, feed: Feed)
    requires Settled(w1, w, s, h, c1, others) && FeedOf(feed, h)
    ensures var r := Happen(w, s, Other(feed)); r.Some? && Settled(w1, r.value, s, h, c1, others + FedBy(feed))
  {
    OtherAdds(w, s, h, feed);
    var w' := Happen(w, s, Other(feed)).value;
    assert w'.states == w.states && w'.fed == w.fed + FedBy(feed);
    if KeepsUp(w, s, h, c1) {
      OtherKeepsUp(w, s, h, c1, feed);
    }
  }

  lemma EventSettles(w1: Store, w: Store, s: Settings, h: set<Fed>, c1: int, others: set<Fed>, e: Event)
    requires Settled(w1, w, s, h, c1, others) && s.batchSize > 0 && FeedsOf([e], h)
    ensures var r := Happen(w, s, e);
      r.Some? && Settled(w1, r.value, s, h, c1, others + if e.Other? then FedBy(e.feed) else {})
  {
    assert e.Other? ==> [e][0].Other?;
    assert others + {} == others;
    match e
    case Pass(t) => TickSettles(w1, w, s, h, c1, others, t);
    case Crash(now, k) => CrashSettles(w1, w, s, h, c1, others, now, k);
    case Other(feed) => OtherSettles(w1, w, s, h, c1, others, feed);
  }

  lemma {:induction false} LifeSettles(w1: Store, w: Store, s: Settings, h: set<Fed>, c1: int, es: seq<Event>)
    requires Settled(w1, w, s, h, c1, {}) && s.batchSize > 0 && FeedsOf(es, h)
    ensures Life(w, s, es).Some? && Settled(w1, Life(w, s, es).value, s, h, c1, ByOthers(es))
  {
    if es != [] {
      var front, e := es[..|es| - 1], es[|es| - 1];
      LifeSettles(w1, w, s, h, c1, front);
      EventSettles(w1, Life(w, s, front).value, s, h, c1, ByOthers(front), e);
    }
  }

  lemma SavesOrCloses(w1: Store, s: Settings, h: set<Fed>, t: Tick)
    requires InHistory(w1, s, h) && s.batchSize > 0 && StoredCursor(w1.states, s.channel).None?
    requires Picks(w1, s, t.now) && !t.outcome.FloodWait?
    requires Step(w1, s, t).Some? && InHistory(Step(w1, s, t).value, s, h)
    ensures var c1, w := Cursor(w1.db, w1.states, s.channel).value, Step(w1, s, t).value;
      KeepsUp(w, s, h, c1) || (Finished(w.states, s.channel) && Below(s.remote, c1) == {})
  {
    var c1 := Cursor(w1.db, w1.states, s.channel).value;
    BatchIsSpan(s.channel, s.remote, c1, s.batchSize);
    if t.outcome.Fetched? {
      InHistorySound(w1, s, h);
      FetchedPass(w1, s, t);
    } else {
      assert Span(s.channel, s.remote, c1, c1) == {};
    }
  }

  /** The pass that first saves a cursor, or finds nothing below the posts. */
  lemma FirstSave(w1: Store, s: Settings, h: set<Fed>, t: Tick)
    requires InHistory(w1, s, h) && s.batchSize > 0 && StoredCursor(w1.states, s.channel).None?
    requires Picks(w1, s, t.now) && !t.outcome.FloodWait?
    ensures Step(w1, s, t).Some?
    ensures Settled(w1, Step(w1, s, t).value, s, h, Cursor(w1.db, w1.states, s.channel).value, {})
  {
    var c1 := Cursor(w1.db, w1.states, s.channel).value;
    PassAdds(w1, s, h, t);
    PassBelow(w1, s, h, c1, t);
    SavesOrCloses(w1, s, h, t);
  }

  /** Without a saved cursor: after any ticks, crashes and other feeds some pass starts at
      the least id stored by then, `c1`, and is the first to save a cursor or to find
      nothing below. Whatever happens after it, a channel that is closed holds all of the
      history below a point above `c1` if and only if what lies from `c1` up to that point
      was there when that pass began or was brought by another feed. */
  lemma CompleteThroughFaults(w: Store, s: Settings, h: set<Fed>, before: seq<Event>, t: Tick, after: seq<Event>,
      top: int)
    requires InHistory(w, s, h) && s.batchSize > 0 && FeedsOf(before, h) && FeedsOf(after, h)
    requires Life(w, s, before).Some? ==>
      && StoredCursor(Life(w, s, before).value.states, s.channel).None?
      && Picks(Life(w, s, before).value, s, t.now) && !t.outcome.FloodWait?
      && Cursor(Life(w, s, before).value.db, Life(w, s, before).value.states, s.channel).value <= top
    ensures Life(w, s, before).Some?
    ensures var w1 := Life(w, s, before).value;
      && Step(w1, s, t).Some? && Life(Step(w1, s, t).value, s, after).Some?
      && var (c1, later) := (Min(StoredIds(w1.db, s.channel)), Life(Step(w1, s, t).value, s, after).value);
      && (Finished(later.states, s.channel) ==>
            (Span(s.channel, s.remote, Least(s.remote), top) <= later.fed
            <==> Span(s.channel, s.remote, c1, top) <= w1.fed + ByOthers(after)))
  {
    LifeAdds(w, s, h, before);
    var w1 := Life(w, s, before).value;
    var c1 := Min(StoredIds(w1.db, s.channel));
    FirstSave(w1, s, h, t);
    LifeSettles(w1, Step(w1, s, t).value, s, h, c1, after);
    var later := Life(Step(w1, s, t).value, s, after).value;
    if Finished(later.states, s.channel) {
      SettledComplete(w1, later, s, h, c1, ByOthers(after), top);
    }
  }

  lemma SettledBelow(w1: Store, w: Store, s: Settings, h: set<Fed>, c1: int, others: set<Fed>)
    requires Settled(w1, w, s, h, c1, others) && Finished(w.states, s.channel)
    ensures Span(s.channel, s.remote, Least(s.remote), c1) <= w.fed
  {
    if KeepsUp(w, s, h, c1) {
      WholeSpan(s.channel, s.remote, StoredCursor(w.states, s.channel).value, c1);
    } else {
      assert forall id | id in s.remote && id < c1 :: id in Below(s.remote, c1);
    }
  }

  lemma SettledComplete(w1: Store, w: Store, s: Settings, h: set<Fed>, c1: int, others: set<Fed>, top: int)
    requires Settled(w1, w, s, h, c1, others) && Finished(w.states, s.channel) && c1 <= top
    ensures Span(s.channel, s.remote, Least(s.remote), top) <= w.fed
      <==> Span(s.channel, s.remote, c1, top) <= w1.fed + others
  {
    SettledBelow(w1, w, s, h, c1, others);
    var low, high := Span(s.channel, s.remote, Least(s.remote), c1), Span(s.channel, s.remote, c1, top);
    assert low !! high;
    assert Span(s.channel, s.remote, Least(s.remote), top) == low + high;
  }
}
