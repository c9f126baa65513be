/** Which text each post carries after any run of the feeds. */
module Captions {
  import opened Prelude
  import opened PostStore
  import opened Ingest
  import opened Convergence
  import Sorting

  /** The messages of a group that a feed hands over. */
  function GroupIn(e: Feed, channel: int, group: int): set<Message> {
    set f | f in FedBy(e) && f.channel == channel && f.msg.group == Some(group) :: f.msg
  }

  /** The first feed that hands over any of them. */
  predicate FirstFed(es: seq<Feed>, k: nat, channel: int, group: int) {
    && k < |es| && GroupIn(es[k], channel, group) != {}
    && forall j | 0 <= j < k :: GroupIn(es[j], channel, group) == {}
  }

  predicate SoloOf(post: Post, f: Fed) {
    f.msg.group.None? && post == Post(f.channel, f.msg.id, None, f.msg.text)
  }

  /** A single message's post carries its text; a group's carries the caption of those of
      its messages that the first feed to bring any handed over, at the least of their ids. */
  ghost predicate TextTold(post: Post, es: seq<Feed>) {
    if post.group.None? then exists f :: f in FedByAll(es) && SoloOf(post, f)
    else exists k: nat :: CaptionFrom(post, es, k)
  }

  ghost predicate CaptionFrom(post: Post, es: seq<Feed>, k: nat) {
    && post.group.Some? && FirstFed(es, k, post.channel, post.group.value)
    && PostFor(post.channel, GroupIn(es[k], post.channel, post.group.value), post)
  }

  // ---- where a post comes from ----------------------------------------------------------

  /** One of the jobs stored it, and its group had no post before them. */
  ghost predicate FromJob(db: Db, jobs: seq<Job>, post: Post) {
    && (exists k :: 0 <= k < |jobs| && jobs[k].post == post)
    && (post.group.Some? ==> GroupPosts(db, post.channel, post.group.value) == {})
  }

  lemma UpsertedPost(db: Db, post: Post, rows: seq<Row>, p: int)
    requires Valid(db) && Upsert(db, post, rows).Stored? && p in Upsert(db, post, rows).db.posts
    ensures var now := Upsert(db, post, rows).db.posts;
      || (p in db.posts && now[p] == db.posts[p])
      || (now[p] == post && (post.group.Some? ==> GroupPosts(db, post.channel, post.group.value) == {}))
  {
    if post.group.Some? && GroupPosts(db, post.channel, post.group.value) != {} {
      var _, _, _, _, _ := UpsertAppends(db, post, rows);
    } else if MessagePosts(db, post.channel, post.msgId) != {} {
      UpsertSkips(db, post, rows);
    } else {
      UpsertCreates(db, post, rows);
    }
  }

  lemma NoGroupBefore(db: Db, later: Db, channel: int, group: int)
    requires forall p | p in db.posts :: p in later.posts && later.posts[p] == db.posts[p]
    ensures GroupPosts(later, channel, group) == {} ==> GroupPosts(db, channel, group) == {}
  {
    if GroupPosts(db, channel, group) != {} {
      var p := Any(GroupPosts(db, channel, group));
      assert p in GroupPosts(later, channel, group);
    }
  }

  lemma {:induction false} PostsOfJobs(db: Db, jobs: seq<Job>, p: int)
    requires Valid(db) && RunJobs(db, jobs).Stored? && p in RunJobs(db, jobs).db.posts
    ensures var now := RunJobs(db, jobs).db.posts;
      (p in db.posts && now[p] == db.posts[p]) || FromJob(db, jobs, now[p])
  {
    if jobs != [] {
      var front, last := jobs[..|jobs| - 1], jobs[|jobs| - 1];
      var mid := RunJobs(db, front).db;
      RunJobsKeepsIndexes(db, front);
      RunJobsKeepsPosts(db, front);
      UpsertedPost(mid, last.post, last.rows, p);
      if p in mid.posts && RunJobs(db, jobs).db.posts[p] == mid.posts[p] {
        PostsOfJobs(db, front, p);
        assert forall k | 0 <= k < |front| :: jobs[k] == front[k];
      } else if last.post.group.Some? {
        NoGroupBefore(db, mid, last.post.channel, last.post.group.value);
      }
    }
  }

  // ---- what a feed's jobs store ---------------------------------------------------------

  ghost predicate JobTold(e: Feed, post: Post) {
    if post.group.None? then exists f :: f in FedBy(e) && SoloOf(post, f)
    else
      var msgs := GroupIn(e, post.channel, post.group.value);
      msgs != {} && PostFor(post.channel, msgs, post)
  }

  lemma {:induction false} AlbumJobAt(channel: int, albums: Albums, order: seq<int>, k: nat)
    requires (forall g | g in order :: g in albums.of && albums.of[g] != []) && k < |AlbumJobs(channel, albums, order)|
    ensures k < |order| && order[k] in albums.of && albums.of[order[k]] != []
    ensures AlbumJobs(channel, albums, order)[k] == AlbumJob(channel, albums.of[order[k]])
  {
    var front := order[..|order| - 1];
    AlbumJobsLength(channel, albums, order);
    AlbumJobsLength(channel, albums, front);
    assert order[k] in order;
    if k < |front| {
      AlbumJobAt(channel, albums, front, k);
    }
  }

  lemma {:induction false} AlbumJobsLength(channel: int, albums: Albums, order: seq<int>)
    requires forall g | g in order :: g in albums.of && albums.of[g] != []
    ensures |AlbumJobs(channel, albums, order)| == |order|
  {
    if order != [] {
      AlbumJobsLength(channel, albums, order[..|order| - 1]);
    }
  }

  lemma {:induction false} SoloJobAt(channel: int, solos: seq<Message>, k: nat)
    requires k < |SoloJobs(channel, solos)|
    ensures k < |solos| && SoloJobs(channel, solos)[k] == SoloJob(channel, solos[k])
  {
    SoloJobsLength(channel, solos);
    if k < |solos| - 1 {
      SoloJobsLength(channel, solos[..|solos| - 1]);
      SoloJobAt(channel, solos[..|solos| - 1], k);
    } else {
      SoloJobsLength(channel, solos[..|solos| - 1]);
    }
  }

  lemma {:induction false} SoloJobsLength(channel: int, solos: seq<Message>)
    ensures |SoloJobs(channel, solos)| == |solos|
  {
    if solos != [] {
      SoloJobsLength(channel, solos[..|solos| - 1]);
    }
  }

  lemma AlbumOfBatch(channel: int, msgs: seq<Message>, group: int)
    ensures GroupIn(Batch(channel, msgs), channel, group) == Sorting.Elements(OfGroup(msgs, Some(group)))
  {
    forall m ensures m in GroupIn(Batch(channel, msgs), channel, group)
      <==> m in Sorting.Elements(OfGroup(msgs, Some(group)))
    {
      OfGroupMembers(msgs, Some(group), m);
      assert Fed(channel, m).msg == m;
    }
  }

  lemma AlbumTold(e: Feed, channel: int, group: int, msgs: seq<Message>)
    requires msgs != [] && (forall m | m in msgs :: m.group == Some(group))
    requires GroupIn(e, channel, group) == Sorting.Elements(msgs)
    ensures JobTold(e, AlbumJob(channel, msgs).post)
  {
    AlbumPost(channel, msgs);
    assert msgs[0] in Sorting.Elements(msgs);
  }

  lemma BatchTold(channel: int, msgs: seq<Message>, k: nat)
    requires k < |BatchJobs(channel, msgs)|
    ensures JobTold(Batch(channel, msgs), BatchJobs(channel, msgs)[k].post)
  {
    var b := Split(msgs);
    SplitIsSplit(msgs);
    AlbumJobsLength(channel, b.albums, b.albums.order);
    if k < |b.albums.order| {
      AlbumJobAt(channel, b.albums, b.albums.order, k);
      var g := b.albums.order[k];
      AlbumOfBatch(channel, msgs, g);
      forall m | m in b.albums.of[g] ensures m.group == Some(g) {
        OfGroupMembers(msgs, Some(g), m);
      }
      AlbumTold(Batch(channel, msgs), channel, g, b.albums.of[g]);
    } else {
      var i := k - |b.albums.order|;
      SoloJobAt(channel, b.solos, i);
      OfGroupMembers(msgs, None, b.solos[i]);
      assert b.solos[i] in b.solos;
      assert SoloOf(SoloJob(channel, b.solos[i]).post, Fed(channel, b.solos[i]));
    }
  }

  /** A batch's albums are stored before its single messages. */
  lemma AlbumsFirst(channel: int, msgs: seq<Message>, i: nat, j: nat)
    requires i < j < |BatchJobs(channel, msgs)| && BatchJobs(channel, msgs)[i].post.group.None?
    ensures BatchJobs(channel, msgs)[j].post.group.None?
  {
    var b := Split(msgs);
    SplitIsSplit(msgs);
    AlbumJobsLength(channel, b.albums, b.albums.order);
    if i < |b.albums.order| {
      AlbumJobAt(channel, b.albums, b.albums.order, i);
      var g := b.albums.order[i];
      forall m | m in b.albums.of[g] ensures m.group == Some(g) {
        OfGroupMembers(msgs, Some(g), m);
      }
      AlbumPost(channel, b.albums.of[g]);
    }
    var k := j - |b.albums.order|;
    if k >= 0 {
      SoloJobAt(channel, b.solos, k);
      OfGroupMembers(msgs, None, b.solos[k]);
      assert b.solos[k] in b.solos;
    }
  }

  lemma FeedTold(e: Feed, h: set<Fed>, k: nat)
    requires FeedOf(e, h) && k < |FeedJobs(e)|
    ensures JobTold(e, FeedJobs(e)[k].post)
  {
    match e
    case Batch(c, msgs) => BatchTold(c, msgs, k);
    case LiveAlbum(c, msgs) =>
      var g :| forall m | m in msgs :: m.group == Some(g);
      forall m ensures m in GroupIn(e, c, g) <==> m in msgs {
        assert Fed(c, m).msg == m;
      }
      assert GroupIn(e, c, g) == Sorting.Elements(msgs);
      AlbumTold(e, c, g, msgs);
    case LiveMessage(c, m) => assert SoloOf(SoloJob(c, m).post, Fed(c, m));
  }

  // ---- any run of the feeds -------------------------------------------------------------

  lemma {:induction false} FedEarlier(es: seq<Feed>, k: nat)
    requires k < |es|
    ensures FedBy(es[k]) <= FedByAll(es)
  {
    if k < |es| - 1 {
      FedEarlier(es[..|es| - 1], k);
    }
  }

  lemma ToldLater(post: Post, front: seq<Feed>, e: Feed)
    requires TextTold(post, front)
    ensures TextTold(post, front + [e])
  {
    var es := front + [e];
    assert es[..|front|] == front;
    if post.group.None? {
      var f :| f in FedByAll(front) && SoloOf(post, f);
      assert f in FedByAll(es);
    } else {
      var k: nat :| CaptionFrom(post, front, k);
      assert forall j | 0 <= j <= k :: es[j] == front[j];
      assert CaptionFrom(post, es, k);
    }
  }

  lemma FedHasGroup(db: Db, fed: set<Fed>, f: Fed)
    requires Holds(db, fed) && f in fed && f.msg.group.Some?
    ensures GroupPosts(db, f.channel, f.msg.group.value) != {}
  {
    assert HasPost(db.posts, KeyOf(f));
    var p :| p in db.posts && PostKey(db.posts[p]) == KeyOf(f);
    assert p in GroupPosts(db, f.channel, f.msg.group.value);
  }

  /** A group without a post has not been fed. */
  lemma NotFedYet(db: Db, es: seq<Feed>, channel: int, group: int, j: nat)
    requires Holds(db, FedByAll(es)) && GroupPosts(db, channel, group) == {} && j < |es|
    ensures GroupIn(es[j], channel, group) == {}
  {
    FedEarlier(es, j);
    if GroupIn(es[j], channel, group) != {} {
      FedHasGroup(db, FedByAll(es), Fed(channel, Any(GroupIn(es[j], channel, group))));
    }
  }

  lemma ToldNow(db: Db, front: seq<Feed>, e: Feed, h: set<Fed>, post: Post)
    requires Holds(db, FedByAll(front)) && FeedOf(e, h) && FromJob(db, FeedJobs(e), post)
    ensures TextTold(post, front + [e])
  {
    var es := front + [e];
    var k :| 0 <= k < |FeedJobs(e)| && FeedJobs(e)[k].post == post;
    FeedTold(e, h, k);
    assert es[..|front|] == front;
    if post.group.None? {
      var f :| f in FedBy(e) && SoloOf(post, f);
      assert f in FedByAll(es);
    } else {
      forall j | 0 <= j < |front| ensures GroupIn(es[j], post.channel, post.group.value) == {} {
        NotFedYet(db, front, post.channel, post.group.value, j);
      }
      assert CaptionFrom(post, es, |front|);
    }
  }

  /** After any run of the feeds each post carries the text it is to carry. */
  lemma {:induction false} ReplayTexts(h: set<Fed>, es: seq<Feed>)
    requires History(h) && forall e | e in es :: FeedOf(e, h)
    ensures var r := Replay(EMPTY, es); r.Stored? && forall p | p in r.db.posts :: TextTold(r.db.posts[p], es)
  {
    ReplayHolds(h, es);
    if es != [] {
      var front, e := es[..|es| - 1], es[|es| - 1];
      ReplayHolds(h, front);
      ReplayTexts(h, front);
      assert es == front + [e];
      TextsNext(Replay(EMPTY, front).db, front, e, h);
    }
  }

  lemma TextsNext(db: Db, front: seq<Feed>, e: Feed, h: set<Fed>)
    requires Holds(db, FedByAll(front)) && FeedOf(e, h) && RunJobs(db, FeedJobs(e)).Stored?
    requires forall p | p in db.posts :: TextTold(db.posts[p], front)
    ensures var now := RunJobs(db, FeedJobs(e)).db; forall p | p in now.posts :: TextTold(now.posts[p], front + [e])
  {
    var now := RunJobs(db, FeedJobs(e)).db;
    forall p | p in now.posts ensures TextTold(now.posts[p], front + [e]) {
      PostsOfJobs(db, FeedJobs(e), p);
      if p in db.posts && now.posts[p] == db.posts[p] {
        ToldLater(now.posts[p], front, e);
      } else {
        ToldNow(db, front, e, h, now.posts[p]);
      }
    }
  }

  /** In particular each ungrouped message that was fed has a post with its text. */
  lemma SoloShowsText(h: set<Fed>, es: seq<Feed>, f: Fed)
    requires History(h) && (forall e | e in es :: FeedOf(e, h)) && f in FedByAll(es) && f.msg.group.None?
    ensures var r := Replay(EMPTY, es);
      r.Stored? && exists p :: p in r.db.posts && r.db.posts[p] == Post(f.channel, f.msg.id, None, f.msg.text)
  {
    ReplayHolds(h, es);
    ReplayTexts(h, es);
    var db := Replay(EMPTY, es).db;
    assert HasPost(db.posts, KeyOf(f));
    var p :| p in db.posts && PostKey(db.posts[p]) == KeyOf(f);
    assert TextTold(db.posts[p], es);
    var g :| g in FedByAll(es) && SoloOf(db.posts[p], g);
    assert g in h && f in h;
  }
}
