/** The one-shot merge among the feeds: on a history stored message by message it gives the
    tables that the feeds would have given, and what a catch-up before it can do to it. */
module MergedHistory {
  import opened Prelude
  import opened PostStore
  import opened Ingest
  import opened Convergence
  import opened MergeAlbums
  import Sorting

  // ---- a history stored message by message ----------------------------------------------

  /** A message as ingest saw it before groups were stored. */
  function Plain(f: Fed): Fed { Fed(f.channel, f.msg.(group := None)) }

  function Stripped(fed: set<Fed>): set<Fed> { set f | f in fed :: Plain(f) }

  /** Every message has a post of its own, untagged. */
  ghost predicate Singles(db: Db, fed: set<Fed>) { Holds(db, Stripped(fed)) }

  /** Telegram reports each message's group. */
  predicate TrueAnswers(answers: Answers, fed: set<Fed>) {
    forall f | f in fed ::
      MessageRef(f.channel, f.msg.id) in answers && answers[MessageRef(f.channel, f.msg.id)] == f.msg.group
  }

  predicate Shows(db: Db, p: int, f: Fed) {
    && p in db.posts && db.posts[p].channel == f.channel && db.posts[p].msgId == f.msg.id && db.posts[p].group.None?
  }

  lemma SinglePost(db: Db, fed: set<Fed>, p: int) returns (f: Fed)
    requires Singles(db, fed) && p in db.posts
    ensures f in fed && Shows(db, p, f)
  {
    assert Stands(db.posts[p], Stripped(fed));
    var plain :| plain in Stripped(fed) && KeyOf(plain) == PostKey(db.posts[p])
      && plain.channel == db.posts[p].channel && plain.msg.id == db.posts[p].msgId;
    f :| f in fed && plain == Plain(f);
  }

  lemma SingleOf(db: Db, fed: set<Fed>, f: Fed) returns (p: int)
    requires Singles(db, fed) && f in fed
    ensures Shows(db, p, f)
  {
    assert Plain(f) in Stripped(fed);
    assert HasPost(db.posts, KeyOf(Plain(f)));
    p :| p in db.posts && PostKey(db.posts[p]) == KeyOf(Plain(f));
  }

  function OwnFile(f: Fed): set<Option<string>> {
    if FileOf(f.msg).Some? then {FileOf(f.msg)} else {}
  }

  lemma PlainFiles(fed: set<Fed>, f: Fed)
    requires History(fed) && f in fed
    ensures FedFiles(Stripped(fed), Solo(f.channel, f.msg.id)) == OwnFile(f)
  {
    var key := Solo(f.channel, f.msg.id);
    forall x | x in FedFiles(Stripped(fed), key) ensures x in OwnFile(f) {
      var plain :| plain in Stripped(fed) && KeyOf(plain) == key && FileOf(plain.msg) == x && x.Some?;
      var g :| g in fed && plain == Plain(g);
      assert g == f;
    }
    assert Plain(f) in Stripped(fed) && KeyOf(Plain(f)) == key && FileOf(Plain(f).msg) == FileOf(f.msg);
  }

  lemma SingleFiles(db: Db, fed: set<Fed>, p: int, f: Fed)
    requires Singles(db, fed) && History(fed) && f in fed && Shows(db, p, f)
    ensures FilesAt(db, p) == OwnFile(f) && RowsDistinct(db, p)
  {
    PlainFiles(fed, f);
    assert PostKey(db.posts[p]) == Solo(f.channel, f.msg.id);
  }

  lemma GroupOfSingle(db: Db, fed: set<Fed>, answers: Answers, p: int, f: Fed)
    requires f in fed && Shows(db, p, f) && TrueAnswers(answers, fed)
    ensures GroupOf(db, answers, p)
      == if f.msg.group.None? then None else Some(GroupKey(f.channel, f.msg.group.value))
  {
  }

  // ---- the merge of it ------------------------------------------------------------------

  /** The run's targets are all the posts. */
  ghost predicate Targets(db: Db, rows: seq<int>) {
    Sorting.Distinct(rows) && forall p :: p in rows <==> p in db.posts
  }

  /** The merge of singles, and what it is about. */
  ghost predicate Merging(db: Db, fed: set<Fed>, answers: Answers, rows: seq<int>, db': Db) {
    && Singles(db, fed) && History(fed) && TrueAnswers(answers, fed) && Targets(db, rows)
    && MergeRun(db, answers, rows, Met(db, answers, rows)) == Some(db')
    && Folded(db, db', answers, rows, Sorting.Elements(Met(db, answers, rows)))
  }

  lemma NoTags(db: Db, fed: set<Fed>, channel: int, group: int)
    requires Singles(db, fed)
    ensures GroupPosts(db, channel, group) == {}
  {
    if GroupPosts(db, channel, group) != {} {
      var f := SinglePost(db, fed, Any(GroupPosts(db, channel, group)));
    }
  }

  lemma NoneTagged(db: Db, fed: set<Fed>)
    requires Singles(db, fed)
    ensures forall key: GroupKey :: GroupPosts(db, key.channel, key.group) == {}
  {
    forall key: GroupKey ensures GroupPosts(db, key.channel, key.group) == {} {
      NoTags(db, fed, key.channel, key.group);
    }
  }

  lemma SinglesMerge(db: Db, fed: set<Fed>, answers: Answers, rows: seq<int>) returns (db': Db)
    requires Singles(db, fed) && History(fed) && TrueAnswers(answers, fed) && Targets(db, rows)
    ensures Merging(db, fed, answers, rows, db') && IsRun(db, answers, rows, Met(db, answers, rows)) && Valid(db')
  {
    var order := Met(db, answers, rows);
    MetIsRun(db, answers, rows);
    NoneTagged(db, fed);
    RunFolds(db, answers, rows, order);
    db' := MergeRun(db, answers, rows, order).value;
    assert order[..|order|] == order;
    RunKeepsIndexes(db, answers, rows, order, |order|);
  }

  /** The post of an ungrouped message is left as it was. */
  lemma SoloStays(db: Db, fed: set<Fed>, answers: Answers, rows: seq<int>, db': Db, p: int, f: Fed)
    requires Merging(db, fed, answers, rows, db') && f in fed && Shows(db, p, f) && f.msg.group.None?
    ensures p in db'.posts && db'.posts[p] == db.posts[p]
    ensures FilesAt(db', p) == FedFiles(fed, KeyOf(f)) && RowsDistinct(db', p)
  {
    var done := Sorting.Elements(Met(db, answers, rows));
    GroupOfSingle(db, fed, answers, p, f);
    assert !InDone(db, answers, rows, done, p) && Untouched(db, db', p);
    UntouchedMedia(db, db', answers, rows, done, p);
    SingleFiles(db, fed, p, f);
    SoloFiles(fed, f);
  }

  lemma SoloFiles(fed: set<Fed>, f: Fed)
    requires History(fed) && f in fed && f.msg.group.None?
    ensures FedFiles(fed, KeyOf(f)) == OwnFile(f)
  {
  }

  /** The group of a message, and the head of its posts. */
  ghost predicate HeadOf(db: Db, answers: Answers, rows: seq<int>, key: GroupKey, head: int)
    requires forall p | p in rows :: p in db.posts
  {
    Members(db, answers, rows, key) != [] && Members(db, answers, rows, key)[0] == head
  }

  lemma GroupMembers(db: Db, fed: set<Fed>, answers: Answers, rows: seq<int>, key: GroupKey, p: int)
    requires Singles(db, fed) && History(fed) && TrueAnswers(answers, fed) && Targets(db, rows)
    ensures p in Members(db, answers, rows, key) <==>
      exists f :: f in fed && Shows(db, p, f) && f.channel == key.channel && f.msg.group == Some(key.group)
  {
    MembersAre(db, answers, rows, key);
    if p in db.posts {
      var f := SinglePost(db, fed, p);
      GroupOfSingle(db, fed, answers, p, f);
    }
  }

  /** A group's head carries its tag, at the place of one of its messages. */
  lemma HeadStands(db: Db, fed: set<Fed>, answers: Answers, rows: seq<int>, db': Db, key: GroupKey)
    requires Merging(db, fed, answers, rows, db') && key in Met(db, answers, rows)
    requires Members(db, answers, rows, key) != []
    ensures var head := Members(db, answers, rows, key)[0];
      && head in db'.posts && PostKey(db'.posts[head]) == Group(key.channel, key.group)
      && Stands(db'.posts[head], fed)
  {
    var m := Members(db, answers, rows, key);
    var head := m[0];
    assert key in Sorting.Elements(Met(db, answers, rows));
    assert GroupFolded(db, db', m, key.group);
    GroupMembers(db, fed, answers, rows, key, head);
    assert head in m;
    var f :| f in fed && Shows(db, head, f) && f.channel == key.channel && f.msg.group == Some(key.group);
    assert KeyOf(f) == PostKey(db'.posts[head]);
  }

  lemma HeadFiles(db: Db, fed: set<Fed>, answers: Answers, rows: seq<int>, db': Db, key: GroupKey)
    requires Merging(db, fed, answers, rows, db') && IsRun(db, answers, rows, Met(db, answers, rows))
    requires key in Met(db, answers, rows)
    ensures Members(db, answers, rows, key) != []
    ensures FilesAt(db', Members(db, answers, rows, key)[0]) == FedFiles(fed, Group(key.channel, key.group))
  {
    var m := Members(db, answers, rows, key);
    FilesConserved(db, answers, rows, Met(db, answers, rows), key);
    forall x | x in FilesAt(db', m[0]) ensures x in FedFiles(fed, Group(key.channel, key.group)) {
      var p :| p in m && x in FilesAt(db, p);
      MemberFile(db, fed, answers, rows, key, p, x);
    }
    forall x | x in FedFiles(fed, Group(key.channel, key.group)) ensures x in FilesAt(db', m[0]) {
      var p := FileMember(db, fed, answers, rows, key, x);
    }
  }

  lemma MemberFile(db: Db, fed: set<Fed>, answers: Answers, rows: seq<int>, key: GroupKey, p: int, x: Option<string>)
    requires Singles(db, fed) && History(fed) && TrueAnswers(answers, fed) && Targets(db, rows)
    requires p in Members(db, answers, rows, key) && x in FilesAt(db, p)
    ensures x in FedFiles(fed, Group(key.channel, key.group))
  {
    GroupMembers(db, fed, answers, rows, key, p);
    var f :| f in fed && Shows(db, p, f) && f.channel == key.channel && f.msg.group == Some(key.group);
    SingleFiles(db, fed, p, f);
  }

  lemma FileMember(db: Db, fed: set<Fed>, answers: Answers, rows: seq<int>, key: GroupKey, x: Option<string>)
    returns (p: int)
    requires Singles(db, fed) && History(fed) && TrueAnswers(answers, fed) && Targets(db, rows)
    requires x in FedFiles(fed, Group(key.channel, key.group))
    ensures p in Members(db, answers, rows, key) && x in FilesAt(db, p)
  {
    var f :| f in fed && KeyOf(f) == Group(key.channel, key.group) && FileOf(f.msg) == x && x.Some?;
    p := SingleOf(db, fed, f);
    GroupMembers(db, fed, answers, rows, key, p);
    SingleFiles(db, fed, p, f);
  }

  lemma HeadRows(db: Db, fed: set<Fed>, answers: Answers, rows: seq<int>, db': Db, key: GroupKey)
    requires Merging(db, fed, answers, rows, db') && IsRun(db, answers, rows, Met(db, answers, rows))
    requires key in Met(db, answers, rows)
    ensures Members(db, answers, rows, key) != [] && RowsDistinct(db', Members(db, answers, rows, key)[0])
  {
    var m := Members(db, answers, rows, key);
    var head := m[0];
    FilesConserved(db, answers, rows, Met(db, answers, rows), key);
    assert key in Sorting.Elements(Met(db, answers, rows));
    HeadMediaFromMembers(db, db', answers, rows, Sorting.Elements(Met(db, answers, rows)), key);
    GroupMembers(db, fed, answers, rows, key, head);
    assert head in m;
    var f :| f in fed && Shows(db, head, f);
    SingleFiles(db, fed, head, f);
    PositionsApart(db, db', m);
  }

  lemma PositionsApart(db: Db, db': Db, m: seq<int>)
    requires m != [] && MediaFolded(db, db', m) && OwnRepeats(db, db', m[0]) && RowsDistinct(db, m[0])
    requires forall i | i in MediaOf(db', m[0]) :: i in db.media && db.media[i].postId in m
    ensures RowsDistinct(db', m[0])
  {
    var head := m[0];
    forall i | i in MediaOf(db', head) ensures i in MediaOf(db, head) || db.media[i].postId in m[1..] {
    }
    forall i | i in MediaOf(db, head) ensures db.media[i].position <= MaxPosition(db, head) {
      assert db.media[i].position in PositionsAt(db, head);
    }
  }

  /** Each post that is left is that of an ungrouped message, or a group's head. */
  lemma LeftPost(db: Db, fed: set<Fed>, answers: Answers, rows: seq<int>, db': Db, p: int)
    requires Merging(db, fed, answers, rows, db') && IsRun(db, answers, rows, Met(db, answers, rows)) && p in db'.posts
    ensures Stands(db'.posts[p], fed)
    ensures FilesAt(db', p) == FedFiles(fed, PostKey(db'.posts[p])) && RowsDistinct(db', p)
  {
    var f := SinglePost(db, fed, p);
    GroupOfSingle(db, fed, answers, p, f);
    if f.msg.group.None? {
      SoloStays(db, fed, answers, rows, db', p, f);
    } else {
      var key := GroupKey(f.channel, f.msg.group.value);
      var m := Members(db, answers, rows, key);
      GroupMembers(db, fed, answers, rows, key, p);
      assert p in m && key in Sorting.Elements(Met(db, answers, rows));
      assert GroupFolded(db, db', m, key.group);
      assert p !in m[1..];
      assert p == m[0];
      HeadStands(db, fed, answers, rows, db', key);
      HeadFiles(db, fed, answers, rows, db', key);
      HeadRows(db, fed, answers, rows, db', key);
    }
  }

  lemma FedHasPost(db: Db, fed: set<Fed>, answers: Answers, rows: seq<int>, db': Db, f: Fed)
    requires Merging(db, fed, answers, rows, db') && IsRun(db, answers, rows, Met(db, answers, rows)) && f in fed
    ensures HasPost(db'.posts, KeyOf(f))
  {
    var p := SingleOf(db, fed, f);
    if f.msg.group.None? {
      SoloStays(db, fed, answers, rows, db', p, f);
      assert PostKey(db'.posts[p]) == KeyOf(f);
    } else {
      var key := GroupKey(f.channel, f.msg.group.value);
      GroupMembers(db, fed, answers, rows, key, p);
      HeadStands(db, fed, answers, rows, db', key);
    }
  }

  /** Merging a history that was stored message by message, with Telegram's true answers,
      goes through and gives tables that hold the same messages as the feeds would have:
      one post a group, with each of its files once. */
  lemma MergeHolds(db: Db, fed: set<Fed>, answers: Answers, rows: seq<int>)
    requires Singles(db, fed) && History(fed) && TrueAnswers(answers, fed) && Targets(db, rows)
    ensures var r := MergeRun(db, answers, rows, Met(db, answers, rows)); r.Some? && Holds(r.value, fed)
  {
    var db' := SinglesMerge(db, fed, answers, rows);
    forall p | p in db'.posts
      ensures Stands(db'.posts[p], fed)
      ensures FilesAt(db', p) == FedFiles(fed, PostKey(db'.posts[p])) && RowsDistinct(db', p)
    {
      LeftPost(db, fed, answers, rows, db', p);
    }
    forall f | f in fed ensures HasPost(db'.posts, KeyOf(f)) {
      FedHasPost(db, fed, answers, rows, db', f);
    }
  }

  /** So the feeds go on from there: old history merged, and then any feeds, ends with the
      posts and files of any run of feeds over the same messages. */
  lemma MergedThenFed(db: Db, fed: set<Fed>, answers: Answers, rows: seq<int>, h: set<Fed>, es: seq<Feed>,
      es': seq<Feed>)
    requires Singles(db, fed) && TrueAnswers(answers, fed) && Targets(db, rows)
    requires History(h) && fed <= h && (forall e | e in es :: FeedOf(e, h)) && (forall e | e in es' :: FeedOf(e, h))
    requires FedByAll(es') == fed + FedByAll(es)
    ensures var m := MergeRun(db, answers, rows, Met(db, answers, rows));
      && m.Some?
      && var r, r' := Replay(m.value, es), Replay(EMPTY, es');
      r.Stored? && r'.Stored? && SameContents(r.db, r'.db) && SameContents(r'.db, r.db)
  {
    assert History(fed);
    MergeHolds(db, fed, answers, rows);
    var merged := MergeRun(db, answers, rows, Met(db, answers, rows)).value;
    ReplayGoesOn(merged, fed, h, es);
    ReplayHolds(h, es');
    HoldersAgree(Replay(merged, es).db, Replay(EMPTY, es').db, FedByAll(es'));
    HoldersAgree(Replay(EMPTY, es').db, Replay(merged, es).db, FedByAll(es'));
  }

  // ---- a catch-up before the merge ------------------------------------------------------

  lemma NewPostBare(db: Db, post: PostStore.Post)
    requires Valid(db)
    ensures MediaOf(InsertPost(db, post), db.nextPost) == {} && FilesAt(InsertPost(db, post), db.nextPost) == {}
  {
    assert forall i | i in db.media :: db.media[i].postId < db.nextPost;
  }

  lemma NewAlbum(db: Db, post: PostStore.Post, rows: seq<Row>)
    requires Valid(db) && post.group.Some? && FilesDistinct(rows)
    requires GroupPosts(db, post.channel, post.group.value) == {} && MessagePosts(db, post.channel, post.msgId) == {}
    ensures Upsert(db, post, rows).Stored?
    ensures GroupPosts(Upsert(db, post, rows).db, post.channel, post.group.value) != {}
  {
    var with := InsertPost(db, post);
    NewPostBare(db, post);
    Inserted(with, db.nextPost, rows);
    assert db.nextPost in GroupPosts(Upsert(db, post, rows).db, post.channel, post.group.value);
  }

  lemma AlbumOfOne(db: Db, channel: int, group: int, m: Message)
    requires Valid(db) && m.group == Some(group)
    requires GroupPosts(db, channel, group) == {} && MessagePosts(db, channel, m.id) == {}
    ensures var r := RunJobs(db, BatchJobs(channel, [m]));
      && r.Stored? && Valid(r.db) && GroupPosts(r.db, channel, group) != {}
      && forall p | p in db.posts :: p in r.db.posts && r.db.posts[p] == db.posts[p]
  {
    var j := AlbumJob(channel, [m]);
    OneAlbumJob(channel, m);
    assert [j][..0] == [] && RunJobs(db, [j]) == Upsert(db, j.post, j.rows);
    AlbumFilesDistinct([m], 0);
    NewAlbum(db, j.post, j.rows);
    UpsertKeepsIndexes(db, j.post, j.rows);
    UpsertKeepsPosts(db, j.post, j.rows);
  }

  lemma OneAlbumJob(channel: int, m: Message)
    requires m.group.Some?
    ensures BatchJobs(channel, [m]) == [AlbumJob(channel, [m])]
    ensures NormalizeAlbum(channel, [m]) == (Post(channel, m.id, m.group, FirstCaption([m])), AlbumRows([m], 0))
  {
    var g := m.group.value;
    assert [m][..0] == [] && Split([]) == Buckets(Albums([], map[]), []);
    assert Split([m]) == Buckets(Albums([g], map[g := [m]]), []);
    SplitIsSplit([m]);
    assert [g][..0] == [] && AlbumJobs(channel, Albums([g], map[g := [m]]), [g]) == [AlbumJob(channel, [m])];
    assert [m][1..] == [] && Sorting.Sort([], ById) == [];
    assert SortById([m]) == Sorting.Insert(m, [], ById) == [m];
  }

  /** A boot that cannot go through: an album whose first message is an untagged post and
      whose next arrives by catch-up, which runs before the merge. The newcomer takes the
      tag, and the merge, told that the old post belongs to that group, stops. */
  lemma CatchUpStopsMerge(db: Db, channel: int, group: int, early: int, m: Message, answers: Answers, rows: seq<int>)
    requires Valid(db) && early in db.posts && db.posts[early].channel == channel && db.posts[early].group.None?
    requires GroupPosts(db, channel, group) == {} && m.group == Some(group) && MessagePosts(db, channel, m.id) == {}
    requires MessageRef(channel, db.posts[early].msgId) in answers
    requires answers[MessageRef(channel, db.posts[early].msgId)] == Some(group)
    requires Sorting.Distinct(rows) && early in rows && forall p | p in rows :: p in db.posts
    ensures var caught := RunJobs(db, BatchJobs(channel, [m]));
      && caught.Stored? && (forall p | p in rows :: p in caught.db.posts)
      && MergeRun(caught.db, answers, rows, Met(caught.db, answers, rows)) == None
  {
    AlbumOfOne(db, channel, group, m);
    var now := RunJobs(db, BatchJobs(channel, [m])).db;
    MetIsRun(now, answers, rows);
    var key := GroupKey(channel, group);
    MembersAre(now, answers, rows, key);
    assert early in Members(now, answers, rows, key);
    RunFolds(now, answers, rows, Met(now, answers, rows));
  }
}
