/** Replayed feeds converge: however they are cut, ordered and repeated, the tables end with
    one post per message or media group fed, holding each file of those messages once. */
module Convergence {
  import opened Prelude
  import opened PostStore
  import opened Ingest
  import Sorting

  /** A message of a channel. */
  datatype Fed = Fed(channel: int, msg: Message)

  /** What a post stands for: a single message, or a media group. */
  datatype Key = Solo(channel: int, id: int) | Group(channel: int, group: int)

  function KeyOf(f: Fed): Key {
    if f.msg.group.Some? then Group(f.channel, f.msg.group.value) else Solo(f.channel, f.msg.id)
  }

  function PostKey(p: Post): Key {
    if p.group.Some? then Group(p.channel, p.group.value) else Solo(p.channel, p.msgId)
  }

  function FedFiles(fed: set<Fed>, k: Key): set<Option<string>> {
    set f | f in fed && KeyOf(f) == k && FileOf(f.msg).Some? :: FileOf(f.msg)
  }

  function FedOf(channel: int, msgs: seq<Message>): set<Fed> {
    set m | m in msgs :: Fed(channel, m)
  }

  /** A fixed Telegram history: an id names one message of its channel, and no two
      messages of one media group carry the same file. */
  ghost predicate History(h: set<Fed>) {
    && (forall f, g | f in h && g in h && f.channel == g.channel && f.msg.id == g.msg.id :: f == g)
    && (forall f, g | f in h && g in h && KeyOf(f) == KeyOf(g) && FileOf(f.msg).Some?
      && FileOf(f.msg) == FileOf(g.msg) :: f == g)
  }

  /** The tables hold what was fed: each key has one post, the post shows the
      files fed for its key, each once and on a position of its own. */
  ghost predicate Holds(db: Db, fed: set<Fed>) {
    && Valid(db) && PostsStand(db.posts, fed) && AllFed(db.posts, fed) && FilesFed(db, fed)
  }

  ghost predicate PostsStand(posts: map<int, Post>, fed: set<Fed>) {
    forall p | p in posts :: Stands(posts[p], fed)
  }

  ghost predicate AllFed(posts: map<int, Post>, fed: set<Fed>) {
    forall f | f in fed :: HasPost(posts, KeyOf(f))
  }

  ghost predicate HasPost(posts: map<int, Post>, k: Key) {
    exists p :: p in posts && PostKey(posts[p]) == k
  }

  ghost predicate FilesFed(db: Db, fed: set<Fed>) {
    forall p | p in db.posts :: FilesAt(db, p) == FedFiles(fed, PostKey(db.posts[p])) && RowsDistinct(db, p)
  }

  ghost predicate Stands(p: Post, fed: set<Fed>) {
    exists f :: f in fed && KeyOf(f) == PostKey(p) && f.channel == p.channel && f.msg.id == p.msgId
  }

  // ---- rows of an album ---------------------------------------------------------

  function AlbumFiles(msgs: seq<Message>): set<Option<string>> {
    set m | m in msgs && FileOf(m).Some? :: FileOf(m)
  }

  predicate FilesApart(msgs: seq<Message>) {
    forall i, j | 0 <= i < j < |msgs| :: FileOf(msgs[i]).Some? ==> FileOf(msgs[i]) != FileOf(msgs[j])
  }

  lemma {:induction false} RowsOfAlbum(msgs: seq<Message>, from: nat)
    ensures var rows := AlbumRows(msgs, from);
      && Increasing(rows) && (forall k | 0 <= k < |rows| :: rows[k].position >= from)
      && RowFiles(rows) == AlbumFiles(msgs)
  {
    var rows := AlbumRows(msgs, from);
    if msgs != [] {
      var tail := AlbumRows(msgs[1..], from + 1);
      RowsOfAlbum(msgs[1..], from + 1);
      assert msgs == [msgs[0]] + msgs[1..];
      assert AlbumFiles(msgs) == AlbumFiles(msgs[1..]) + (if FileOf(msgs[0]).Some? then {FileOf(msgs[0])} else {});
      if FileOf(msgs[0]).Some? {
        assert rows[1..] == tail;
        SplitRowFiles(rows);
      } else {
        assert rows == tail;
      }
    }
  }

  lemma {:induction false} AlbumFilesDistinct(msgs: seq<Message>, from: nat)
    requires FilesApart(msgs)
    ensures FilesDistinct(AlbumRows(msgs, from))
  {
    var rows := AlbumRows(msgs, from);
    if msgs != [] {
      var tail := AlbumRows(msgs[1..], from + 1);
      AlbumFilesDistinct(msgs[1..], from + 1);
      if FileOf(msgs[0]).Some? {
        RowsOfAlbum(msgs[1..], from + 1);
        assert rows[1..] == tail;
        FilesDistinctTail(rows);
        assert forall j | 0 <= j < |msgs| - 1 :: msgs[1..][j] == msgs[j + 1];
      } else {
        assert rows == tail;
      }
    }
  }

  lemma {:induction false} MissingRows(rows: seq<Row>, present: set<Option<string>>)
    ensures RowFiles(Missing(rows, present)) == RowFiles(rows) - present
    ensures FilesDistinct(rows) ==> FilesDistinct(Missing(rows, present))
  {
    if rows != [] {
      MissingRows(rows[1..], present);
      SplitRowFiles(rows);
      FilesDistinctTail(rows);
      var missing := Missing(rows, present);
      if rows[0].file !in present {
        assert missing[1..] == Missing(rows[1..], present);
        SplitRowFiles(missing);
        FilesDistinctTail(missing);
      } else {
        assert missing == Missing(rows[1..], present);
      }
    }
  }

  lemma RenumberedRows(rows: seq<Row>, from: int)
    ensures RowFiles(Renumber(rows, from)) == RowFiles(rows)
    ensures FilesDistinct(rows) <==> FilesDistinct(Renumber(rows, from))
    ensures Increasing(Renumber(rows, from))
  {
    var r := Renumber(rows, from);
    forall k | 0 <= k < |rows| ensures rows[k].file in RowFiles(r) && r[k].file in RowFiles(rows) {
      assert r[k].file == rows[k].file;
    }
  }

  // ---- one upsert ---------------------------------------------------------------

  lemma OtherMedia(db: Db, p: int, rows: seq<Row>, db': Db, q: int)
    requires RowsAdded(db, p, rows, db') && q != p
    ensures FilesAt(db', q) == FilesAt(db, q) && (RowsDistinct(db, q) ==> RowsDistinct(db', q))
  {
    forall i ensures i in MediaOf(db', q) <==> i in MediaOf(db, q) {
      if i in MediaOf(db', q) {
        assert i in db'.media && db'.media[i].postId == q;
        assert i in db.media;
      }
    }
    assert MediaOf(db', q) == MediaOf(db, q);
  }

  lemma MoreFedFiles(fed: set<Fed>, more: set<Fed>, k: Key)
    ensures FedFiles(fed + more, k) == FedFiles(fed, k) + FedFiles(more, k)
  {
  }

  lemma PostsHold(posts: map<int, Post>, fed: set<Fed>, more: set<Fed>, p: int)
    requires PostsStand(posts, fed) && AllFed(posts, fed) && p in posts
    requires forall f | f in more :: KeyOf(f) == PostKey(posts[p])
    ensures PostsStand(posts, fed + more) && AllFed(posts, fed + more)
  {
    forall q | q in posts ensures Stands(posts[q], fed + more) {
      assert Stands(posts[q], fed);
    }
  }

  lemma FilesHold(db: Db, fed: set<Fed>, more: set<Fed>, p: int, rows: seq<Row>, db': Db)
    requires Valid(db) && FilesFed(db, fed) && p in db.posts && RowsAdded(db, p, rows, db') && RowsDistinct(db', p)
    requires forall f | f in more :: KeyOf(f) == PostKey(db.posts[p])
    requires FilesAt(db', p) == FilesAt(db, p) + FedFiles(more, PostKey(db.posts[p]))
    ensures FilesFed(db', fed + more)
  {
    forall q | q in db'.posts
      ensures FilesAt(db', q) == FedFiles(fed + more, PostKey(db'.posts[q])) && RowsDistinct(db', q)
    {
      MoreFedFiles(fed, more, PostKey(db.posts[q]));
      if q != p {
        OtherMedia(db, p, rows, db', q);
        OneKeyEach(db, p, q);
        assert FedFiles(more, PostKey(db.posts[q])) == {};
      }
    }
  }

  /** Appending to the group's post: no file twice, however the album was cut. */
  lemma AppendHolds(db: Db, fed: set<Fed>, more: set<Fed>, p: int, rows: seq<Row>)
    requires Holds(db, fed) && p in db.posts && FilesDistinct(rows)
    requires forall f | f in more :: KeyOf(f) == PostKey(db.posts[p])
    requires RowFiles(rows) == FedFiles(more, PostKey(db.posts[p]))
    ensures var r := AppendMedia(db, p, rows); r.Stored? && r.postId == Some(p) && Holds(r.db, fed + more)
  {
    var numbered := Renumber(Missing(rows, FilesAt(db, p)), MaxPosition(db, p) + 1);
    NumberedRows(db, p, rows);
    Inserted(db, p, numbered);
    var db' := InsertRows(db, p, numbered).value;
    InsertedDistinct(db, p, numbered);
    InsertRowsKeepsFiles(db, p, numbered);
    PostsHold(db.posts, fed, more, p);
    FilesHold(db, fed, more, p, numbered, db');
  }

  /** The rows an append inserts: the files not on the post yet, above its positions. */
  lemma NumberedRows(db: Db, p: int, rows: seq<Row>)
    ensures var numbered := Renumber(Missing(rows, FilesAt(db, p)), MaxPosition(db, p) + 1);
      && RowFiles(numbered) == RowFiles(rows) - FilesAt(db, p)
      && Increasing(numbered) && (FilesDistinct(rows) ==> FilesDistinct(numbered))
      && (forall k | 0 <= k < |numbered| :: !FileTaken(db, p, numbered[k].file))
      && (forall k, x | 0 <= k < |numbered| && x in PositionsAt(db, p) :: x < numbered[k].position)
  {
    var missing := Missing(rows, FilesAt(db, p));
    var numbered := Renumber(missing, MaxPosition(db, p) + 1);
    MissingRows(rows, FilesAt(db, p));
    RenumberedRows(missing, MaxPosition(db, p) + 1);
    forall k | 0 <= k < |numbered| ensures !FileTaken(db, p, numbered[k].file) {
      assert numbered[k].file in RowFiles(numbered);
    }
  }

  lemma OneKeyEach(db: Db, p: int, q: int)
    requires Valid(db) && p in db.posts && q in db.posts && p != q
    ensures PostKey(db.posts[p]) != PostKey(db.posts[q])
  {
    var b := db.posts[q];
    assert !AtMessage(db.posts[p], b.channel, b.msgId);
    assert b.group.Some? ==> !InGroup(db.posts[p], b.channel, b.group.value);
  }

  /** An upsert is rolled back exactly when two of the rows it inserts carry one
      file: files already on the group's post are dropped first, files repeated
      inside the batch are not. */
  lemma UpsertFailsOnRepeatedFile(db: Db, post: Post, rows: seq<Row>)
    requires Valid(db)
    ensures Upsert(db, post, rows).Violation? <==>
      if post.group.Some? && GroupPosts(db, post.channel, post.group.value) != {} then
        !FilesDistinct(Missing(rows, FilesAt(db, Any(GroupPosts(db, post.channel, post.group.value)))))
      else
        MessagePosts(db, post.channel, post.msgId) == {} && !FilesDistinct(rows)
  {
    if post.group.Some? && GroupPosts(db, post.channel, post.group.value) != {} {
      var p := Any(GroupPosts(db, post.channel, post.group.value));
      var missing := Missing(rows, FilesAt(db, p));
      RenumberedRows(missing, MaxPosition(db, p) + 1);
      NumberedRows(db, p, rows);
      Inserted(db, p, Renumber(missing, MaxPosition(db, p) + 1));
    } else {
      var p, db1 := db.nextPost, InsertPost(db, post);
      assert forall i | i in db.media :: db.media[i].postId in db.posts;
      assert MediaOf(db1, p) == {};
      Inserted(db1, p, rows);
    }
  }

  // ---- one job --------------------------------------------------------------------

  /** Two messages of one album that carry the same photo: the album's upsert is rolled
      back, on tables where the group and the message are new. */
  lemma RepeatedPhotoFails(db: Db, channel: int, group: int, photo: string, a: int, b: int)
    requires Valid(db) && a < b
    requires GroupPosts(db, channel, group) == {} && MessagePosts(db, channel, a) == {}
    ensures var m := (id: int) => Message(id, Some(group), None, Some(photo), None, None);
      var (post, rows) := NormalizeAlbum(channel, [m(a), m(b)]);
      Upsert(db, post, rows).Violation?
  {
    var first, second := Message(a, Some(group), None, Some(photo), None, None),
      Message(b, Some(group), None, Some(photo), None, None);
    var msgs := [first, second];
    var (post, rows) := NormalizeAlbum(channel, msgs);
    assert msgs[1..] == [second] && [second][1..] == [];
    assert Sorting.Sort([second], ById) == [second];
    assert SortById(msgs) == msgs;
    assert AlbumRows([second], 1) == [Row(Some(photo), 1)];
    assert rows == [Row(Some(photo), 0), Row(Some(photo), 1)];
    assert rows[0].file == rows[1].file && !FilesDistinct(rows);
    UpsertFailsOnRepeatedFile(db, post, rows);
  }

  lemma CreateHolds(db: Db, fed: set<Fed>, more: set<Fed>, post: Post, rows: seq<Row>)
    requires Holds(db, fed) && !HasPost(db.posts, PostKey(post)) && MessagePosts(db, post.channel, post.msgId) == {}
    requires FilesDistinct(rows) && Increasing(rows) && Stands(post, more)
    requires forall f | f in more :: KeyOf(f) == PostKey(post)
    requires RowFiles(rows) == FedFiles(more, PostKey(post))
    ensures var r := CreatePost(db, post, rows); r.Stored? && r.postId.Some? && Holds(r.db, fed + more)
  {
    var p, db1 := db.nextPost, InsertPost(db, post);
    assert forall i | i in db.media :: db.media[i].postId in db.posts;
    assert MediaOf(db1, p) == {};
    CreatedPostHolds(db, fed, more, post);
    Inserted(db1, p, rows);
    InsertedDistinct(db1, p, rows);
    InsertRowsKeepsFiles(db1, p, rows);
    FilesHold(db1, fed, more, p, rows, InsertRows(db1, p, rows).value);
  }

  lemma CreatedPostHolds(db: Db, fed: set<Fed>, more: set<Fed>, post: Post)
    requires Holds(db, fed) && !HasPost(db.posts, PostKey(post)) && MessagePosts(db, post.channel, post.msgId) == {}
    requires Stands(post, more) && forall f | f in more :: KeyOf(f) == PostKey(post)
    ensures var db1 := InsertPost(db, post);
      Valid(db1) && PostsStand(db1.posts, fed + more) && AllFed(db1.posts, fed + more) && FilesFed(db1, fed)
  {
    var p, db1 := db.nextPost, InsertPost(db, post);
    CreatedIndexes(db, post);
    forall q | q in db.posts ensures Stands(db1.posts[q], fed + more) {
      assert Stands(db.posts[q], fed);
    }
    forall f | f in fed + more ensures HasPost(db1.posts, KeyOf(f)) {
      if f in more {
        assert PostKey(db1.posts[p]) == KeyOf(f);
      } else {
        assert HasPost(db.posts, KeyOf(f));
        var q :| q in db.posts && PostKey(db.posts[q]) == KeyOf(f);
        assert PostKey(db1.posts[q]) == KeyOf(f);
      }
    }
    CreatedFiles(db, fed, post);
  }

  lemma CreatedIndexes(db: Db, post: Post)
    requires Valid(db) && !HasPost(db.posts, PostKey(post)) && MessagePosts(db, post.channel, post.msgId) == {}
    ensures Valid(InsertPost(db, post))
  {
    forall q | q in db.posts
      ensures !AtMessage(db.posts[q], post.channel, post.msgId)
      ensures post.group.Some? ==> !InGroup(db.posts[q], post.channel, post.group.value)
    {
      assert AtMessage(db.posts[q], post.channel, post.msgId) ==> q in MessagePosts(db, post.channel, post.msgId);
      assert PostKey(db.posts[q]) != PostKey(post);
    }
  }

  lemma CreatedFiles(db: Db, fed: set<Fed>, post: Post)
    requires IdsFresh(db) && (forall i | i in db.media :: db.media[i].postId in db.posts)
    requires AllFed(db.posts, fed) && FilesFed(db, fed) && !HasPost(db.posts, PostKey(post))
    ensures FilesFed(InsertPost(db, post), fed)
  {
    var p, db1 := db.nextPost, InsertPost(db, post);
    assert FedFiles(fed, PostKey(post)) == {};
    forall q | q in db1.posts
      ensures FilesAt(db1, q) == FedFiles(fed, PostKey(db1.posts[q])) && RowsDistinct(db1, q)
    {
      assert forall i | i in db.media :: db.media[i].postId != p;
      assert MediaOf(db1, q) == MediaOf(db, q);
    }
  }

  lemma SoloHolds(db: Db, fed: set<Fed>, h: set<Fed>, channel: int, m: Message)
    requires Holds(db, fed) && History(h) && fed <= h && Fed(channel, m) in h && m.group.None?
    ensures var j := SoloJob(channel, m); var r := Upsert(db, j.post, j.rows);
      r.Stored? && Holds(r.db, fed + {Fed(channel, m)})
  {
    var f, j := Fed(channel, m), SoloJob(channel, m);
    if MessagePosts(db, channel, m.id) != {} {
      var q := Any(MessagePosts(db, channel, m.id));
      assert Stands(db.posts[q], fed);
      assert f in fed;
      assert fed + {f} == fed;
    } else {
      assert Stands(j.post, {f});
      assert forall q | q in db.posts ::
        PostKey(db.posts[q]) == PostKey(j.post) ==> q in MessagePosts(db, channel, m.id);
      RowsOfAlbum([m], 0);
      AlbumFilesDistinct([m], 0);
      assert AlbumFiles([m]) == FedFiles({f}, KeyOf(f));
      CreateHolds(db, fed, {f}, j.post, j.rows);
    }
  }

  lemma AlbumHolds(db: Db, fed: set<Fed>, h: set<Fed>, channel: int, group: int, msgs: seq<Message>)
    requires Holds(db, fed) && History(h) && fed <= h && FedOf(channel, msgs) <= h
    requires msgs != [] && DistinctIds(msgs) && forall m | m in msgs :: m.group == Some(group)
    ensures var j := AlbumJob(channel, msgs); var r := Upsert(db, j.post, j.rows);
      r.Stored? && Holds(r.db, fed + FedOf(channel, msgs))
  {
    var j, more := AlbumJob(channel, msgs), FedOf(channel, msgs);
    AlbumJobRows(h, channel, group, msgs);
    if GroupPosts(db, channel, group) != {} {
      AppendHolds(db, fed, more, Any(GroupPosts(db, channel, group)), j.rows);
    } else {
      assert forall q | q in db.posts ::
        PostKey(db.posts[q]) == PostKey(j.post) ==> q in GroupPosts(db, channel, group);
      forall q | q in db.posts ensures !AtMessage(db.posts[q], channel, j.post.msgId) {
        assert Stands(db.posts[q], fed);
      }
      CreateHolds(db, fed, more, j.post, j.rows);
    }
  }

  lemma AlbumJobRows(h: set<Fed>, channel: int, group: int, msgs: seq<Message>)
    requires History(h) && FedOf(channel, msgs) <= h
    requires msgs != [] && DistinctIds(msgs) && forall m | m in msgs :: m.group == Some(group)
    ensures var j := AlbumJob(channel, msgs);
      && PostKey(j.post) == Group(channel, group) && Stands(j.post, FedOf(channel, msgs))
      && (forall f | f in FedOf(channel, msgs) :: KeyOf(f) == Group(channel, group))
      && FilesDistinct(j.rows) && Increasing(j.rows)
      && RowFiles(j.rows) == FedFiles(FedOf(channel, msgs), Group(channel, group))
  {
    var j, ordered := AlbumJob(channel, msgs), SortById(msgs);
    SortedById(msgs);
    SortedDistinct(msgs);
    assert Fed(channel, ordered[0]) in FedOf(channel, msgs);
    forall i, k | 0 <= i < k < |ordered| && FileOf(ordered[i]).Some?
      ensures FileOf(ordered[i]) != FileOf(ordered[k])
    {
      assert Fed(channel, ordered[i]) in h && Fed(channel, ordered[k]) in h;
    }
    RowsOfAlbum(ordered, 0);
    AlbumFilesDistinct(ordered, 0);
    forall x ensures x in AlbumFiles(ordered) <==> x in FedFiles(FedOf(channel, msgs), Group(channel, group)) {
      if x in AlbumFiles(ordered) {
        var m :| m in ordered && FileOf(m) == x;
        assert Fed(channel, m) in FedOf(channel, msgs);
      }
    }
  }

  lemma SortedDistinct(msgs: seq<Message>)
    requires DistinctIds(msgs)
    ensures Sorting.Distinct(SortById(msgs))
  {
    Sorting.SortDistinct(msgs, ById);
  }

  // ---- batches and runs -------------------------------------------------------------

  lemma {:induction false} AlbumJobsHold(db: Db, fed: set<Fed>, h: set<Fed>, channel: int, msgs: seq<Message>,
      albums: Albums, order: seq<int>)
    returns (more: set<Fed>)
    requires Holds(db, fed) && History(h) && fed <= h && FedOf(channel, msgs) <= h && DistinctIds(msgs)
    requires forall g | g in order :: g in albums.of && albums.of[g] != [] && albums.of[g] == OfGroup(msgs, Some(g))
    ensures var r := RunJobs(db, AlbumJobs(channel, albums, order)); r.Stored? && Holds(r.db, fed + more)
    ensures forall f :: f in more <==> f in FedOf(channel, msgs) && f.msg.group.Some? && f.msg.group.value in order
  {
    more := {};
    if order == [] {
      assert fed + more == fed;
    } else {
      var front, g := order[..|order| - 1], order[|order| - 1];
      assert order == front + [g];
      var album := albums.of[g];
      var before := AlbumJobsHold(db, fed, h, channel, msgs, albums, front);
      OfGroupAll(channel, msgs, g);
      var jobs := AlbumJobs(channel, albums, order);
      assert jobs[..|jobs| - 1] == AlbumJobs(channel, albums, front);
      AlbumHolds(RunJobs(db, jobs[..|jobs| - 1]).db, fed + before, h, channel, g, album);
      more := before + FedOf(channel, album);
      assert fed + before + FedOf(channel, album) == fed + more;
    }
  }

  lemma OfGroupAll(channel: int, msgs: seq<Message>, g: int)
    ensures forall m | m in OfGroup(msgs, Some(g)) :: m.group == Some(g)
    ensures forall f ::
      f in FedOf(channel, OfGroup(msgs, Some(g))) <==> f in FedOf(channel, msgs) && f.msg.group == Some(g)
    ensures DistinctIds(msgs) ==> DistinctIds(OfGroup(msgs, Some(g)))
  {
    forall m ensures m in OfGroup(msgs, Some(g)) <==> m in msgs && m.group == Some(g) {
      OfGroupMembers(msgs, Some(g), m);
    }
    OfGroupDistinct(msgs, Some(g));
  }

  lemma OfGroupDistinct(msgs: seq<Message>, group: Option<int>)
    ensures DistinctIds(msgs) ==> DistinctIds(OfGroup(msgs, group))
  {
    if msgs != [] {
      OfGroupMembers(msgs, group, msgs[0]);
    }
  }

  lemma {:induction false} SoloJobsHold(db: Db, fed: set<Fed>, h: set<Fed>, channel: int, solos: seq<Message>,
      jobs: seq<Job>)
    requires RunJobs(db, jobs).Stored? && Holds(RunJobs(db, jobs).db, fed)
    requires History(h) && fed <= h && FedOf(channel, solos) <= h
    requires forall m | m in solos :: m.group.None?
    ensures var r := RunJobs(db, jobs + SoloJobs(channel, solos)); r.Stored? && Holds(r.db, fed + FedOf(channel, solos))
  {
    if solos == [] {
      assert jobs + SoloJobs(channel, solos) == jobs;
      assert fed + FedOf(channel, solos) == fed;
    } else {
      var front, m := solos[..|solos| - 1], solos[|solos| - 1];
      assert solos == front + [m];
      SoloJobsHold(db, fed, h, channel, front, jobs);
      MoreJobs(db, jobs + SoloJobs(channel, front), SoloJob(channel, m));
      SoloHolds(RunJobs(db, jobs + SoloJobs(channel, front)).db, fed + FedOf(channel, front), h, channel, m);
      assert jobs + SoloJobs(channel, solos) == jobs + SoloJobs(channel, front) + [SoloJob(channel, m)];
      assert fed + FedOf(channel, front) + {Fed(channel, m)} == fed + FedOf(channel, solos);
    }
  }

  lemma MoreJobs(db: Db, jobs: seq<Job>, j: Job)
    requires RunJobs(db, jobs).Stored?
    ensures RunJobs(db, jobs + [j]) == Upsert(RunJobs(db, jobs).db, j.post, j.rows)
  {
    assert (jobs + [j])[..|jobs|] == jobs;
  }

  lemma SolosAre(msgs: seq<Message>, b: Buckets)
    requires IsSplit(msgs, b.albums, b.solos)
    ensures forall m :: m in b.solos <==> m in msgs && m.group == None
  {
    forall m ensures m in b.solos <==> m in msgs && m.group == None {
      OfGroupMembers(msgs, None, m);
    }
  }

  lemma PartsAreAll(channel: int, msgs: seq<Message>, b: Buckets, albumFed: set<Fed>)
    requires IsSplit(msgs, b.albums, b.solos)
    requires forall f ::
      f in albumFed <==> f in FedOf(channel, msgs) && f.msg.group.Some? && f.msg.group.value in b.albums.order
    ensures albumFed + FedOf(channel, b.solos) == FedOf(channel, msgs)
  {
    SolosAre(msgs, b);
    forall f | f in FedOf(channel, msgs) ensures f in albumFed + FedOf(channel, b.solos) {
      var m :| m in msgs && f == Fed(channel, m);
      if m.group.None? {
        assert m in b.solos;
        assert f in FedOf(channel, b.solos);
      } else {
        var g := m.group.value;
        assert g in b.albums.of;
        assert g in b.albums.order;
      }
    }
    forall f | f in FedOf(channel, b.solos) ensures f in FedOf(channel, msgs) {
      assert f.msg in b.solos;
    }
  }

  /** A batch of a history is ingested without error, and the tables then hold what
      they held and the batch. */
  lemma BatchHolds(db: Db, fed: set<Fed>, h: set<Fed>, channel: int, msgs: seq<Message>)
    requires Holds(db, fed) && History(h) && fed <= h && FedOf(channel, msgs) <= h && DistinctIds(msgs)
    ensures var r := RunJobs(db, BatchJobs(channel, msgs)); r.Stored? && Holds(r.db, fed + FedOf(channel, msgs))
  {
    var b := Split(msgs);
    SplitIsSplit(msgs);
    var albumFed := AlbumJobsHold(db, fed, h, channel, msgs, b.albums, b.albums.order);
    SolosAre(msgs, b);
    SoloJobsHold(db, fed + albumFed, h, channel, b.solos, AlbumJobs(channel, b.albums, b.albums.order));
    PartsAreAll(channel, msgs, b, albumFed);
    assert fed + albumFed + FedOf(channel, b.solos) == fed + FedOf(channel, msgs);
  }

  // ---- the first jobs of a batch ----------------------------------------------------

  function Cut(n: nat, k: nat): nat { if k < n then k else n }

  /** The albums and the solos whose jobs are among the first `k`. */
  function FirstAlbums(b: Buckets, k: nat): seq<int> { b.albums.order[..Cut(|b.albums.order|, k)] }

  function FirstSolos(b: Buckets, k: nat): seq<Message> {
    b.solos[..Cut(|b.solos|, k - Cut(|b.albums.order|, k))]
  }

  function AlbumsFed(channel: int, msgs: seq<Message>, groups: seq<int>): set<Fed> {
    set m | m in msgs && m.group.Some? && m.group.value in groups :: Fed(channel, m)
  }

  /** The messages that the first `k` jobs of a batch store. */
  function Committed(channel: int, msgs: seq<Message>, k: nat): set<Fed> {
    AlbumsFed(channel, msgs, FirstAlbums(Split(msgs), k)) + FedOf(channel, FirstSolos(Split(msgs), k))
  }

  lemma SliceJoined<T>(a: seq<T>, b: seq<T>, k: nat)
    requires k <= |a| + |b|
    ensures (a + b)[..k] == a[..Cut(|a|, k)] + b[..Cut(|b|, k - Cut(|a|, k))]
  {
  }

  lemma {:induction false} AlbumJobsPrefix(channel: int, albums: Albums, order: seq<int>, k: nat)
    requires (forall g | g in order :: g in albums.of && albums.of[g] != []) && k <= |order|
    ensures |AlbumJobs(channel, albums, order)| == |order|
    ensures (forall g | g in order[..k] :: g in albums.of && albums.of[g] != [])
    ensures AlbumJobs(channel, albums, order)[..k] == AlbumJobs(channel, albums, order[..k])
    decreases |order|
  {
    if order != [] {
      var front := order[..|order| - 1];
      AlbumJobsPrefix(channel, albums, front, Cut(|front|, k));
      if k == |order| {
        assert order[..k] == order;
      } else {
        assert front[..k] == order[..k];
      }
    }
  }

  lemma {:induction false} SoloJobsPrefix(channel: int, solos: seq<Message>, k: nat)
    requires k <= |solos|
    ensures |SoloJobs(channel, solos)| == |solos|
    ensures SoloJobs(channel, solos)[..k] == SoloJobs(channel, solos[..k])
    decreases |solos|
  {
    if solos != [] {
      var front := solos[..|solos| - 1];
      SoloJobsPrefix(channel, front, Cut(|front|, k));
      if k == |solos| {
        assert solos[..k] == solos;
      } else {
        assert front[..k] == solos[..k];
      }
    }
  }

  lemma FirstAlbumsIn(msgs: seq<Message>, k: nat)
    ensures var b := Split(msgs); forall g | g in FirstAlbums(b, k) ::
      g in b.albums.order && g in b.albums.of && b.albums.of[g] != [] && b.albums.of[g] == OfGroup(msgs, Some(g))
  {
    SplitIsSplit(msgs);
  }

  lemma PrefixJobs(channel: int, msgs: seq<Message>, k: nat)
    requires k <= |BatchJobs(channel, msgs)|
    ensures var b := Split(msgs);
      && (forall g | g in FirstAlbums(b, k) :: g in b.albums.of && b.albums.of[g] != [])
      && BatchJobs(channel, msgs)[..k]
        == AlbumJobs(channel, b.albums, FirstAlbums(b, k)) + SoloJobs(channel, FirstSolos(b, k))
  {
    var b := Split(msgs);
    SplitIsSplit(msgs);
    FirstAlbumsIn(msgs, k);
    AlbumJobsPrefix(channel, b.albums, b.albums.order, Cut(|b.albums.order|, k));
    SoloJobsPrefix(channel, b.solos, Cut(|b.solos|, k - Cut(|b.albums.order|, k)));
    SliceJoined(AlbumJobs(channel, b.albums, b.albums.order), SoloJobs(channel, b.solos), k);
  }

  lemma FirstSolosIn(channel: int, msgs: seq<Message>, k: nat)
    ensures var solos := FirstSolos(Split(msgs), k);
      (forall m | m in solos :: m in msgs && m.group.None?) && FedOf(channel, solos) <= FedOf(channel, msgs)
  {
    var b := Split(msgs);
    SplitIsSplit(msgs);
    SolosAre(msgs, b);
    assert forall m | m in FirstSolos(b, k) :: m in b.solos;
  }

  /** Any number of a batch's first jobs commit, and the tables then hold what they
      held and the messages of those jobs. */
  lemma PrefixHolds(db: Db, fed: set<Fed>, h: set<Fed>, channel: int, msgs: seq<Message>, k: nat)
    requires Holds(db, fed) && History(h) && fed <= h && FedOf(channel, msgs) <= h && DistinctIds(msgs)
    requires k <= |BatchJobs(channel, msgs)|
    ensures var r := RunJobs(db, BatchJobs(channel, msgs)[..k]);
      r.Stored? && Holds(r.db, fed + Committed(channel, msgs, k))
    ensures Committed(channel, msgs, k) <= FedOf(channel, msgs)
  {
    var b := Split(msgs);
    var order, solos := FirstAlbums(b, k), FirstSolos(b, k);
    FirstAlbumsIn(msgs, k);
    PrefixJobs(channel, msgs, k);
    FirstSolosIn(channel, msgs, k);
    var albumFed := AlbumJobsHold(db, fed, h, channel, msgs, b.albums, order);
    SameAlbumsFed(channel, msgs, order, albumFed);
    SoloJobsHold(db, fed + albumFed, h, channel, solos, AlbumJobs(channel, b.albums, order));
    assert fed + albumFed + FedOf(channel, solos) == fed + Committed(channel, msgs, k);
  }

  lemma SameAlbumsFed(channel: int, msgs: seq<Message>, groups: seq<int>, fed: set<Fed>)
    requires forall f :: f in fed <==> f in FedOf(channel, msgs) && f.msg.group.Some? && f.msg.group.value in groups
    ensures fed == AlbumsFed(channel, msgs, groups) && fed <= FedOf(channel, msgs)
  {
  }

  lemma AllCommitted(channel: int, msgs: seq<Message>)
    ensures Committed(channel, msgs, |BatchJobs(channel, msgs)|) == FedOf(channel, msgs)
  {
    var b := Split(msgs);
    SplitIsSplit(msgs);
    AlbumJobsPrefix(channel, b.albums, b.albums.order, 0);
    SoloJobsPrefix(channel, b.solos, 0);
    assert b.albums.order[..|b.albums.order|] == b.albums.order && b.solos[..|b.solos|] == b.solos;
    var albumFed := AlbumsFed(channel, msgs, b.albums.order);
    forall f ensures f in albumFed
      <==> f in FedOf(channel, msgs) && f.msg.group.Some? && f.msg.group.value in b.albums.order {
    }
    PartsAreAll(channel, msgs, b, albumFed);
  }

  /** What a feed hands over: a fetched batch, a live album event, or a live
      message, which is skipped when it belongs to a group. */
  datatype Feed =
    | Batch(channel: int, msgs: seq<Message>)
    | LiveAlbum(channel: int, msgs: seq<Message>)
    | LiveMessage(channel: int, msg: Message)

  function FeedJobs(e: Feed): seq<Job> {
    match e
    case Batch(c, msgs) => BatchJobs(c, msgs)
    case LiveAlbum(c, msgs) => if msgs == [] then [] else [AlbumJob(c, msgs)]
    case LiveMessage(c, m) => if m.group.Some? then [] else [SoloJob(c, m)]
  }

  function FedBy(e: Feed): set<Fed> {
    match e
    case Batch(c, msgs) => FedOf(c, msgs)
    case LiveAlbum(c, msgs) => FedOf(c, msgs)
    case LiveMessage(c, m) => if m.group.Some? then {} else {Fed(c, m)}
  }

  /** The messages of a feed come from the history, each at most once; an album
      event carries messages of one group. */
  ghost predicate FeedOf(e: Feed, h: set<Fed>) {
    && FedBy(e) <= h
    && (e.Batch? ==> DistinctIds(e.msgs))
    && (e.LiveAlbum? ==> DistinctIds(e.msgs) && exists g :: forall m | m in e.msgs :: m.group == Some(g))
  }

  function FedByAll(es: seq<Feed>): set<Fed> {
    if es == [] then {} else FedByAll(es[..|es| - 1]) + FedBy(es[|es| - 1])
  }

  ghost function Replay(db: Db, es: seq<Feed>): Outcome {
    if es == [] then Stored(None, db)
    else
      var r := Replay(db, es[..|es| - 1]);
      if r.Violation? then Violation else RunJobs(r.db, FeedJobs(es[|es| - 1]))
  }

  lemma FeedHolds(db: Db, fed: set<Fed>, h: set<Fed>, e: Feed)
    requires Holds(db, fed) && History(h) && fed <= h && FeedOf(e, h)
    ensures var r := RunJobs(db, FeedJobs(e)); r.Stored? && Holds(r.db, fed + FedBy(e))
  {
    if e.Batch? {
      BatchHolds(db, fed, h, e.channel, e.msgs);
    } else if FeedJobs(e) == [] {
      assert fed + FedBy(e) == fed;
    } else {
      assert RunJobs(db, FeedJobs(e)[..0]) == Stored(None, db);
      if e.LiveAlbum? {
        var g :| forall m | m in e.msgs :: m.group == Some(g);
        AlbumHolds(db, fed, h, e.channel, g, e.msgs);
      } else {
        SoloHolds(db, fed, h, e.channel, e.msg);
      }
    }
  }

  /** Any run of the feeds, in any order, chunking and repetition, ends with
      exactly one post per message or group fed, each file of the messages fed on
      it exactly once, on positions of their own. */
  lemma ReplayHolds(h: set<Fed>, es: seq<Feed>)
    requires History(h) && forall e | e in es :: FeedOf(e, h)
    ensures var r := Replay(EMPTY, es); r.Stored? && Holds(r.db, FedByAll(es))
    ensures FedByAll(es) <= h
  {
    assert Holds(EMPTY, {});
    ReplayGoesOn(EMPTY, {}, h, es);
    assert {} + FedByAll(es) == FedByAll(es);
  }

  /** So does any run of them on tables that hold part of the history. */
  lemma {:induction false} ReplayGoesOn(db: Db, fed: set<Fed>, h: set<Fed>, es: seq<Feed>)
    requires Holds(db, fed) && History(h) && fed <= h && forall e | e in es :: FeedOf(e, h)
    ensures var r := Replay(db, es); r.Stored? && Holds(r.db, fed + FedByAll(es))
    ensures FedByAll(es) <= h
  {
    if es == [] {
      assert fed + {} == fed;
    } else {
      var front, e := es[..|es| - 1], es[|es| - 1];
      ReplayGoesOn(db, fed, h, front);
      FeedHolds(Replay(db, front).db, fed + FedByAll(front), h, e);
      assert fed + FedByAll(front) + FedBy(e) == fed + FedByAll(es);
    }
  }

  /** Same keys, and under each key as many rows with the same files. */
  ghost predicate SameContents(a: Db, b: Db) {
    forall p | p in a.posts :: exists q :: q in b.posts && PostKey(b.posts[q]) == PostKey(a.posts[p])
                                           && FilesAt(b, q) == FilesAt(a, p) && |MediaOf(b, q)| == |MediaOf(a, p)|
  }

  lemma HoldersAgree(a: Db, b: Db, fed: set<Fed>)
    requires Holds(a, fed) && Holds(b, fed)
    ensures SameContents(a, b)
  {
    forall p | p in a.posts
      ensures exists q :: q in b.posts && PostKey(b.posts[q]) == PostKey(a.posts[p])
                          && FilesAt(b, q) == FilesAt(a, p) && |MediaOf(b, q)| == |MediaOf(a, p)|
    {
      assert Stands(a.posts[p], fed);
      assert HasPost(b.posts, PostKey(a.posts[p]));
      var q :| q in b.posts && PostKey(b.posts[q]) == PostKey(a.posts[p]);
      OneRowPerFile(a, p, fed);
      OneRowPerFile(b, q, fed);
    }
  }

  /** Two runs that fed the same messages agree: same posts, same files. */
  lemma ReplaysConverge(h: set<Fed>, es: seq<Feed>, es': seq<Feed>)
    requires History(h) && (forall e | e in es :: FeedOf(e, h)) && (forall e | e in es' :: FeedOf(e, h))
    requires FedByAll(es) == FedByAll(es')
    ensures var r, r' := Replay(EMPTY, es), Replay(EMPTY, es');
      r.Stored? && r'.Stored? && SameContents(r.db, r'.db) && SameContents(r'.db, r.db)
  {
    ReplayHolds(h, es);
    ReplayHolds(h, es');
    HoldersAgree(Replay(EMPTY, es).db, Replay(EMPTY, es').db, FedByAll(es));
    HoldersAgree(Replay(EMPTY, es').db, Replay(EMPTY, es).db, FedByAll(es));
  }

  lemma {:induction false} CountByFile(db: Db, rows: set<int>)
    requires forall i, j | i in rows && j in rows && i != j ::
      i in db.media && j in db.media && db.media[i].file != db.media[j].file
    requires forall i | i in rows :: i in db.media
    ensures |rows| == |set i | i in rows :: db.media[i].file|
    decreases |rows|
  {
    if rows != {} {
      var i := Any(rows);
      var rest := rows - {i};
      CountByFile(db, rest);
      assert (set k | k in rows :: db.media[k].file) == (set k | k in rest :: db.media[k].file) + {db.media[i].file};
    }
  }

  lemma OneRowPerFile(db: Db, p: int, fed: set<Fed>)
    requires Holds(db, fed) && p in db.posts
    ensures |MediaOf(db, p)| == |FilesAt(db, p)|
  {
    forall i | i in MediaOf(db, p) ensures db.media[i].file.Some? {
      assert db.media[i].file in FilesAt(db, p);
    }
    CountByFile(db, MediaOf(db, p));
    assert FilesAt(db, p) == set i | i in MediaOf(db, p) :: db.media[i].file;
  }
}
