/** The posts and media tables, and `upsert_post` on them. */
module PostStore {
  import opened Prelude

  datatype Post = Post(channel: int, msgId: int, group: Option<int>, text: Option<string>)

  datatype Media = Media(postId: int, file: Option<string>, position: int)

  /** A media row before it is stored. */
  datatype Row = Row(file: Option<string>, position: int)

  /** Both tables, with the next values of their id sequences. */
  datatype Db = Db(posts: map<int, Post>, media: map<int, Media>, nextPost: int, nextMedia: int)

  /** `Stored` carries what `upsert_post` returns; `Violation` is a broken unique
      index, on which the transaction is rolled back. */
  datatype Outcome = Stored(postId: Option<int>, db: Db) | Violation

  const EMPTY := Db(map[], map[], 0, 0)

  predicate InGroup(p: Post, channel: int, group: int) {
    p.channel == channel && p.group == Some(group)
  }

  predicate AtMessage(p: Post, channel: int, msgId: int) {
    p.channel == channel && p.msgId == msgId
  }

  function GroupPosts(db: Db, channel: int, group: int): set<int> {
    set p | p in db.posts && InGroup(db.posts[p], channel, group)
  }

  function MessagePosts(db: Db, channel: int, msgId: int): set<int> {
    set p | p in db.posts && AtMessage(db.posts[p], channel, msgId)
  }

  function MediaOf(db: Db, p: int): set<int> {
    set i | i in db.media && db.media[i].postId == p
  }

  /** Files on a post; a row without a file id counts as `None`. */
  function FilesAt(db: Db, p: int): set<Option<string>> {
    set i | i in MediaOf(db, p) :: db.media[i].file
  }

  function PositionsAt(db: Db, p: int): set<int> {
    set i | i in MediaOf(db, p) :: db.media[i].position
  }

  /** The unique index on (post_id, tg_file_id), which skips null file ids. */
  predicate FileTaken(db: Db, p: int, file: Option<string>) {
    file.Some? && file in FilesAt(db, p)
  }

  function InsertRow(db: Db, p: int, r: Row): Db {
    db.(media := db.media[db.nextMedia := Media(p, r.file, r.position)], nextMedia := db.nextMedia + 1)
  }

  function InsertRows(db: Db, p: int, rows: seq<Row>): Option<Db>
    decreases |rows|
  {
    if rows == [] then Some(db)
    else if FileTaken(db, p, rows[0].file) then None
    else InsertRows(InsertRow(db, p, rows[0]), p, rows[1..])
  }

  function InsertPost(db: Db, post: Post): Db {
    db.(posts := db.posts[db.nextPost := post], nextPost := db.nextPost + 1)
  }

  function Missing(rows: seq<Row>, present: set<Option<string>>): seq<Row> {
    if rows == [] then []
    else (if rows[0].file in present then [] else [rows[0]]) + Missing(rows[1..], present)
  }

  function Renumber(rows: seq<Row>, from: int): seq<Row> {
    seq(|rows|, k requires 0 <= k < |rows| => rows[k].(position := from + k))
  }

  /** `COALESCE(MAX(position), -1)`. */
  function MaxPosition(db: Db, p: int): int {
    if PositionsAt(db, p) == {} then -1 else Max(PositionsAt(db, p))
  }

  ghost function AppendMedia(db: Db, p: int, rows: seq<Row>): Outcome {
    var missing := Missing(rows, FilesAt(db, p));
    var stored := InsertRows(db, p, Renumber(missing, MaxPosition(db, p) + 1));
    if stored.None? then Violation else Stored(Some(p), stored.value)
  }

  ghost function CreatePost(db: Db, post: Post, rows: seq<Row>): Outcome {
    if MessagePosts(db, post.channel, post.msgId) != {} then Stored(None, db)
    else
      var stored := InsertRows(InsertPost(db, post), db.nextPost, rows);
      if stored.None? then Violation else Stored(Some(db.nextPost), stored.value)
  }

  /** `upsert_post`. */
  ghost function Upsert(db: Db, post: Post, rows: seq<Row>): Outcome {
    if post.group.Some? && GroupPosts(db, post.channel, post.group.value) != {} then
      AppendMedia(db, Any(GroupPosts(db, post.channel, post.group.value)), rows)
    else CreatePost(db, post, rows)
  }

  // ---- what inserting media rows does -----------------------------------------

  predicate IdsFresh(db: Db) {
    (forall i | i in db.media :: i < db.nextMedia) && (forall p | p in db.posts :: p < db.nextPost)
  }

  /** No file twice, no position twice. */
  predicate RowsDistinct(db: Db, p: int) {
    forall i, j | i in MediaOf(db, p) && j in MediaOf(db, p) && i != j ::
      db.media[i].position != db.media[j].position
      && (db.media[i].file.Some? ==> db.media[i].file != db.media[j].file)
  }

  function RowFiles(rows: seq<Row>): set<Option<string>> {
    set k | 0 <= k < |rows| :: rows[k].file
  }

  predicate Increasing(rows: seq<Row>) {
    forall k, l | 0 <= k < l < |rows| :: rows[k].position < rows[l].position
  }

  predicate FilesDistinct(rows: seq<Row>) {
    forall k, l | 0 <= k < l < |rows| :: rows[k].file.Some? ==> rows[k].file != rows[l].file
  }

  /** `db'` is `db` with `rows` added to the media of post `p`. */
  ghost predicate RowsAdded(db: Db, p: int, rows: seq<Row>, db': Db) {
    && db'.posts == db.posts && db'.nextPost == db.nextPost && db.nextMedia <= db'.nextMedia
    && (forall i | i in db.media :: i in db'.media && db'.media[i] == db.media[i])
    && (forall i | i in db'.media && i !in db.media :: db'.media[i].postId == p && db.nextMedia <= i < db'.nextMedia)
    && FilesAt(db', p) == FilesAt(db, p) + RowFiles(rows)
    && (IdsFresh(db) ==> IdsFresh(db'))
  }

  lemma InsertedOne(db: Db, p: int, r: Row)
    requires IdsFresh(db)
    ensures RowsAdded(db, p, [r], InsertRow(db, p, r))
    ensures PositionsAt(InsertRow(db, p, r), p) == PositionsAt(db, p) + {r.position}
    ensures RowsDistinct(db, p) && !FileTaken(db, p, r.file) && r.position !in PositionsAt(db, p)
            ==> RowsDistinct(InsertRow(db, p, r), p)
  {
    var db' := InsertRow(db, p, r);
    assert MediaOf(db', p) == MediaOf(db, p) + {db.nextMedia};
    assert FilesAt(db', p) == FilesAt(db, p) + {r.file};
    assert RowFiles([r]) == {r.file} by {
      assert [r][0].file in RowFiles([r]);
    }
  }

  lemma AddedTwice(db: Db, p: int, r: Row, db1: Db, rows: seq<Row>, db2: Db)
    requires RowsAdded(db, p, [r], db1) && RowsAdded(db1, p, rows, db2)
    ensures RowsAdded(db, p, [r] + rows, db2)
  {
    SplitRowFiles([r]);
    SplitRowFiles([r] + rows);
    assert ([r] + rows)[1..] == rows && [r][1..] == [];
  }

  /** Inserting fails exactly when a file would be on the post twice; otherwise it
      adds just the given rows. */
  lemma {:induction false} Inserted(db: Db, p: int, rows: seq<Row>)
    requires IdsFresh(db)
    ensures InsertRows(db, p, rows).Some?
            <==> FilesDistinct(rows) && forall k | 0 <= k < |rows| :: !FileTaken(db, p, rows[k].file)
    ensures InsertRows(db, p, rows).Some? ==> RowsAdded(db, p, rows, InsertRows(db, p, rows).value)
    decreases |rows|
  {
    if rows == [] {
      assert RowFiles([]) == {};
    } else {
      var db1 := InsertRow(db, p, rows[0]);
      InsertedOne(db, p, rows[0]);
      Inserted(db1, p, rows[1..]);
      assert [rows[0]] + rows[1..] == rows;
      if InsertRows(db, p, rows).Some? {
        AddedTwice(db, p, rows[0], db1, rows[1..], InsertRows(db, p, rows).value);
      }
      FilesDistinctTail(rows);
      SplitRowFiles([rows[0]]);
      assert FilesAt(db1, p) == FilesAt(db, p) + {rows[0].file};
      forall k | 1 <= k < |rows|
        ensures FileTaken(db1, p, rows[k].file)
          <==> FileTaken(db, p, rows[k].file) || (rows[0].file.Some? && rows[k].file == rows[0].file)
      {
      }
      assert forall k | 1 <= k < |rows| :: rows[1..][k - 1] == rows[k];
    }
  }

  /** It keeps positions and files distinct, when the new positions increase and
      lie above those in use. */
  lemma {:induction false} InsertedDistinct(db: Db, p: int, rows: seq<Row>)
    requires IdsFresh(db) && InsertRows(db, p, rows).Some?
    requires RowsDistinct(db, p) && Increasing(rows)
    requires forall k, x | 0 <= k < |rows| && x in PositionsAt(db, p) :: x < rows[k].position
    ensures RowsDistinct(InsertRows(db, p, rows).value, p)
    decreases |rows|
  {
    if rows != [] {
      var db1 := InsertRow(db, p, rows[0]);
      InsertedOne(db, p, rows[0]);
      assert forall k | 0 <= k < |rows| - 1 :: rows[1..][k] == rows[k + 1];
      InsertedDistinct(db1, p, rows[1..]);
    }
  }

  lemma SplitRowFiles(rows: seq<Row>)
    requires rows != []
    ensures RowFiles(rows) == {rows[0].file} + RowFiles(rows[1..])
  {
    forall f | f in RowFiles(rows) ensures f in {rows[0].file} + RowFiles(rows[1..]) {
      var k :| 0 <= k < |rows| && rows[k].file == f;
      assert k > 0 ==> rows[1..][k - 1].file == f;
    }
    forall f | f in RowFiles(rows[1..]) ensures f in RowFiles(rows) {
      var k :| 0 <= k < |rows| - 1 && rows[1..][k].file == f;
      assert rows[k + 1].file == f;
    }
  }

  lemma FilesDistinctTail(rows: seq<Row>)
    requires rows != []
    ensures FilesDistinct(rows)
            <==> FilesDistinct(rows[1..]) && (rows[0].file.Some? ==> rows[0].file !in RowFiles(rows[1..]))
  {
    forall k | 1 <= k < |rows| ensures rows[k] == rows[1..][k - 1] {
    }
    if rows[0].file in RowFiles(rows[1..]) {
      var l :| 0 <= l < |rows| - 1 && rows[1..][l].file == rows[0].file;
      assert rows[l + 1].file == rows[0].file;
    }
  }

  // ---- the tables in place ----------------------------------------------------

  /** The unique indexes and the foreign key of the two tables. */
  ghost predicate Valid(db: Db) {
    && IdsFresh(db)
    && (forall i | i in db.media :: db.media[i].postId in db.posts)
    && (forall p, q | p in db.posts && q in db.posts && p != q ::
          !AtMessage(db.posts[p], db.posts[q].channel, db.posts[q].msgId))
    && (forall p, q | p in db.posts && q in db.posts && p != q && db.posts[q].group.Some? ::
          !InGroup(db.posts[p], db.posts[q].channel, db.posts[q].group.value))
    && (forall i, j | i in db.media && j in db.media && i != j && db.media[i].file.Some? ::
          db.media[i].postId == db.media[j].postId ==> db.media[i].file != db.media[j].file)
  }

  lemma InsertRowsKeepsFiles(db: Db, p: int, rows: seq<Row>)
    requires Valid(db) && p in db.posts && InsertRows(db, p, rows).Some?
    ensures Valid(InsertRows(db, p, rows).value)
    decreases |rows|
  {
    if rows != [] {
      InsertedOne(db, p, rows[0]);
      assert forall i | i in db.media && db.media[i].postId == p ::
        i in MediaOf(db, p) && db.media[i].file in FilesAt(db, p);
      InsertRowsKeepsFiles(InsertRow(db, p, rows[0]), p, rows[1..]);
    }
  }

  lemma NoneInGroup(db: Db, channel: int, group: int)
    requires GroupPosts(db, channel, group) == {}
    ensures forall q | q in db.posts :: !InGroup(db.posts[q], channel, group)
  {
    assert forall q | q in db.posts && InGroup(db.posts[q], channel, group) :: q in GroupPosts(db, channel, group);
  }

  /** Whatever is upserted, a commit leaves every index intact. */
  lemma UpsertKeepsIndexes(db: Db, post: Post, rows: seq<Row>)
    requires Valid(db)
    ensures var r := Upsert(db, post, rows); r.Stored? ==> Valid(r.db)
  {
    var r := Upsert(db, post, rows);
    if r.Stored? && post.group.Some? && GroupPosts(db, post.channel, post.group.value) != {} {
      InsertRowsKeepsFiles(db, Any(GroupPosts(db, post.channel, post.group.value)),
        Renumber(Missing(rows, FilesAt(db, Any(GroupPosts(db, post.channel, post.group.value)))),
                 MaxPosition(db, Any(GroupPosts(db, post.channel, post.group.value))) + 1));
    } else if r.Stored? && MessagePosts(db, post.channel, post.msgId) == {} {
      assert forall q | q in db.posts ::
        AtMessage(db.posts[q], post.channel, post.msgId) ==> q in MessagePosts(db, post.channel, post.msgId);
      if post.group.Some? {
        NoneInGroup(db, post.channel, post.group.value);
      }
      InsertRowsKeepsFiles(InsertPost(db, post), db.nextPost, rows);
    }
  }

  /** No upsert changes or removes a post that is there. */
  lemma UpsertKeepsPosts(db: Db, post: Post, rows: seq<Row>)
    requires Valid(db) && Upsert(db, post, rows).Stored?
    ensures forall p | p in db.posts ::
      p in Upsert(db, post, rows).db.posts && Upsert(db, post, rows).db.posts[p] == db.posts[p]
  {
    if post.group.Some? && GroupPosts(db, post.channel, post.group.value) != {} {
      var p := Any(GroupPosts(db, post.channel, post.group.value));
      Inserted(db, p, Renumber(Missing(rows, FilesAt(db, p)), MaxPosition(db, p) + 1));
    } else {
      Inserted(InsertPost(db, post), db.nextPost, rows);
    }
  }

  // ---- what an upsert stores --------------------------------------------------

  /** `rows` stand as new media of post `p`, each with its file at its position, and all
      other media are as they were. */
  ghost predicate RowsStand(db: Db, p: int, rows: seq<Row>, db': Db) {
    && (forall i | i in db.media :: i in db'.media && db'.media[i] == db.media[i])
    && (forall i :: i in db'.media <==> i in db.media || db.nextMedia <= i < db.nextMedia + |rows|)
    && (forall k | 0 <= k < |rows| ::
          db.nextMedia + k in db'.media
          && db'.media[db.nextMedia + k] == Media(p, rows[k].file, rows[k].position))
  }

  lemma {:induction false} InsertedStand(db: Db, p: int, rows: seq<Row>)
    requires IdsFresh(db) && InsertRows(db, p, rows).Some?
    ensures RowsStand(db, p, rows, InsertRows(db, p, rows).value)
    ensures InsertRows(db, p, rows).value.posts == db.posts
    decreases |rows|
  {
    if rows != [] {
      var db1, db' := InsertRow(db, p, rows[0]), InsertRows(db, p, rows).value;
      InsertedStand(db1, p, rows[1..]);
      forall k | 0 <= k < |rows|
        ensures db.nextMedia + k in db'.media
          && db'.media[db.nextMedia + k] == Media(p, rows[k].file, rows[k].position)
      {
        if k > 0 {
          assert rows[1..][k - 1] == rows[k] && db1.nextMedia + (k - 1) == db.nextMedia + k;
        } else {
          assert db.nextMedia in db1.media;
        }
      }
    }
  }

  /** `at` lists, in order, the rows whose files are not in `present`, and `picked` is
      those rows. */
  predicate NewRows(rows: seq<Row>, present: set<Option<string>>, at: seq<nat>, picked: seq<Row>) {
    && Rises(at, |rows|) && |picked| == |at|
    && (forall i: nat | i < |rows| :: i in at <==> rows[i].file !in present)
    && (forall k | 0 <= k < |at| :: picked[k] == rows[at[k]])
  }

  lemma {:induction false} MissingAppend(a: seq<Row>, b: seq<Row>, present: set<Option<string>>)
    ensures Missing(a + b, present) == Missing(a, present) + Missing(b, present)
  {
    if a == [] {
      assert a + b == b;
    } else {
      assert (a + b)[1..] == a[1..] + b;
      MissingAppend(a[1..], b, present);
    }
  }

  lemma MissingLast(rows: seq<Row>, present: set<Option<string>>)
    requires rows != []
    ensures var last := rows[|rows| - 1];
      Missing(rows, present) == Missing(rows[..|rows| - 1], present) + if last.file in present then [] else [last]
  {
    var front, last := rows[..|rows| - 1], rows[|rows| - 1];
    assert rows == front + [last];
    MissingAppend(front, [last], present);
    assert [last][1..] == [] && Missing([], present) == [];
  }

  lemma NewRowsNext(front: seq<Row>, last: Row, present: set<Option<string>>, at: seq<nat>, picked: seq<Row>)
    requires NewRows(front, present, at, picked)
    ensures last.file in present ==> NewRows(front + [last], present, at, picked)
    ensures last.file !in present ==> NewRows(front + [last], present, at + [|front|], picked + [last])
  {
    assert forall i: nat | i < |front| :: (front + [last])[i] == front[i];
  }

  lemma {:induction false} MissingAre(rows: seq<Row>, present: set<Option<string>>) returns (at: seq<nat>)
    ensures NewRows(rows, present, at, Missing(rows, present))
  {
    at := [];
    if rows != [] {
      var front, last := rows[..|rows| - 1], rows[|rows| - 1];
      at := MissingAre(front, present);
      MissingLast(rows, present);
      NewRowsNext(front, last, present, at, Missing(front, present));
      assert rows == front + [last];
      at := if last.file in present then at else at + [|front|];
    }
  }

  /** No media of the post lies above `top`, and unless it is -1 some lies there. */
  predicate IsTop(db: Db, p: int, top: int) {
    && (forall i | i in db.media && db.media[i].postId == p :: db.media[i].position <= top)
    && (if (exists i :: i in db.media && db.media[i].postId == p)
        then exists i :: i in db.media && db.media[i].postId == p && db.media[i].position == top
        else top == -1)
  }

  lemma MaxPositionIsTop(db: Db, p: int)
    ensures IsTop(db, p, MaxPosition(db, p))
  {
    forall i | i in db.media && db.media[i].postId == p ensures db.media[i].position in PositionsAt(db, p) {
      assert i in MediaOf(db, p);
    }
  }

  /** No post of its group and none at its message is there: the upsert adds the post as
      it is given, under a new id, with its media rows as they are given, and nothing else. */
  lemma UpsertCreates(db: Db, post: Post, rows: seq<Row>)
    requires Valid(db) && Upsert(db, post, rows).Stored?
    requires post.group.Some? ==> GroupPosts(db, post.channel, post.group.value) == {}
    requires MessagePosts(db, post.channel, post.msgId) == {}
    ensures var r := Upsert(db, post, rows);
      && r.postId == Some(db.nextPost) && db.nextPost !in db.posts
      && r.db.posts == db.posts[db.nextPost := post]
      && RowsStand(db, db.nextPost, rows, r.db)
  {
    InsertedStand(InsertPost(db, post), db.nextPost, rows);
  }

  /** A post of its group is there: the upsert adds to it, in their order and behind its
      highest position, the rows whose files it does not have, and touches no post. */
  lemma UpsertAppends(db: Db, post: Post, rows: seq<Row>)
    returns (p: int, at: seq<nat>, picked: seq<Row>, top: int, added: seq<Row>)
    requires Valid(db) && post.group.Some? && GroupPosts(db, post.channel, post.group.value) != {}
    requires Upsert(db, post, rows).Stored?
    ensures p in db.posts && InGroup(db.posts[p], post.channel, post.group.value) && IsTop(db, p, top)
    ensures NewRows(rows, FilesAt(db, p), at, picked) && |added| == |picked|
    ensures forall k | 0 <= k < |added| :: added[k] == Row(picked[k].file, top + 1 + k)
    ensures var r := Upsert(db, post, rows);
      r.postId == Some(p) && r.db.posts == db.posts && RowsStand(db, p, added, r.db)
  {
    p, top := Any(GroupPosts(db, post.channel, post.group.value)), -1;
    at := MissingAre(rows, FilesAt(db, p));
    top := MaxPosition(db, p);
    MaxPositionIsTop(db, p);
    picked := Missing(rows, FilesAt(db, p));
    added := Renumber(picked, top + 1);
    InsertedStand(db, p, added);
  }

  /** A post at its message, and none of its group, is there: nothing changes. */
  lemma UpsertSkips(db: Db, post: Post, rows: seq<Row>)
    requires post.group.Some? ==> GroupPosts(db, post.channel, post.group.value) == {}
    requires MessagePosts(db, post.channel, post.msgId) != {}
    ensures Upsert(db, post, rows) == Stored(None, db)
  {
  }

  class Tables {
    var posts: map<int, Post>
    var media: map<int, Media>
    var nextPost: int
    var nextMedia: int

    function View(): Db
      reads this
    {
      Db(posts, media, nextPost, nextMedia)
    }

    constructor ()
      ensures View() == EMPTY
    {
      posts, media, nextPost, nextMedia := map[], map[], 0, 0;
    }

    /** The INSERT of a list of media rows; on a broken index nothing is kept. */
    method InsertMedia(p: int, rows: seq<Row>) returns (ok: bool)
      modifies this`media, this`nextMedia
      ensures ok == InsertRows(old(View()), p, rows).Some?
      ensures View() == if ok then InsertRows(old(View()), p, rows).value else old(View())
    {
      var media0, nextMedia0 := media, nextMedia;
      for k := 0 to |rows|
        invariant InsertRows(old(View()), p, rows) == InsertRows(View(), p, rows[k..])
      {
        if FileTaken(View(), p, rows[k].file) {
          media, nextMedia := media0, nextMedia0;
          return false;
        }
        assert rows[k..][1..] == rows[k + 1..];
        media := media[nextMedia := Media(p, rows[k].file, rows[k].position)];
        nextMedia := nextMedia + 1;
      }
      ok := true;
    }

    /** `upsert_post` and its commit, or the rollback of a broken index. */
    method UpsertPost(post: Post, rows: seq<Row>) returns (committed: bool, result: Option<int>)
      requires Valid(View())
      modifies this
      ensures Valid(View())
      ensures var r := Upsert(old(View()), post, rows);
        if r.Stored? then committed && result == r.postId && View() == r.db
        else !committed && View() == old(View())
    {
      UpsertKeepsIndexes(View(), post, rows);
      if post.group.Some? {
        var existing := GroupPosts(View(), post.channel, post.group.value);
        if existing != {} {
          var p :| p in existing;
          assert p == Any(existing);
          var newMedia := Missing(rows, FilesAt(View(), p));
          if newMedia == [] {
            assert Renumber(newMedia, MaxPosition(View(), p) + 1) == [];
            return true, Some(p);
          }
          committed := InsertMedia(p, Renumber(newMedia, MaxPosition(View(), p) + 1));
          return committed, Some(p);
        }
      }
      if MessagePosts(View(), post.channel, post.msgId) != {} {
        return true, None;
      }
      var p, posts0 := nextPost, posts;
      posts, nextPost := posts[p := post], p + 1;
      committed := InsertMedia(p, rows);
      if !committed {
        posts, nextPost := posts0, p;
      }
      return committed, Some(p);
    }
  }
}
