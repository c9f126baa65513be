/** The one-shot merge of posts that were ingested as single messages but belong to
    one media group. */
module MergeAlbums {
  import opened Prelude
  import opened PostStore
  import Sorting

  datatype GroupKey = GroupKey(channel: int, group: int)

  datatype MessageRef = MessageRef(channel: int, msgId: int)

  /** What Telegram says of a message; absent for a deleted message, and for a
      channel or batch that could not be fetched. */
  type Answers = map<MessageRef, Option<int>>

  /** The group an untagged post turns out to belong to. */
  function GroupOf(db: Db, answers: Answers, p: int): Option<GroupKey>
    requires p in db.posts
  {
    var post := db.posts[p];
    var ref := MessageRef(post.channel, post.msgId);
    if post.group.Some? || ref !in answers || answers[ref].None? then None
    else Some(GroupKey(post.channel, answers[ref].value))
  }

  /** The loop state: tables, files present on the head, next free position. */
  datatype Fold = Fold(db: Db, present: set<Option<string>>, next: int)

  /** One tail row: dropped when the head has its file, else moved behind. */
  function MoveOne(f: Fold, head: int, i: int): Fold {
    if i !in f.db.media then f
    else if f.db.media[i].file in f.present then f.(db := f.db.(media := f.db.media - {i}))
    else
      Fold(f.db.(media := f.db.media[i := f.db.media[i].(postId := head, position := f.next)]),
           f.present + {f.db.media[i].file}, f.next + 1)
  }

  function MoveAll(f: Fold, head: int, ids: seq<int>): Fold {
    if ids == [] then f else MoveOne(MoveAll(f, head, ids[..|ids| - 1]), head, ids[|ids| - 1])
  }

  /** The media of the tails: tail by tail, each in id order. */
  function TailMedia(db: Db, tails: seq<int>): seq<int> {
    if tails == [] then []
    else TailMedia(db, tails[..|tails| - 1]) + Ascending(MediaOf(db, tails[|tails| - 1]))
  }

  function StartFold(db: Db, head: int): Fold {
    Fold(db, FilesAt(db, head), MaxPosition(db, head) + 1)
  }

  /** DELETE of posts, with the cascade to their media. */
  function DeletePosts(db: Db, ps: seq<int>): Db {
    db.(posts := map p | p in db.posts && p !in ps :: db.posts[p],
        media := map i | i in db.media && db.media[i].postId !in ps :: db.media[i])
  }

  function Tag(db: Db, p: int, group: int): Db
    requires p in db.posts
  {
    db.(posts := db.posts[p := db.posts[p].(group := Some(group))])
  }

  /** One group: `members` in message-id order, the head first. `None` is the
      broken unique index on (channel_id, tg_grouped_id). */
  function MergeGroup(db: Db, key: GroupKey, members: seq<int>): Option<Db>
    requires members != [] && members[0] in db.posts && members[0] !in members[1..]
  {
    var head, tails := members[0], members[1..];
    if GroupPosts(db, key.channel, key.group) != {} then None
    else
      var moved := MoveAll(StartFold(db, head), head, TailMedia(db, tails)).db;
      MovePosts(StartFold(db, head), head, TailMedia(db, tails));
      Some(Tag(DeletePosts(moved, tails), head, key.group))
  }

  lemma {:induction false} MovePosts(f: Fold, head: int, ids: seq<int>)
    ensures MoveAll(f, head, ids).db.posts == f.db.posts
  {
    if ids != [] {
      MovePosts(f, head, ids[..|ids| - 1]);
    }
  }

  // ---- what one group's merge does ----------------------------------------------

  /** No row is invented and no file changed. */
  predicate Shrunk(db0: Db, db: Db) {
    && (forall p | p in db.posts :: p in db0.posts)
    && (forall i | i in db.media :: i in db0.media && db.media[i].file == db0.media[i].file)
  }

  predicate Untouched(db0: Db, db: Db, p: int) {
    && (p in db0.posts ==> p in db.posts && db.posts[p] == db0.posts[p])
    && (forall i | i in db0.media && db0.media[i].postId == p :: i in db.media && db.media[i] == db0.media[i])
  }

  /** The media of `members` are on the head: the head's own rows as they were, each
      other row either moved above them or dropped for a row with its file, and the
      moved rows on positions and with files of their own. */
  ghost predicate MediaFolded(db0: Db, db: Db, members: seq<int>)
    requires members != []
  {
    var head := members[0];
    && (forall i | i in db0.media && db0.media[i].postId == head :: i in db.media && db.media[i] == db0.media[i])
    && (forall i | i in db0.media && i in db.media && db0.media[i].postId in members[1..] ::
          && db.media[i].postId == head
          && db.media[i].position > MaxPosition(db0, head)
          && db.media[i].file !in FilesAt(db0, head))
    && (forall i | i in db0.media && db0.media[i].postId in members[1..] :: db0.media[i].file in FilesAt(db, head))
    && (forall i, j | i in db.media && j in db.media && i in db0.media && j in db0.media && i != j
          && db0.media[i].postId in members[1..] && db0.media[j].postId in members[1..] ::
          db.media[i].position != db.media[j].position && db.media[i].file != db.media[j].file)
  }

  ghost predicate GroupFolded(db0: Db, db: Db, members: seq<int>, group: int)
    requires members != []
  {
    && (forall p | p in members[1..] :: p !in db.posts)
    && members[0] in db0.posts && members[0] in db.posts
    && db.posts[members[0]] == db0.posts[members[0]].(group := Some(group))
    && MediaFolded(db0, db, members)
  }

  /** The rows handled so far: each moved above the head's, with a file of its own. */
  ghost predicate MovedApart(db0: Db, head: int, done: set<int>, f: Fold) {
    && f.next > MaxPosition(db0, head)
    && (forall i | i in done && i in f.db.media ::
          f.db.media[i].postId == head && MaxPosition(db0, head) < f.db.media[i].position < f.next
          && f.db.media[i].file !in FilesAt(db0, head))
    && (forall i, j | i in done && j in done && i != j && i in f.db.media && j in f.db.media ::
          f.db.media[i].position != f.db.media[j].position && f.db.media[i].file != f.db.media[j].file)
  }

  ghost predicate Kept(db0: Db, head: int, done: set<int>, f: Fold) {
    && f.db.posts == db0.posts && Shrunk(db0, f.db)
    && f.present == FilesAt(f.db, head) && FilesAt(db0, head) <= f.present
    && (forall i | i in db0.media && i !in done :: i in f.db.media && f.db.media[i] == db0.media[i])
    && (forall i | i in done :: i in db0.media && db0.media[i].postId != head && db0.media[i].file in f.present)
  }

  lemma DropOne(db0: Db, head: int, done: set<int>, f: Fold, i: int)
    requires MovedApart(db0, head, done, f) && Kept(db0, head, done, f)
    requires i in db0.media && i !in done && db0.media[i].postId != head && db0.media[i].file in f.present
    ensures MovedApart(db0, head, done + {i}, MoveOne(f, head, i)) && Kept(db0, head, done + {i}, MoveOne(f, head, i))
  {
    var g := MoveOne(f, head, i);
    assert f.db.media[i] == db0.media[i];
    assert MediaOf(g.db, head) == MediaOf(f.db, head);
    assert FilesAt(g.db, head) == FilesAt(f.db, head);
  }

  lemma ShiftOne(db0: Db, head: int, done: set<int>, f: Fold, i: int)
    requires MovedApart(db0, head, done, f) && Kept(db0, head, done, f)
    requires i in db0.media && i !in done && db0.media[i].postId != head && db0.media[i].file !in f.present
    ensures MovedApart(db0, head, done + {i}, MoveOne(f, head, i)) && Kept(db0, head, done + {i}, MoveOne(f, head, i))
  {
    var g := MoveOne(f, head, i);
    assert f.db.media[i] == db0.media[i];
    assert MediaOf(g.db, head) == MediaOf(f.db, head) + {i};
    assert FilesAt(g.db, head) == FilesAt(f.db, head) + {db0.media[i].file};
    forall j | j in done && j in f.db.media
      ensures f.db.media[j].file in f.present
    {
      assert j in MediaOf(f.db, head);
    }
  }

  lemma {:induction false} MovedAll(db0: Db, head: int, ids: seq<int>)
    requires Sorting.Distinct(ids) && forall i | i in ids :: i in db0.media && db0.media[i].postId != head
    ensures var f := MoveAll(StartFold(db0, head), head, ids);
      MovedApart(db0, head, Sorting.Elements(ids), f) && Kept(db0, head, Sorting.Elements(ids), f)
  {
    if ids != [] {
      var front, i := ids[..|ids| - 1], ids[|ids| - 1];
      assert ids == front + [i];
      MovedAll(db0, head, front);
      assert Sorting.Elements(ids) == Sorting.Elements(front) + {i};
      assert i !in Sorting.Elements(front);
      var f := MoveAll(StartFold(db0, head), head, front);
      if db0.media[i].file in f.present {
        DropOne(db0, head, Sorting.Elements(front), f, i);
      } else {
        ShiftOne(db0, head, Sorting.Elements(front), f, i);
      }
    }
  }

  lemma {:induction false} TailMediaIs(db: Db, tails: seq<int>)
    requires Sorting.Distinct(tails)
    ensures Sorting.Distinct(TailMedia(db, tails))
    ensures forall i :: i in TailMedia(db, tails) <==> i in db.media && db.media[i].postId in tails
  {
    if tails != [] {
      var front, last := tails[..|tails| - 1], tails[|tails| - 1];
      assert tails == front + [last];
      assert last !in front;
      TailMediaIs(db, front);
      assert forall i | i in Ascending(MediaOf(db, last)) :: i in MediaOf(db, last);
      Sorting.DistinctAppend(TailMedia(db, front), Ascending(MediaOf(db, last)));
    }
  }

  /** One group merged: members other than the head are gone, the head carries the
      group and every file its members had, once each; nothing else changed. */
  lemma MergedGroup(db: Db, key: GroupKey, members: seq<int>)
    requires members != [] && members[0] in db.posts && members[0] !in members[1..] && Sorting.Distinct(members[1..])
    requires MergeGroup(db, key, members).Some?
    ensures var db' := MergeGroup(db, key, members).value;
      && Shrunk(db, db') && GroupFolded(db, db', members, key.group)
      && (forall p | p !in members :: Untouched(db, db', p))
      && (forall i | i in db'.media :: db'.media[i].postId == members[0] || db'.media[i] == db.media[i])
  {
    var head, tails := members[0], members[1..];
    var ids := TailMedia(db, tails);
    TailMediaIs(db, tails);
    MovedAll(db, head, ids);
    MovePosts(StartFold(db, head), head, ids);
    var f := MoveAll(StartFold(db, head), head, ids);
    NothingCascades(db, head, tails, Sorting.Elements(ids), f);
    FoldEnds(db, f, members, Sorting.Elements(ids), key.group, MergeGroup(db, key, members).value);
    OthersUntouched(db, f, members, Sorting.Elements(ids), MergeGroup(db, key, members).value);
  }

  lemma FoldEnds(db: Db, f: Fold, members: seq<int>, done: set<int>, group: int, db': Db)
    requires members != [] && members[0] in db.posts && members[0] !in members[1..]
    requires MovedApart(db, members[0], done, f) && Kept(db, members[0], done, f)
    requires forall i :: i in done <==> i in db.media && db.media[i].postId in members[1..]
    requires db' == Tag(DeletePosts(f.db, members[1..]), members[0], group) && db'.media == f.db.media
    ensures Shrunk(db, db') && GroupFolded(db, db', members, group)
  {
    assert MediaOf(db', members[0]) == MediaOf(f.db, members[0]);
    assert FilesAt(db', members[0]) == FilesAt(f.db, members[0]);
  }

  lemma OthersUntouched(db: Db, f: Fold, members: seq<int>, done: set<int>, db': Db)
    requires members != [] && MovedApart(db, members[0], done, f) && Kept(db, members[0], done, f)
    requires forall i :: i in done <==> i in db.media && db.media[i].postId in members[1..]
    requires db'.media == f.db.media
    requires forall p | p !in members && p in db.posts :: p in db'.posts && db'.posts[p] == db.posts[p]
    ensures forall p | p !in members :: Untouched(db, db', p)
    ensures forall i | i in db'.media :: db'.media[i].postId == members[0] || db'.media[i] == db.media[i]
  {
  }

  /** Deleting the tails removes no media: their rows were moved or dropped before. */
  lemma NothingCascades(db: Db, head: int, tails: seq<int>, done: set<int>, f: Fold)
    requires head !in tails && MovedApart(db, head, done, f) && Kept(db, head, done, f)
    requires forall i | i in db.media && db.media[i].postId in tails :: i in done
    ensures DeletePosts(f.db, tails).media == f.db.media
  {
    forall i | i in f.db.media ensures f.db.media[i].postId !in tails {
      assert i in db.media;
    }
  }

  lemma {:induction false} MoveSequences(f: Fold, head: int, ids: seq<int>)
    ensures MoveAll(f, head, ids).db.nextPost == f.db.nextPost && MoveAll(f, head, ids).db.nextMedia == f.db.nextMedia
  {
    if ids != [] {
      MoveSequences(f, head, ids[..|ids| - 1]);
    }
  }

  lemma HeadFilesDistinct(db: Db, db': Db, members: seq<int>, group: int, i: int, j: int)
    requires Valid(db) && members != [] && Shrunk(db, db') && GroupFolded(db, db', members, group)
    requires forall p | p !in members :: Untouched(db, db', p)
    requires i in db'.media && j in db'.media && i != j && db'.media[i].file.Some?
    requires db'.media[i].postId == members[0] == db'.media[j].postId
    ensures db'.media[i].file != db'.media[j].file
  {
    var head := members[0];
    forall k | k in db'.media && db'.media[k].postId == head && db.media[k].postId != head
      ensures db.media[k].postId in members[1..] {
      var q := db.media[k].postId;
      assert q !in members ==> Untouched(db, db', q);
    }
    forall k | k in db.media && db.media[k].postId == head ensures db.media[k].file in FilesAt(db, head) {
      assert k in MediaOf(db, head);
    }
  }

  /** A merge keeps every index of the tables, so the feeds go on after it. */
  lemma MergeKeepsIndexes(db: Db, key: GroupKey, members: seq<int>)
    requires Valid(db) && members != [] && members[0] in db.posts && db.posts[members[0]].channel == key.channel
    requires members[0] !in members[1..] && Sorting.Distinct(members[1..])
    requires MergeGroup(db, key, members).Some?
    ensures Valid(MergeGroup(db, key, members).value)
  {
    var db' := MergeGroup(db, key, members).value;
    var head, tails := members[0], members[1..];
    var ids := TailMedia(db, tails);
    MergedGroup(db, key, members);
    MovePosts(StartFold(db, head), head, ids);
    MoveSequences(StartFold(db, head), head, ids);
    assert forall p | p in db'.posts :: p in db.posts && p !in tails && (p != head ==> db'.posts[p] == db.posts[p]);
    forall p | p in db.posts && db.posts[p].channel == key.channel ensures db.posts[p].group != Some(key.group) {
      assert p !in GroupPosts(db, key.channel, key.group);
    }
    forall i | i in db'.media ensures db'.media[i].postId in db'.posts {
      assert db'.media[i].postId == head || db'.media[i] == db.media[i];
      assert db'.media[i].postId !in tails;
    }
    forall i, j | i in db'.media && j in db'.media && i != j && db'.media[i].file.Some?
      && db'.media[i].postId == db'.media[j].postId
      ensures db'.media[i].file != db'.media[j].file
    {
      if db'.media[i].postId == head {
        HeadFilesDistinct(db, db', members, key.group, i, j);
      }
    }
  }

  // ---- the order of an album's media ------------------------------------------------

  /** Message ids rise along the list. */
  predicate InMsgOrder(db: Db, ps: seq<int>) {
    forall a, b | 0 <= a < b < |ps| :: MsgId(db, ps[a]) < MsgId(db, ps[b])
  }

  /** The row's post comes first, or it is the same post and the row comes first. */
  predicate Sooner(db: Db, i: int, j: int) {
    && i in db.media && j in db.media
    && var (p, q) := (db.media[i].postId, db.media[j].postId); MsgId(db, p) < MsgId(db, q) || (p == q && i < j)
  }

  predicate InTurn(db: Db, ids: seq<int>) {
    forall x, y | 0 <= x < y < |ids| :: Sooner(db, ids[x], ids[y])
  }

  predicate IsMoved(db0: Db, db: Db, members: seq<int>, i: int)
    requires members != []
  {
    i in db.media && i in db0.media && db0.media[i].postId in members[1..]
  }

  /** The rows moved to the head stand in the order of their messages, and within a post
      in id order, on the positions that follow the head's own without a gap. */
  ghost predicate MovedInOrder(db0: Db, db: Db, members: seq<int>)
    requires members != []
  {
    && (forall i, j | IsMoved(db0, db, members, i) && IsMoved(db0, db, members, j) ::
          db.media[i].position < db.media[j].position <==> Sooner(db0, i, j))
    && (forall i, q | IsMoved(db0, db, members, i) && MaxPosition(db0, members[0]) < q <= db.media[i].position ::
          RowAt(db0, db, members, q))
    && (forall i | IsMoved(db0, db, members, i) :: MaxPosition(db0, members[0]) < db.media[i].position)
  }

  ghost predicate RowAt(db0: Db, db: Db, members: seq<int>, q: int)
    requires members != []
  {
    exists j :: IsMoved(db0, db, members, j) && db.media[j].position == q
  }

  lemma {:induction false} TailMediaInOrder(db: Db, tails: seq<int>)
    requires Sorting.Distinct(tails) && InMsgOrder(db, tails)
    ensures InTurn(db, TailMedia(db, tails))
  {
    if tails != [] {
      var front, last := tails[..|tails| - 1], tails[|tails| - 1];
      assert tails == front + [last];
      TailMediaInOrder(db, front);
      TailMediaIs(db, front);
      TurnsAppend(db, front, last, TailMedia(db, front), Ascending(MediaOf(db, last)));
    }
  }

  lemma TurnsAppend(db: Db, front: seq<int>, last: int, ids: seq<int>, mine: seq<int>)
    requires InMsgOrder(db, front + [last]) && InTurn(db, ids) && mine == Ascending(MediaOf(db, last))
    requires forall i :: i in ids <==> i in db.media && db.media[i].postId in front
    ensures InTurn(db, ids + mine)
  {
    forall i | i in ids ensures i in db.media && MsgId(db, db.media[i].postId) < MsgId(db, last) {
      EarlierTail(db, front, last, db.media[i].postId);
    }
    forall x, y | 0 <= x < y < |ids + mine| ensures Sooner(db, (ids + mine)[x], (ids + mine)[y]) {
      assert x < |ids| ==> ids[x] in ids;
      assert x >= |ids| ==> mine[x - |ids|] in mine;
      assert y >= |ids| ==> mine[y - |ids|] in mine;
    }
  }

  lemma EarlierTail(db: Db, front: seq<int>, last: int, p: int)
    requires InMsgOrder(db, front + [last]) && p in front
    ensures MsgId(db, p) < MsgId(db, last)
  {
    var a :| 0 <= a < |front| && front[a] == p;
    assert (front + [last])[a] == p && (front + [last])[|front|] == last;
  }

  /** Along the list of ids positions rise, and none is left out. */
  ghost predicate PlacedInTurn(f: Fold, ids: seq<int>, top: int) {
    && (forall x, y | 0 <= x < y < |ids| && ids[x] in f.db.media && ids[y] in f.db.media ::
          f.db.media[ids[x]].position < f.db.media[ids[y]].position)
    && (forall x | 0 <= x < |ids| && ids[x] in f.db.media :: top < f.db.media[ids[x]].position < f.next)
    && (forall q | top < q < f.next :: Filled(f, ids, q))
  }

  predicate Filled(f: Fold, ids: seq<int>, q: int) { exists x :: 0 <= x < |ids| && At(f, ids[x], q) }

  predicate At(f: Fold, i: int, q: int) { i in f.db.media && f.db.media[i].position == q }

  lemma PlacedNext(f: Fold, head: int, front: seq<int>, i: int, top: int)
    requires PlacedInTurn(f, front, top) && i !in front && i in f.db.media && top < f.next
    ensures PlacedInTurn(MoveOne(f, head, i), front + [i], top)
  {
    var g, ids := MoveOne(f, head, i), front + [i];
    forall x | 0 <= x < |front| ensures ids[x] == front[x] && ids[x] != i {
    }
    forall q | top < q < g.next ensures Filled(g, ids, q) {
      if q < f.next {
        assert Filled(f, front, q);
        var x :| 0 <= x < |front| && At(f, front[x], q);
        assert At(g, ids[x], q);
      } else {
        assert At(g, ids[|front|], q);
      }
    }
  }

  lemma {:induction false} MovedInTurn(db0: Db, head: int, ids: seq<int>)
    requires Sorting.Distinct(ids) && forall i | i in ids :: i in db0.media && db0.media[i].postId != head
    ensures var f := MoveAll(StartFold(db0, head), head, ids);
      PlacedInTurn(f, ids, MaxPosition(db0, head)) && MaxPosition(db0, head) < f.next
  {
    if ids != [] {
      var front, i := ids[..|ids| - 1], ids[|ids| - 1];
      assert ids == front + [i];
      MovedInTurn(db0, head, front);
      MovedAll(db0, head, front);
      assert i !in Sorting.Elements(front);
      PlacedNext(MoveAll(StartFold(db0, head), head, front), head, front, i, MaxPosition(db0, head));
    }
  }

  lemma TurnsAreOrder(db0: Db, f: Fold, ids: seq<int>, members: seq<int>, db: Db)
    requires members != [] && PlacedInTurn(f, ids, MaxPosition(db0, members[0])) && db.media == f.db.media
    requires forall i :: i in ids <==> i in db0.media && db0.media[i].postId in members[1..]
    requires InTurn(db0, ids)
    ensures MovedInOrder(db0, db, members)
  {
    forall i, j | IsMoved(db0, db, members, i) && IsMoved(db0, db, members, j)
      ensures db.media[i].position < db.media[j].position <==> Sooner(db0, i, j)
    {
      assert i in ids && j in ids;
      var x :| 0 <= x < |ids| && ids[x] == i;
      var y :| 0 <= y < |ids| && ids[y] == j;
    }
    forall i, q | IsMoved(db0, db, members, i) && MaxPosition(db0, members[0]) < q <= db.media[i].position
      ensures RowAt(db0, db, members, q)
    {
      assert i in ids && Filled(f, ids, q);
      var x :| 0 <= x < |ids| && At(f, ids[x], q);
      assert ids[x] in ids && IsMoved(db0, db, members, ids[x]);
    }
    forall i | IsMoved(db0, db, members, i) ensures MaxPosition(db0, members[0]) < db.media[i].position {
      assert i in ids;
    }
  }

  /** A merged album shows its tails' media in the order of their messages. */
  lemma MergedOrder(db: Db, key: GroupKey, members: seq<int>)
    requires members != [] && members[0] in db.posts && InMsgOrder(db, members)
    requires members[0] !in members[1..] && Sorting.Distinct(members[1..]) && MergeGroup(db, key, members).Some?
    ensures MovedInOrder(db, MergeGroup(db, key, members).value, members)
  {
    var head, tails := members[0], members[1..];
    var ids := TailMedia(db, tails);
    TailMediaIs(db, tails);
    TailMediaInOrder(db, tails);
    MovedAll(db, head, ids);
    MovedInTurn(db, head, ids);
    var f := MoveAll(StartFold(db, head), head, ids);
    MovePosts(StartFold(db, head), head, ids);
    NothingCascades(db, head, tails, Sorting.Elements(ids), f);
    TurnsAreOrder(db, f, ids, members, MergeGroup(db, key, members).value);
  }

  /** The head had the file, or an earlier row of the list with it was moved. */
  ghost predicate HadEarlier(db0: Db, f: Fold, head: int, ids: seq<int>, x: nat)
    requires x < |ids|
  {
    && ids[x] in db0.media
    && (db0.media[ids[x]].file in FilesAt(db0, head) || HasSooner(f, ids, x, db0.media[ids[x]].file))
  }

  predicate HasSooner(f: Fold, ids: seq<int>, x: nat, file: Option<string>)
    requires x <= |ids|
  {
    exists y :: 0 <= y < x && ids[y] in f.db.media && f.db.media[ids[y]].file == file
  }

  lemma EarlierWithFile(db0: Db, head: int, front: seq<int>, f: Fold, file: Option<string>)
    requires Kept(db0, head, Sorting.Elements(front), f) && MovedApart(db0, head, Sorting.Elements(front), f)
    requires file in f.present && file !in FilesAt(db0, head)
    ensures HasSooner(f, front, |front|, file)
  {
    var j :| j in MediaOf(f.db, head) && f.db.media[j].file == file;
    var own, now := db0.media[j], f.db.media[j];
    assert own.postId == head ==> j in MediaOf(db0, head) && own.file in FilesAt(db0, head);
    assert j in Sorting.Elements(front) || own == now;
    var y :| 0 <= y < |front| && front[y] == j;
  }

  lemma {:induction false} DroppedInTurn(db0: Db, head: int, ids: seq<int>)
    requires Sorting.Distinct(ids) && forall i | i in ids :: i in db0.media && db0.media[i].postId != head
    ensures var f := MoveAll(StartFold(db0, head), head, ids);
      AllEarlier(db0, f, head, ids)
  {
    if ids != [] {
      var front, i := ids[..|ids| - 1], ids[|ids| - 1];
      assert ids == front + [i];
      DroppedInTurn(db0, head, front);
      MovedAll(db0, head, front);
      assert i !in Sorting.Elements(front);
      DroppedNext(db0, head, front, i, MoveAll(StartFold(db0, head), head, front));
    }
  }

  ghost predicate AllEarlier(db0: Db, f: Fold, head: int, ids: seq<int>) {
    forall x | 0 <= x < |ids| && ids[x] !in f.db.media :: HadEarlier(db0, f, head, ids, x)
  }

  lemma SoonerStays(f: Fold, g: Fold, front: seq<int>, i: int, x: nat, file: Option<string>)
    requires x <= |front| && i !in front && HasSooner(f, front, x, file)
    requires forall j | j != i && j in f.db.media :: j in g.db.media && g.db.media[j] == f.db.media[j]
    ensures HasSooner(g, front + [i], x, file)
  {
    var y :| 0 <= y < x && front[y] in f.db.media && f.db.media[front[y]].file == file;
    assert front[y] in front && (front + [i])[y] == front[y];
  }

  lemma DroppedNext(db0: Db, head: int, front: seq<int>, i: int, f: Fold)
    requires Kept(db0, head, Sorting.Elements(front), f) && MovedApart(db0, head, Sorting.Elements(front), f)
    requires AllEarlier(db0, f, head, front) && i !in front && i in db0.media && db0.media[i].postId != head
    ensures AllEarlier(db0, MoveOne(f, head, i), head, front + [i])
  {
    var g, ids := MoveOne(f, head, i), front + [i];
    assert i in f.db.media && f.db.media[i] == db0.media[i];
    forall x | 0 <= x < |ids| && ids[x] !in g.db.media ensures HadEarlier(db0, g, head, ids, x) {
      if x < |front| {
        assert ids[x] == front[x] && front[x] in front && HadEarlier(db0, f, head, front, x);
        if db0.media[front[x]].file !in FilesAt(db0, head) {
          SoonerStays(f, g, front, i, x, db0.media[front[x]].file);
        }
      } else if db0.media[i].file !in FilesAt(db0, head) {
        EarlierWithFile(db0, head, front, f, db0.media[i].file);
        SoonerStays(f, g, front, i, |front|, db0.media[i].file);
      }
    }
  }

  /** A row is dropped only for one with its file on the head, or for a sooner one moved. */
  lemma DroppedForSooner(db: Db, key: GroupKey, members: seq<int>, i: int)
    requires members != [] && members[0] in db.posts && InMsgOrder(db, members)
    requires members[0] !in members[1..] && Sorting.Distinct(members[1..]) && MergeGroup(db, key, members).Some?
    requires i in db.media && db.media[i].postId in members[1..] && i !in MergeGroup(db, key, members).value.media
    ensures var db' := MergeGroup(db, key, members).value;
      || db.media[i].file in FilesAt(db, members[0])
      || exists j :: IsMoved(db, db', members, j) && db.media[j].file == db.media[i].file && Sooner(db, j, i)
  {
    var head, tails := members[0], members[1..];
    var ids := TailMedia(db, tails);
    TailMediaIs(db, tails);
    TailMediaInOrder(db, tails);
    MovedAll(db, head, ids);
    DroppedInTurn(db, head, ids);
    MovePosts(StartFold(db, head), head, ids);
    var f := MoveAll(StartFold(db, head), head, ids);
    NothingCascades(db, head, tails, Sorting.Elements(ids), f);
    assert i in ids;
    var x :| 0 <= x < |ids| && ids[x] == i;
    assert HadEarlier(db, f, head, ids, x);
    if db.media[i].file !in FilesAt(db, head) {
      var y :| 0 <= y < x && ids[y] in f.db.media && f.db.media[ids[y]].file == db.media[i].file;
      assert ids[y] in ids && Sooner(db, ids[y], i);
      assert IsMoved(db, MergeGroup(db, key, members).value, members, ids[y]);
    }
  }

  // ---- the whole run --------------------------------------------------------------

  /** Posts of a group among `rows`, in message-id order: `members.sort(...)`. */
  function Members(db: Db, answers: Answers, rows: seq<int>, key: GroupKey): seq<int>
    requires forall p | p in rows :: p in db.posts
  {
    Sorting.Sort(Collected(db, answers, rows, key), ByMessage(db))
  }

  /** `groups[key]` as the grouping loop fills it. */
  function Collected(db: Db, answers: Answers, rows: seq<int>, key: GroupKey): seq<int>
    requires forall p | p in rows :: p in db.posts
  {
    if rows == [] then []
    else
      var last := rows[|rows| - 1];
      assert last in rows;
      Collected(db, answers, rows[..|rows| - 1], key)
      + (if GroupOf(db, answers, last) == Some(key) then [last] else [])
  }

  function MsgId(db: Db, p: int): int { if p in db.posts then db.posts[p].msgId else 0 }

  function ByMessage(db: Db): (int, int) -> bool { (p, q) => MsgId(db, p) <= MsgId(db, q) }

  lemma {:induction false} CollectedAre(db: Db, answers: Answers, rows: seq<int>, key: GroupKey)
    requires forall p | p in rows :: p in db.posts
    ensures forall p :: p in Collected(db, answers, rows, key) <==> p in rows && GroupOf(db, answers, p) == Some(key)
    ensures Sorting.Distinct(rows) ==> Sorting.Distinct(Collected(db, answers, rows, key))
  {
    if rows != [] {
      var front, last := rows[..|rows| - 1], rows[|rows| - 1];
      assert rows == front + [last];
      CollectedAre(db, answers, front, key);
      if Sorting.Distinct(rows) {
        assert last !in front;
        Sorting.DistinctAppend(Collected(db, answers, front, key), if GroupOf(db, answers, last) == Some(key)
          then [last] else []);
      }
    }
  }

  /** The members of a group, each once, the lowest message id first. */
  lemma MembersAre(db: Db, answers: Answers, rows: seq<int>, key: GroupKey)
    requires forall p | p in rows :: p in db.posts
    requires Sorting.Distinct(rows)
    ensures var m := Members(db, answers, rows, key);
      && Sorting.Distinct(m)
      && (forall p :: p in m <==> p in rows && GroupOf(db, answers, p) == Some(key))
      && (forall k, l | 0 <= k < l < |m| :: MsgId(db, m[k]) <= MsgId(db, m[l]))
      && (m != [] ==> m[0] !in m[1..] && Sorting.Distinct(m[1..]))
  {
    var c := Collected(db, answers, rows, key);
    CollectedAre(db, answers, rows, key);
    Sorting.SortContents(c, ByMessage(db));
    Sorting.SortOrdered(c, ByMessage(db));
    Sorting.SortDistinct(c, ByMessage(db));
  }

  /** After the groups `done`: each is folded into its head, all else is as it was. */
  ghost predicate Folded(db0: Db, db: Db, answers: Answers, rows: seq<int>, done: set<GroupKey>)
    requires forall p | p in rows :: p in db0.posts
  {
    && Shrunk(db0, db)
    && (forall p | p in db0.posts && !InDone(db0, answers, rows, done, p) :: Untouched(db0, db, p))
    && (forall key | key in done :: Members(db0, answers, rows, key) != []
                                    && GroupFolded(db0, db, Members(db0, answers, rows, key), key.group))
  }

  predicate InDone(db0: Db, answers: Answers, rows: seq<int>, done: set<GroupKey>, p: int)
    requires forall q | q in rows :: q in db0.posts
  {
    p in rows && GroupOf(db0, answers, p).Some? && GroupOf(db0, answers, p).value in done
  }

  lemma DoneMediaMoved(db0: Db, db: Db, answers: Answers, rows: seq<int>, done: set<GroupKey>, i: int)
    requires (forall q | q in rows :: q in db0.posts) && Sorting.Distinct(rows)
    requires forall k | k in db0.media :: db0.media[k].postId in db0.posts
    requires Folded(db0, db, answers, rows, done) && i in db0.media && i in db.media
    requires InDone(db0, answers, rows, done, db0.media[i].postId)
    ensures InDone(db0, answers, rows, done, db.media[i].postId)
  {
    var q := db0.media[i].postId;
    var key := GroupOf(db0, answers, q).value;
    MembersAre(db0, answers, rows, key);
    var m := Members(db0, answers, rows, key);
    assert q == m[0] || q in m[1..];
    assert db.media[i].postId == m[0];
  }

  lemma UntouchedMedia(db0: Db, db: Db, answers: Answers, rows: seq<int>, done: set<GroupKey>, p: int)
    requires (forall q | q in rows :: q in db0.posts) && Sorting.Distinct(rows)
    requires forall i | i in db0.media :: db0.media[i].postId in db0.posts
    requires Folded(db0, db, answers, rows, done) && p in db0.posts && !InDone(db0, answers, rows, done, p)
    ensures MediaOf(db, p) == MediaOf(db0, p) && FilesAt(db, p) == FilesAt(db0, p)
      && PositionsAt(db, p) == PositionsAt(db0, p)
  {
    forall i | i in MediaOf(db, p) ensures i in MediaOf(db0, p) {
      var q := db0.media[i].postId;
      if InDone(db0, answers, rows, done, q) {
        DoneMediaMoved(db0, db, answers, rows, done, i);
      } else {
        assert Untouched(db0, db, q);
      }
    }
    assert Untouched(db0, db, p);
    assert forall i | i in MediaOf(db0, p) :: i in MediaOf(db, p);
    assert MediaOf(db, p) == MediaOf(db0, p);
  }

  lemma OtherGroupStays(db0: Db, dbk: Db, db: Db, members: seq<int>, group: int)
    requires members != [] && Shrunk(db0, dbk) && Shrunk(dbk, db) && GroupFolded(db0, dbk, members, group)
    requires Untouched(dbk, db, members[0])
    ensures GroupFolded(db0, db, members, group)
  {
    var head := members[0];
    forall i | i in db0.media && db0.media[i].postId in members[1..]
      ensures db0.media[i].file in FilesAt(db, head)
    {
      var j :| j in MediaOf(dbk, head) && dbk.media[j].file == db0.media[i].file;
      assert j in MediaOf(db, head) && db.media[j].file == db0.media[i].file;
    }
    forall i | i in db0.media && i in db.media && db0.media[i].postId in members[1..]
      ensures i in dbk.media && db.media[i] == dbk.media[i]
    {
      assert dbk.media[i].postId == head;
    }
  }

  lemma NewGroupFolds(db0: Db, dbk: Db, db: Db, members: seq<int>, group: int)
    requires members != [] && GroupFolded(dbk, db, members, group)
    requires forall p | p in members :: p in db0.posts && Untouched(db0, dbk, p)
    requires FilesAt(dbk, members[0]) == FilesAt(db0, members[0])
      && PositionsAt(dbk, members[0]) == PositionsAt(db0, members[0])
    ensures GroupFolded(db0, db, members, group)
  {
    assert members[0] in members;
    forall i | i in db0.media && (db0.media[i].postId == members[0] || db0.media[i].postId in members[1..])
      ensures i in dbk.media && dbk.media[i] == db0.media[i]
    {
      assert db0.media[i].postId in members;
    }
  }

  lemma FoldStep(db0: Db, dbk: Db, answers: Answers, rows: seq<int>, done: set<GroupKey>, key: GroupKey)
    requires (forall q | q in rows :: q in db0.posts) && Sorting.Distinct(rows)
    requires forall i | i in db0.media :: db0.media[i].postId in db0.posts
    requires Folded(db0, dbk, answers, rows, done) && key !in done && Members(db0, answers, rows, key) != []
    ensures var m := Members(db0, answers, rows, key);
      && m[0] in dbk.posts && m[0] !in m[1..]
      && (MergeGroup(dbk, key, m).Some? ==> Folded(db0, MergeGroup(dbk, key, m).value, answers, rows, done + {key}))
  {
    var m := Members(db0, answers, rows, key);
    MembersAre(db0, answers, rows, key);
    assert m[0] in m;
    forall p | p in m ensures p in db0.posts && Untouched(db0, dbk, p) {
      assert !InDone(db0, answers, rows, done, p);
    }
    if MergeGroup(dbk, key, m).Some? {
      var db := MergeGroup(dbk, key, m).value;
      MergedGroup(dbk, key, m);
      UntouchedMedia(db0, dbk, answers, rows, done, m[0]);
      NewGroupFolds(db0, dbk, db, m, key.group);
      forall p | p in db0.posts && !InDone(db0, answers, rows, done + {key}, p)
        ensures Untouched(db0, db, p)
      {
        assert p !in m;
        assert Untouched(db0, dbk, p) && Untouched(dbk, db, p);
      }
      forall k | k in done
        ensures Members(db0, answers, rows, k) != [] && GroupFolded(db0, db, Members(db0, answers, rows, k), k.group)
      {
        MembersAre(db0, answers, rows, k);
        assert Members(db0, answers, rows, k)[0] in Members(db0, answers, rows, k);
        OtherGroupStays(db0, dbk, db, Members(db0, answers, rows, k), k.group);
      }
    }
  }

  /** The groups merged one after another, each in a transaction of its own. */
  function MergeRun(db0: Db, answers: Answers, rows: seq<int>, order: seq<GroupKey>): Option<Db>
    requires forall q | q in rows :: q in db0.posts
  {
    if order == [] then Some(db0)
    else
      var r, key := MergeRun(db0, answers, rows, order[..|order| - 1]), order[|order| - 1];
      var m := Members(db0, answers, rows, key);
      if r.None? || m == [] || m[0] !in r.value.posts || m[0] in m[1..] then None
      else MergeGroup(r.value, key, m)
  }

  /** The targets of a run, the groups Telegram reports among them in any order, and
      rows whose posts exist. */
  ghost predicate IsRun(db0: Db, answers: Answers, rows: seq<int>, order: seq<GroupKey>) {
    && (forall q | q in rows :: q in db0.posts) && Sorting.Distinct(rows) && Sorting.Distinct(order)
    && (forall i | i in db0.media :: db0.media[i].postId in db0.posts)
    && (forall key :: key in order <==> Members(db0, answers, rows, key) != [])
  }

  lemma TaggedBefore(db0: Db, dbk: Db, answers: Answers, rows: seq<int>, done: set<GroupKey>, key: GroupKey)
    requires (forall q | q in rows :: q in db0.posts) && Sorting.Distinct(rows)
    requires Folded(db0, dbk, answers, rows, done) && key !in done
    ensures GroupPosts(dbk, key.channel, key.group) == {} <==> GroupPosts(db0, key.channel, key.group) == {}
  {
    forall q | q in GroupPosts(db0, key.channel, key.group) ensures q in GroupPosts(dbk, key.channel, key.group) {
      assert Untouched(db0, dbk, q);
    }
    forall q | q in GroupPosts(dbk, key.channel, key.group) ensures q in GroupPosts(db0, key.channel, key.group) {
      if InDone(db0, answers, rows, done, q) {
        var k := GroupOf(db0, answers, q).value;
        MembersAre(db0, answers, rows, k);
      } else {
        assert Untouched(db0, dbk, q);
      }
    }
  }

  lemma RunStep(db0: Db, dbk: Db, answers: Answers, rows: seq<int>, front: seq<GroupKey>, key: GroupKey)
    requires (forall q | q in rows :: q in db0.posts) && Sorting.Distinct(rows) && key !in front
    requires forall i | i in db0.media :: db0.media[i].postId in db0.posts
    requires Folded(db0, dbk, answers, rows, Sorting.Elements(front)) && Members(db0, answers, rows, key) != []
    ensures var m := Members(db0, answers, rows, key);
      && m[0] in dbk.posts && m[0] !in m[1..]
      && (MergeGroup(dbk, key, m).Some? <==> GroupPosts(db0, key.channel, key.group) == {})
      && (MergeGroup(dbk, key, m).Some? ==>
            Folded(db0, MergeGroup(dbk, key, m).value, answers, rows, Sorting.Elements(front + [key])))
  {
    var done := Sorting.Elements(front);
    assert Sorting.Elements(front + [key]) == done + {key};
    FoldStep(db0, dbk, answers, rows, done, key);
    TaggedBefore(db0, dbk, answers, rows, done, key);
  }

  /** No post carries the tag of a group of the list. */
  predicate TagsFree(db: Db, order: seq<GroupKey>) {
    forall key | key in order :: GroupPosts(db, key.channel, key.group) == {}
  }

  lemma TagsFreeMore(db: Db, front: seq<GroupKey>, key: GroupKey)
    ensures TagsFree(db, front + [key]) <==> TagsFree(db, front) && GroupPosts(db, key.channel, key.group) == {}
  {
    assert forall k | k in front :: k in front + [key];
    assert key in front + [key];
  }

  /** The run over `order` goes through exactly when its tags are free, and then folds
      every group into its head. */
  ghost predicate FoldsIff(db0: Db, answers: Answers, rows: seq<int>, order: seq<GroupKey>)
    requires forall q | q in rows :: q in db0.posts
  {
    var r := MergeRun(db0, answers, rows, order);
    && (r.Some? <==> TagsFree(db0, order))
    && (r.Some? ==> Folded(db0, r.value, answers, rows, Sorting.Elements(order)))
  }

  lemma MergeRunMore(db0: Db, answers: Answers, rows: seq<int>, front: seq<GroupKey>, key: GroupKey)
    requires (forall q | q in rows :: q in db0.posts) && MergeRun(db0, answers, rows, front).Some?
    requires var (m, dbk) := (Members(db0, answers, rows, key), MergeRun(db0, answers, rows, front).value);
      m != [] && m[0] in dbk.posts && m[0] !in m[1..]
    ensures MergeRun(db0, answers, rows, front + [key])
      == MergeGroup(MergeRun(db0, answers, rows, front).value, key, Members(db0, answers, rows, key))
  {
    assert (front + [key])[..|front|] == front;
  }

  lemma FoldsMore(db0: Db, answers: Answers, rows: seq<int>, front: seq<GroupKey>, key: GroupKey)
    requires (forall q | q in rows :: q in db0.posts) && Sorting.Distinct(rows) && key !in front
    requires forall i | i in db0.media :: db0.media[i].postId in db0.posts
    requires FoldsIff(db0, answers, rows, front) && Members(db0, answers, rows, key) != []
    ensures FoldsIff(db0, answers, rows, front + [key])
  {
    var r := MergeRun(db0, answers, rows, front);
    TagsFreeMore(db0, front, key);
    if r.Some? {
      RunStep(db0, r.value, answers, rows, front, key);
      MergeRunMore(db0, answers, rows, front, key);
    } else {
      assert (front + [key])[..|front|] == front;
    }
  }

  /** The run goes through exactly when no post carries the tag of a group to be
      merged; it then folds every group into its head. */
  lemma {:induction false} RunFolds(db0: Db, answers: Answers, rows: seq<int>, order: seq<GroupKey>)
    requires (forall q | q in rows :: q in db0.posts) && Sorting.Distinct(rows) && Sorting.Distinct(order)
    requires forall i | i in db0.media :: db0.media[i].postId in db0.posts
    requires forall key | key in order :: Members(db0, answers, rows, key) != []
    ensures FoldsIff(db0, answers, rows, order)
  {
    if order != [] {
      var front, key := order[..|order| - 1], order[|order| - 1];
      assert order == front + [key];
      RunFolds(db0, answers, rows, front);
      FoldsMore(db0, answers, rows, front, key);
    }
  }

  lemma HeadMediaFromMembers(db0: Db, db: Db, answers: Answers, rows: seq<int>, done: set<GroupKey>, key: GroupKey)
    requires (forall q | q in rows :: q in db0.posts) && Sorting.Distinct(rows)
    requires forall i | i in db0.media :: db0.media[i].postId in db0.posts
    requires Folded(db0, db, answers, rows, done) && key in done
    ensures var m := Members(db0, answers, rows, key);
      m != [] && forall i | i in MediaOf(db, m[0]) :: i in db0.media && db0.media[i].postId in m
  {
    var m := Members(db0, answers, rows, key);
    MembersAre(db0, answers, rows, key);
    assert m[0] in m;
    forall i | i in MediaOf(db, m[0]) ensures i in db0.media && db0.media[i].postId in m {
      var q := db0.media[i].postId;
      if InDone(db0, answers, rows, done, q) {
        var k := GroupOf(db0, answers, q).value;
        var n := Members(db0, answers, rows, k);
        MembersAre(db0, answers, rows, k);
        assert n[0] in n && (q == n[0] || q in n[1..]);
        assert db.media[i].postId == n[0];
      } else {
        assert Untouched(db0, db, q);
      }
    }
  }

  lemma FoldedFiles(db0: Db, db: Db, m: seq<int>)
    requires m != [] && MediaFolded(db0, db, m) && Shrunk(db0, db)
    requires forall i | i in MediaOf(db, m[0]) :: i in db0.media && db0.media[i].postId in m
    ensures SameFiles(db0, m, db, m[0])
  {
    var head := m[0];
    forall f | f in FilesAt(db, head) ensures exists p :: p in m && f in FilesAt(db0, p) {
      var i :| i in MediaOf(db, head) && db.media[i].file == f;
      assert i in MediaOf(db0, db0.media[i].postId) && f in FilesAt(db0, db0.media[i].postId);
    }
    forall p, f | p in m && f in FilesAt(db0, p) ensures f in FilesAt(db, head) {
      var i :| i in MediaOf(db0, p) && db0.media[i].file == f;
      if p == head {
        assert i in MediaOf(db, head);
      } else {
        assert p in m[1..];
      }
    }
  }

  lemma RepeatsAreTheHeads(db0: Db, db: Db, m: seq<int>, i: int, j: int)
    requires m != [] && MediaFolded(db0, db, m) && Shrunk(db0, db)
    requires forall k | k in MediaOf(db, m[0]) :: k in db0.media && db0.media[k].postId in m
    requires i in MediaOf(db, m[0]) && j in MediaOf(db, m[0]) && i != j && db.media[i].file == db.media[j].file
    ensures i in MediaOf(db0, m[0]) && j in MediaOf(db0, m[0])
  {
    forall k | k in MediaOf(db, m[0]) && k !in MediaOf(db0, m[0]) ensures db0.media[k].postId in m[1..] {
      assert db0.media[k].postId in m;
    }
    forall k | k in MediaOf(db0, m[0]) ensures db0.media[k].file in FilesAt(db0, m[0]) {
    }
  }

  /** A file on two rows of a post was on two rows of it before. */
  ghost predicate OwnRepeats(db0: Db, db: Db, p: int) {
    forall i, j | i in MediaOf(db, p) && j in MediaOf(db, p) && i != j && db.media[i].file == db.media[j].file ::
      i in MediaOf(db0, p) && j in MediaOf(db0, p)
  }

  ghost predicate SameFiles(db0: Db, members: seq<int>, db: Db, head: int) {
    forall f :: f in FilesAt(db, head) <==> exists p :: p in members && f in FilesAt(db0, p)
  }

  /** Each head ends with exactly the files its group's members had; a file that is
      on two of its rows was on two of the head's own rows before. */
  lemma FilesConserved(db0: Db, answers: Answers, rows: seq<int>, order: seq<GroupKey>, key: GroupKey)
    requires IsRun(db0, answers, rows, order) && MergeRun(db0, answers, rows, order).Some? && key in order
    ensures var m := Members(db0, answers, rows, key); var db := MergeRun(db0, answers, rows, order).value;
      m != [] && OwnRepeats(db0, db, m[0]) && SameFiles(db0, m, db, m[0])
  {
    var m, db := Members(db0, answers, rows, key), MergeRun(db0, answers, rows, order).value;
    RunFolds(db0, answers, rows, order);
    assert key in Sorting.Elements(order);
    HeadMediaFromMembers(db0, db, answers, rows, Sorting.Elements(order), key);
    FoldedFiles(db0, db, m);
    OnlyOwnRepeats(db0, db, m);
  }

  lemma OnlyOwnRepeats(db0: Db, db: Db, m: seq<int>)
    requires m != [] && MediaFolded(db0, db, m) && Shrunk(db0, db)
    requires forall k | k in MediaOf(db, m[0]) :: k in db0.media && db0.media[k].postId in m
    ensures OwnRepeats(db0, db, m[0])
  {
    forall i, j | i in MediaOf(db, m[0]) && j in MediaOf(db, m[0]) && i != j && db.media[i].file == db.media[j].file
      ensures i in MediaOf(db0, m[0]) && j in MediaOf(db0, m[0])
    {
      RepeatsAreTheHeads(db0, db, m, i, j);
    }
  }

  /** A second run with the same answers finds nothing to do: no post that is left
      belongs to a group it is not tagged with. */
  lemma SecondRunFindsNothing(db0: Db, answers: Answers, rows: seq<int>, order: seq<GroupKey>, rows': seq<int>)
    requires IsRun(db0, answers, rows, order) && MergeRun(db0, answers, rows, order).Some?
    requires forall p | p in db0.posts && GroupOf(db0, answers, p).Some? :: p in rows
    requires forall p | p in rows' :: p in MergeRun(db0, answers, rows, order).value.posts
    ensures var db := MergeRun(db0, answers, rows, order).value;
      Met(db, answers, rows') == [] && MergeRun(db, answers, rows', Met(db, answers, rows')) == Some(db)
  {
    var db, done := MergeRun(db0, answers, rows, order).value, Sorting.Elements(order);
    RunFolds(db0, answers, rows, order);
    forall p | p in rows' ensures GroupOf(db, answers, p).None? {
      if GroupOf(db0, answers, p).Some? {
        var k := GroupOf(db0, answers, p).value;
        MembersAre(db0, answers, rows, k);
        assert p in Members(db0, answers, rows, k);
        assert k in done && GroupFolded(db0, db, Members(db0, answers, rows, k), k.group);
      } else {
        assert Untouched(db0, db, p);
      }
    }
    MetNothing(db, answers, rows');
  }

  lemma {:induction false} MetNothing(db: Db, answers: Answers, rows: seq<int>)
    requires forall p | p in rows :: p in db.posts && GroupOf(db, answers, p).None?
    ensures Met(db, answers, rows) == []
  {
    if rows != [] {
      assert rows[|rows| - 1] in rows;
      MetNothing(db, answers, rows[..|rows| - 1]);
    }
  }

  // ---- in place -------------------------------------------------------------------

  method MergeMembers(tables: Tables, key: GroupKey, members: seq<int>) returns (ok: bool)
    requires members != [] && members[0] in tables.posts && members[0] !in members[1..]
      && Sorting.Distinct(members[1..])
    modifies tables
    ensures ok == MergeGroup(old(tables.View()), key, members).Some?
    ensures tables.View() == if ok then MergeGroup(old(tables.View()), key, members).value else old(tables.View())
  {
    ghost var db := tables.View();
    var head := members[0];
    if GroupPosts(tables.View(), key.channel, key.group) != {} {
      return false;
    }
    if |members| == 1 {
      assert TailMedia(db, members[1..]) == [];
      assert DeletePosts(db, members[1..]) == db;
      tables.posts := tables.posts[head := tables.posts[head].(group := Some(key.group))];
      return true;
    }
    MovePosts(StartFold(db, head), head, TailMedia(db, members[1..]));
    MoveTails(tables, head, members[1..]);
    tables.media := map i | i in tables.media && tables.media[i].postId !in members[1..] :: tables.media[i];
    tables.posts := map p | p in tables.posts && p !in members[1..] :: tables.posts[p];
    tables.posts := tables.posts[head := tables.posts[head].(group := Some(key.group))];
    ok := true;
  }

  /** The two inner loops of a merge. */
  method MoveTails(tables: Tables, head: int, tails: seq<int>)
    requires head !in tails && Sorting.Distinct(tails)
    modifies tables
    ensures tables.View() == MoveAll(StartFold(old(tables.View()), head), head, TailMedia(old(tables.View()), tails)).db
  {
    ghost var db := tables.View();
    ghost var start := StartFold(db, head);
    var present, next := FilesAt(tables.View(), head), MaxPosition(tables.View(), head) + 1;
    for k := 0 to |tails|
      invariant Fold(tables.View(), present, next) == MoveAll(start, head, TailMedia(db, tails[..k]))
    {
      TailUntouched(db, head, tails[..k], tails[k], tables.View());
      var ids := Ascending(MediaOf(tables.View(), tails[k]));
      NextTail(db, start, head, tails, k, ids);
      assert forall j | 0 <= j < |ids| :: ids[j] in ids;
      present, next := MoveRows(tables, head, ids, present, next);
    }
    assert tails[..|tails|] == tails;
  }

  lemma NextTail(db: Db, start: Fold, head: int, tails: seq<int>, k: nat, ids: seq<int>)
    requires k < |tails| && ids == Ascending(MediaOf(db, tails[k]))
    ensures MoveAll(MoveAll(start, head, TailMedia(db, tails[..k])), head, ids)
      == MoveAll(start, head, TailMedia(db, tails[..k + 1]))
  {
    MoveAllAppend(start, head, TailMedia(db, tails[..k]), ids);
    assert tails[..k + 1][..k] == tails[..k];
  }

  /** The loop over one tail's media. */
  method MoveRows(tables: Tables, head: int, ids: seq<int>, present0: set<Option<string>>, next0: int)
    returns (present: set<Option<string>>, next: int)
    requires Sorting.Distinct(ids) && forall k | 0 <= k < |ids| :: ids[k] in tables.media
    modifies tables
    ensures Fold(tables.View(), present, next) == MoveAll(Fold(old(tables.View()), present0, next0), head, ids)
  {
    present, next := present0, next0;
    for j := 0 to |ids|
      invariant Fold(tables.View(), present, next) == MoveAll(Fold(old(tables.View()), present0, next0), head, ids[..j])
      invariant forall k | j <= k < |ids| :: ids[k] in tables.media
    {
      var i := ids[j];
      assert ids[..j + 1][..j] == ids[..j];
      if tables.media[i].file in present {
        tables.media := tables.media - {i};
      } else {
        present := present + {tables.media[i].file};
        tables.media := tables.media[i := tables.media[i].(postId := head, position := next)];
        next := next + 1;
      }
    }
    assert ids[..|ids|] == ids;
  }

  lemma {:induction false} MoveAllAppend(f: Fold, head: int, a: seq<int>, b: seq<int>)
    ensures MoveAll(f, head, a + b) == MoveAll(MoveAll(f, head, a), head, b)
  {
    if b == [] {
      assert a + b == a;
    } else {
      assert (a + b)[..|a| + |b| - 1] == a + b[..|b| - 1];
      MoveAllAppend(f, head, a, b[..|b| - 1]);
    }
  }

  /** Moving the media of some tails leaves another tail's media alone. */
  lemma TailUntouched(db: Db, head: int, tails: seq<int>, tail: int, now: Db)
    requires head !in tails && head != tail && tail !in tails && Sorting.Distinct(tails)
    requires now == MoveAll(StartFold(db, head), head, TailMedia(db, tails)).db
    ensures MediaOf(now, tail) == MediaOf(db, tail)
  {
    var ids := TailMedia(db, tails);
    TailMediaIs(db, tails);
    MovedAll(db, head, ids);
    forall i | i in MediaOf(now, tail) ensures i in MediaOf(db, tail) {
      assert i in Sorting.Elements(ids) || now.media[i] == db.media[i];
    }
    forall i | i in MediaOf(db, tail) ensures i in MediaOf(now, tail) {
      assert i !in Sorting.Elements(ids);
    }
  }

  /** The grouping loop: the groups in the order they are met. */
  function Met(db: Db, answers: Answers, rows: seq<int>): seq<GroupKey>
    requires forall p | p in rows :: p in db.posts
  {
    if rows == [] then []
    else
      var last, before := rows[|rows| - 1], Met(db, answers, rows[..|rows| - 1]);
      assert last in rows;
      var g := GroupOf(db, answers, last);
      if g.None? || g.value in before then before else before + [g.value]
  }

  lemma {:induction false} MetAll(db: Db, answers: Answers, rows: seq<int>)
    requires forall p | p in rows :: p in db.posts
    ensures Sorting.Distinct(Met(db, answers, rows))
    ensures forall key :: key in Met(db, answers, rows) <==> Collected(db, answers, rows, key) != []
  {
    if rows != [] {
      MetAll(db, answers, rows[..|rows| - 1]);
    }
  }

  lemma MembersEmpty(db: Db, answers: Answers, rows: seq<int>, key: GroupKey)
    requires forall p | p in rows :: p in db.posts
    ensures Members(db, answers, rows, key) == [] <==> Collected(db, answers, rows, key) == []
  {
    Sorting.SortContents(Collected(db, answers, rows, key), ByMessage(db));
  }

  method GroupRows(db: Db, answers: Answers, rows: seq<int>)
      returns (order: seq<GroupKey>, groups: map<GroupKey, seq<int>>)
    requires (forall p | p in rows :: p in db.posts)
    ensures order == Met(db, answers, rows)
    ensures forall key :: key in groups <==> key in order
    ensures forall key | key in groups :: groups[key] == Collected(db, answers, rows, key)
  {
    order, groups := [], map[];
    for k := 0 to |rows|
      invariant order == Met(db, answers, rows[..k])
      invariant forall key :: key in groups <==> key in order
      invariant forall key | key in groups :: groups[key] == Collected(db, answers, rows[..k], key)
      invariant forall key | key !in groups :: Collected(db, answers, rows[..k], key) == []
    {
      assert rows[..k + 1][..k] == rows[..k];
      var g := GroupOf(db, answers, rows[k]);
      if g.Some? {
        if g.value !in groups {
          order := order + [g.value];
        }
        groups := groups[g.value := (if g.value in groups then groups[g.value] else []) + [rows[k]]];
      }
    }
    assert rows[..|rows|] == rows;
  }

  lemma MetIsRun(db: Db, answers: Answers, rows: seq<int>)
    requires (forall p | p in rows :: p in db.posts) && Sorting.Distinct(rows)
    requires forall i | i in db.media :: db.media[i].postId in db.posts
    ensures IsRun(db, answers, rows, Met(db, answers, rows))
  {
    MetAll(db, answers, rows);
    forall key ensures key in Met(db, answers, rows) <==> Members(db, answers, rows, key) != [] {
      MembersEmpty(db, answers, rows, key);
    }
  }

  lemma NextGroup(db: Db, dbk: Db, answers: Answers, rows: seq<int>, order: seq<GroupKey>, k: nat)
    requires IsRun(db, answers, rows, order) && k < |order| && MergeRun(db, answers, rows, order[..k]) == Some(dbk)
    ensures var m := Members(db, answers, rows, order[k]);
      && m != [] && m[0] in dbk.posts && m[0] !in m[1..] && Sorting.Distinct(m[1..])
      && MergeRun(db, answers, rows, order[..k + 1]) == MergeGroup(dbk, order[k], m)
      && dbk.posts[m[0]].channel == order[k].channel
    ensures MergeRun(db, answers, rows, order[..k + 1]).None?
      <==> GroupPosts(db, order[k].channel, order[k].group) != {}
  {
    var front, key := order[..k], order[k];
    assert order[..k + 1] == front + [key];
    FoldedSoFar(db, dbk, answers, rows, order, k);
    MembersAre(db, answers, rows, key);
    RunStep(db, dbk, answers, rows, front, key);
    MergeRunMore(db, answers, rows, front, key);
    HeadStays(db, dbk, answers, rows, Sorting.Elements(front), key);
  }

  lemma HeadStays(db: Db, dbk: Db, answers: Answers, rows: seq<int>, done: set<GroupKey>, key: GroupKey)
    requires (forall q | q in rows :: q in db.posts) && Sorting.Distinct(rows) && key !in done
    requires Folded(db, dbk, answers, rows, done) && Members(db, answers, rows, key) != []
    ensures var head := Members(db, answers, rows, key)[0];
      head in dbk.posts && dbk.posts[head].channel == key.channel
  {
    var m := Members(db, answers, rows, key);
    MembersAre(db, answers, rows, key);
    assert m[0] in m;
    assert !InDone(db, answers, rows, done, m[0]) && Untouched(db, dbk, m[0]);
  }

  /** However many groups a run has merged, the tables keep every index. */
  lemma {:induction false} RunKeepsIndexes(db: Db, answers: Answers, rows: seq<int>, order: seq<GroupKey>, k: nat)
    requires Valid(db) && IsRun(db, answers, rows, order) && k <= |order|
    requires MergeRun(db, answers, rows, order[..k]).Some?
    ensures Valid(MergeRun(db, answers, rows, order[..k]).value)
    decreases k
  {
    if k > 0 {
      assert order[..k][..k - 1] == order[..k - 1];
      var dbk := MergeRun(db, answers, rows, order[..k - 1]).value;
      RunKeepsIndexes(db, answers, rows, order, k - 1);
      NextGroup(db, dbk, answers, rows, order, k - 1);
      MergeKeepsIndexes(dbk, order[k - 1], Members(db, answers, rows, order[k - 1]));
    }
  }

  // ---- the order over a run ---------------------------------------------------------

  lemma MembersInOrder(db: Db, answers: Answers, rows: seq<int>, key: GroupKey)
    requires Valid(db) && (forall q | q in rows :: q in db.posts) && Sorting.Distinct(rows)
    ensures InMsgOrder(db, Members(db, answers, rows, key))
  {
    var m := Members(db, answers, rows, key);
    MembersAre(db, answers, rows, key);
    forall a, b | 0 <= a < b < |m| ensures MsgId(db, m[a]) < MsgId(db, m[b]) {
      assert m[a] in m && m[b] in m && m[a] != m[b];
      assert !AtMessage(db.posts[m[a]], db.posts[m[b]].channel, db.posts[m[b]].msgId);
    }
  }

  /** The members' posts and media are in `dbk` as they were in `db0`. */
  ghost predicate MembersKept(db0: Db, dbk: Db, members: seq<int>)
    requires members != []
  {
    && (forall p | p in members :: MsgId(dbk, p) == MsgId(db0, p))
    && (forall i | i in db0.media && db0.media[i].postId in members :: i in dbk.media && dbk.media[i] == db0.media[i])
    && (forall i | i in dbk.media && dbk.media[i].postId in members :: i in db0.media && dbk.media[i] == db0.media[i])
    && MaxPosition(dbk, members[0]) == MaxPosition(db0, members[0])
  }

  lemma OrderFromStart(db0: Db, dbk: Db, db: Db, members: seq<int>)
    requires members != [] && MembersKept(db0, dbk, members) && MovedInOrder(dbk, db, members)
    ensures MovedInOrder(db0, db, members)
  {
    forall i ensures IsMoved(db0, db, members, i) <==> IsMoved(dbk, db, members, i) {
      assert i in db0.media && db0.media[i].postId in members[1..] ==> db0.media[i].postId in members;
      assert i in dbk.media && dbk.media[i].postId in members[1..] ==> dbk.media[i].postId in members;
    }
    forall i, j | IsMoved(db0, db, members, i) && IsMoved(db0, db, members, j)
      ensures Sooner(db0, i, j) <==> Sooner(dbk, i, j)
    {
      assert db0.media[i].postId in members && db0.media[j].postId in members;
    }
    forall i, q | IsMoved(db0, db, members, i) && MaxPosition(db0, members[0]) < q <= db.media[i].position
      ensures RowAt(db0, db, members, q)
    {
      assert RowAt(dbk, db, members, q);
    }
  }

  lemma OrderStays(db0: Db, dbk: Db, db: Db, members: seq<int>, group: int)
    requires members != [] && MovedInOrder(db0, dbk, members) && GroupFolded(db0, dbk, members, group)
    requires Shrunk(dbk, db) && Untouched(dbk, db, members[0])
    ensures MovedInOrder(db0, db, members)
  {
    forall i ensures IsMoved(db0, db, members, i) <==> IsMoved(db0, dbk, members, i) {
    }
    forall i | IsMoved(db0, db, members, i) ensures db.media[i] == dbk.media[i] {
      assert IsMoved(db0, dbk, members, i);
    }
    forall i, q | IsMoved(db0, db, members, i) && MaxPosition(db0, members[0]) < q <= db.media[i].position
      ensures RowAt(db0, db, members, q)
    {
      assert RowAt(db0, dbk, members, q);
      var j :| IsMoved(db0, dbk, members, j) && dbk.media[j].position == q;
      assert IsMoved(db0, db, members, j);
    }
  }

  lemma KeptTillNow(db: Db, dbk: Db, answers: Answers, rows: seq<int>, done: set<GroupKey>, key: GroupKey)
    requires (forall q | q in rows :: q in db.posts) && Sorting.Distinct(rows) && key !in done
    requires forall i | i in db.media :: db.media[i].postId in db.posts
    requires Folded(db, dbk, answers, rows, done) && Members(db, answers, rows, key) != []
    ensures MembersKept(db, dbk, Members(db, answers, rows, key))
  {
    var m := Members(db, answers, rows, key);
    MembersAre(db, answers, rows, key);
    forall p | p in m
      ensures Untouched(db, dbk, p) && p in db.posts
      ensures MediaOf(dbk, p) == MediaOf(db, p) && PositionsAt(dbk, p) == PositionsAt(db, p)
    {
      UntouchedMedia(db, dbk, answers, rows, done, p);
    }
    assert m[0] in m;
    forall i | i in dbk.media && dbk.media[i].postId in m ensures i in db.media && dbk.media[i] == db.media[i] {
      assert i in MediaOf(dbk, dbk.media[i].postId);
    }
  }

  ghost predicate AllInOrder(db: Db, now: Db, answers: Answers, rows: seq<int>, order: seq<GroupKey>, k: nat)
    requires (forall q | q in rows :: q in db.posts) && k <= |order|
  {
    forall a | 0 <= a < k ::
      Members(db, answers, rows, order[a]) != [] && MovedInOrder(db, now, Members(db, answers, rows, order[a]))
  }

  /** However many groups a run has merged, each album's media stand in the order of its
      messages behind those of its first. */
  lemma {:induction false} RunKeepsOrder(db: Db, answers: Answers, rows: seq<int>, order: seq<GroupKey>, k: nat)
    requires Valid(db) && IsRun(db, answers, rows, order) && k <= |order|
    requires MergeRun(db, answers, rows, order[..k]).Some?
    ensures AllInOrder(db, MergeRun(db, answers, rows, order[..k]).value, answers, rows, order, k)
    decreases k
  {
    if k > 0 {
      assert order[..k][..k - 1] == order[..k - 1];
      var dbk, key := MergeRun(db, answers, rows, order[..k - 1]).value, order[k - 1];
      RunKeepsOrder(db, answers, rows, order, k - 1);
      NextGroup(db, dbk, answers, rows, order, k - 1);
      NextInOrder(db, dbk, answers, rows, order, k - 1);
      forall a | 0 <= a < k - 1 ensures Members(db, answers, rows, order[a]) != [] && MovedInOrder(db,
        MergeRun(db, answers, rows, order[..k]).value, Members(db, answers, rows, order[a])) {
        EarlierInOrder(db, dbk, answers, rows, order, k - 1, a);
      }
    }
  }

  lemma FoldedSoFar(db: Db, dbk: Db, answers: Answers, rows: seq<int>, order: seq<GroupKey>, k: nat)
    requires IsRun(db, answers, rows, order) && k < |order| && MergeRun(db, answers, rows, order[..k]) == Some(dbk)
    ensures Folded(db, dbk, answers, rows, Sorting.Elements(order[..k])) && order[k] !in Sorting.Elements(order[..k])
    ensures Members(db, answers, rows, order[k]) != []
  {
    assert forall i | 0 <= i < k :: order[..k][i] == order[i] && order[i] in order;
    RunFolds(db, answers, rows, order[..k]);
    assert order[k] in order;
  }

  lemma NextInOrder(db: Db, dbk: Db, answers: Answers, rows: seq<int>, order: seq<GroupKey>, k: nat)
    requires Valid(db) && IsRun(db, answers, rows, order) && k < |order|
    requires MergeRun(db, answers, rows, order[..k]) == Some(dbk)
    requires var m := Members(db, answers, rows, order[k]);
      m != [] && m[0] in dbk.posts && m[0] !in m[1..] && Sorting.Distinct(m[1..])
      && MergeGroup(dbk, order[k], m).Some?
    ensures var m := Members(db, answers, rows, order[k]);
      MovedInOrder(db, MergeGroup(dbk, order[k], m).value, m)
  {
    var m := Members(db, answers, rows, order[k]);
    FoldedSoFar(db, dbk, answers, rows, order, k);
    KeptTillNow(db, dbk, answers, rows, Sorting.Elements(order[..k]), order[k]);
    MembersInOrder(db, answers, rows, order[k]);
    assert forall a | 0 <= a < |m| :: m[a] in m;
    MergedOrder(dbk, order[k], m);
    OrderFromStart(db, dbk, MergeGroup(dbk, order[k], m).value, m);
  }

  lemma EarlierInOrder(db: Db, dbk: Db, answers: Answers, rows: seq<int>, order: seq<GroupKey>, k: nat, a: nat)
    requires Valid(db) && IsRun(db, answers, rows, order) && a < k < |order|
    requires MergeRun(db, answers, rows, order[..k]) == Some(dbk) && AllInOrder(db, dbk, answers, rows, order, k)
    requires var m := Members(db, answers, rows, order[k]);
      m != [] && m[0] in dbk.posts && m[0] !in m[1..] && Sorting.Distinct(m[1..])
      && MergeGroup(dbk, order[k], m).Some?
    ensures var n := Members(db, answers, rows, order[a]);
      n != [] && MovedInOrder(db, MergeGroup(dbk, order[k], Members(db, answers, rows, order[k])).value, n)
  {
    var m, n := Members(db, answers, rows, order[k]), Members(db, answers, rows, order[a]);
    FoldedSoFar(db, dbk, answers, rows, order, k);
    MergedGroup(dbk, order[k], m);
    MembersAre(db, answers, rows, order[k]);
    MembersAre(db, answers, rows, order[a]);
    assert n[0] in n && n[0] !in m;
    assert order[..k][a] == order[a] && order[a] in Sorting.Elements(order[..k]);
    OrderStays(db, dbk, MergeGroup(dbk, order[k], m).value, n, order[a].group);
  }

  /** What a merged group adds to the number a run returns. */
  function Counted(members: seq<int>): nat {
    if |members| <= 1 then |members| else |members| - 1
  }

  function Reported(db: Db, answers: Answers, rows: seq<int>, order: seq<GroupKey>): nat
    requires forall p | p in rows :: p in db.posts
  {
    if order == [] then 0
    else
      Reported(db, answers, rows, order[..|order| - 1]) + Counted(Members(db, answers, rows, order[|order| - 1]))
  }

  lemma ReportedMore(db: Db, answers: Answers, rows: seq<int>, order: seq<GroupKey>, k: nat)
    requires (forall p | p in rows :: p in db.posts) && k < |order|
    ensures Reported(db, answers, rows, order[..k + 1])
      == Reported(db, answers, rows, order[..k]) + Counted(Members(db, answers, rows, order[k]))
  {
    assert order[..k + 1][..k] == order[..k];
  }

  /** Groups of which only one post was found. */
  function Lone(db: Db, answers: Answers, rows: seq<int>, order: seq<GroupKey>): nat
    requires forall p | p in rows :: p in db.posts
  {
    if order == [] then 0
    else
      Lone(db, answers, rows, order[..|order| - 1])
        + if |Members(db, answers, rows, order[|order| - 1])| == 1 then 1 else 0
  }

  lemma {:induction false} KeysWithout(s: set<int>, ps: seq<int>)
    requires Sorting.Distinct(ps) && forall p | p in ps :: p in s
    ensures |s - Sorting.Elements(ps)| + |ps| == |s|
  {
    Sorting.DistinctBySize(ps);
    assert s == (s - Sorting.Elements(ps)) + Sorting.Elements(ps);
  }

  lemma PostsFewer(dbk: Db, key: GroupKey, m: seq<int>)
    requires m != [] && m[0] in dbk.posts && m[0] !in m[1..] && MergeGroup(dbk, key, m).Some?
    requires Sorting.Distinct(m[1..]) && forall p | p in m :: p in dbk.posts
    ensures |MergeGroup(dbk, key, m).value.posts| + Counted(m) == |dbk.posts| + if |m| == 1 then 1 else 0
  {
    var db := MergeGroup(dbk, key, m).value;
    MovePosts(StartFold(dbk, m[0]), m[0], TailMedia(dbk, m[1..]));
    assert db.posts.Keys == dbk.posts.Keys - Sorting.Elements(m[1..]);
    KeysWithout(dbk.posts.Keys, m[1..]);
    assert |db.posts| == |db.posts.Keys| && |dbk.posts| == |dbk.posts.Keys|;
  }

  /** The number returned is described as the posts deleted. It is that and one more for
      each group of which only one post was found, which is tagged and not deleted. */
  lemma {:induction false} ReportedIs(db: Db, answers: Answers, rows: seq<int>, order: seq<GroupKey>, k: nat)
    requires IsRun(db, answers, rows, order) && k <= |order| && MergeRun(db, answers, rows, order[..k]).Some?
    ensures |MergeRun(db, answers, rows, order[..k]).value.posts| + Reported(db, answers, rows, order[..k])
      == |db.posts| + Lone(db, answers, rows, order[..k])
    decreases k
  {
    if k > 0 {
      assert order[..k][..k - 1] == order[..k - 1];
      ReportedIs(db, answers, rows, order, k - 1);
      var dbk, m := MergeRun(db, answers, rows, order[..k - 1]).value, Members(db, answers, rows, order[k - 1]);
      NextGroup(db, dbk, answers, rows, order, k - 1);
      MembersLeft(db, dbk, answers, rows, order, k - 1);
      PostsFewer(dbk, order[k - 1], m);
    }
  }

  lemma MembersLeft(db: Db, dbk: Db, answers: Answers, rows: seq<int>, order: seq<GroupKey>, k: nat)
    requires IsRun(db, answers, rows, order) && k < |order| && MergeRun(db, answers, rows, order[..k]) == Some(dbk)
    ensures var m := Members(db, answers, rows, order[k]); Sorting.Distinct(m) && forall p | p in m :: p in dbk.posts
  {
    MembersAre(db, answers, rows, order[k]);
    assert forall i | 0 <= i < k :: order[..k][i] == order[i] && order[i] in order;
    RunFolds(db, answers, rows, order[..k]);
    assert order[k] !in order[..k];
    forall p | p in Members(db, answers, rows, order[k]) ensures p in dbk.posts {
      assert !InDone(db, answers, rows, Sorting.Elements(order[..k]), p);
      assert Untouched(db, dbk, p);
    }
  }

  /** The groups before the `k`-th are merged and committed; the `k`-th one's tag was
      taken from the start. */
  ghost predicate HaltedAt(db: Db, answers: Answers, rows: seq<int>, order: seq<GroupKey>, k: nat, now: Db)
    requires (forall p | p in rows :: p in db.posts) && k < |order|
  {
    MergeRun(db, answers, rows, order[..k]) == Some(now) && GroupPosts(db, order[k].channel, order[k].group) != {}
  }

  ghost predicate Halted(db: Db, answers: Answers, rows: seq<int>, order: seq<GroupKey>, now: Db)
    requires forall p | p in rows :: p in db.posts
  {
    exists k: nat | k < |order| :: HaltedAt(db, answers, rows, order, k, now)
  }

  /** `merge_existing_albums`, on the target posts `rows`. Stops at a broken index,
      keeping the groups already committed. */
  method MergeExistingAlbums(tables: Tables, answers: Answers, rows: seq<int>) returns (ok: bool, total: nat)
    requires (forall p | p in rows :: p in tables.posts) && Sorting.Distinct(rows)
    requires forall i | i in tables.media :: tables.media[i].postId in tables.posts
    modifies tables
    ensures var db := old(tables.View()); var order := Met(db, answers, rows);
      && IsRun(db, answers, rows, order)
      && ok == MergeRun(db, answers, rows, order).Some?
      && (ok ==> tables.View() == MergeRun(db, answers, rows, order).value)
      && (ok ==> total == Reported(db, answers, rows, order))
      && (!ok ==> Halted(db, answers, rows, order, tables.View()))
  {
    ghost var db := tables.View();
    MetIsRun(db, answers, rows);
    var order, groups := GroupRows(tables.View(), answers, rows);
    var byMessage := ByMessage(tables.View());
    total := 0;
    for k := 0 to |order|
      invariant MergeRun(db, answers, rows, order[..k]) == Some(tables.View())
      invariant total == Reported(db, answers, rows, order[..k])
    {
      NextGroup(db, tables.View(), answers, rows, order, k);
      assert order[k] in order;
      var members := Sorting.Sort(groups[order[k]], byMessage);
      ok := MergeMembers(tables, order[k], members);
      if !ok {
        assert HaltedAt(db, answers, rows, order, k, tables.View());
        RunStops(db, answers, rows, order, k + 1);
        return;
      }
      ReportedMore(db, answers, rows, order, k);
      total := total + if |members| == 1 then 1 else |members| - 1;
    }
    assert order[..|order|] == order;
    ok := true;
  }

  lemma {:induction false} RunStops(db0: Db, answers: Answers, rows: seq<int>, order: seq<GroupKey>, k: nat)
    requires (forall q | q in rows :: q in db0.posts) && k <= |order|
    requires MergeRun(db0, answers, rows, order[..k]).None?
    ensures MergeRun(db0, answers, rows, order).None?
    decreases |order|
  {
    if k == |order| {
      assert order[..k] == order;
    } else {
      assert order[..|order| - 1][..k] == order[..k];
      RunStops(db0, answers, rows, order[..|order| - 1], k);
    }
  }
}
