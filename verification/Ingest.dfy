/** The four feeds (live, catch-up, history, last days): how messages become posts,
    and why replaying them in any chunks gives the same posts. */
module Ingest {
  import opened Prelude
  import opened PostStore
  import Sorting

  /** A Telegram message: id, media group, caption and attached file ids. */
  datatype Message = Message(
    id: int,
    group: Option<int>,
    text: Option<string>,
    photo: Option<string>,
    video: Option<string>,
    document: Option<string>)

  /** `_media_dict_for_msg`: the one file that becomes a media row. */
  function FileOf(m: Message): Option<string> {
    if m.photo.Some? then m.photo else if m.video.Some? then m.video else m.document
  }

  /** A caption counts when it is truthy: neither `None` nor empty. */
  function CaptionOf(m: Message): Option<string> {
    if m.text.Some? && m.text.value == "" then None else m.text
  }

  predicate ById(a: Message, b: Message) { a.id <= b.id }

  /** `sorted(messages, key=lambda m: int(m.id))`. */
  function SortById(s: seq<Message>): seq<Message> { Sorting.Sort(s, ById) }

  function FirstCaption(s: seq<Message>): Option<string> {
    if s == [] then None
    else if CaptionOf(s[0]).Some? then s[0].text
    else FirstCaption(s[1..])
  }

  /** Media rows of messages in id order; a message without media leaves a gap. */
  function AlbumRows(ordered: seq<Message>, from: nat): seq<Row> {
    if ordered == [] then []
    else
      (if FileOf(ordered[0]).Some? then [Row(FileOf(ordered[0]), from)] else [])
      + AlbumRows(ordered[1..], from + 1)
  }

  /** `normalize_album`. */
  function NormalizeAlbum(channel: int, msgs: seq<Message>): (Post, seq<Row>)
    requires msgs != []
  {
    var ordered := SortById(msgs);
    SortedById(msgs);
    (Post(channel, ordered[0].id, ordered[0].group, FirstCaption(ordered)), AlbumRows(ordered, 0))
  }

  /** `normalize_message`. */
  function NormalizeMessage(channel: int, m: Message): (Post, seq<Row>) {
    (Post(channel, m.id, m.group, m.text), AlbumRows([m], 0))
  }

  lemma SortedById(s: seq<Message>)
    ensures Sorting.Ordered(SortById(s), ById) && multiset(SortById(s)) == multiset(s) && |SortById(s)| == |s|
    ensures forall m :: m in SortById(s) <==> m in s
  {
    Sorting.SortOrdered(s, ById);
    Sorting.SortContents(s, ById);
  }

  // ---- what a post is made of ---------------------------------------------------

  /** The file a message is shown with: its photo, else its video, else its document. */
  predicate Shows(m: Message, file: Option<string>) {
    && (m.photo.Some? ==> file == m.photo)
    && (m.photo.None? && m.video.Some? ==> file == m.video)
    && (m.photo.None? && m.video.None? ==> file == m.document)
  }

  predicate Captioned(m: Message) { m.text.Some? && m.text.value != "" }

  /** The text of the first message in id order that has one; none if no message has. */
  ghost predicate IsCaption(msgs: set<Message>, text: Option<string>) {
    if forall m | m in msgs :: !Captioned(m) then text == None
    else exists m ::
      m in msgs && Captioned(m) && text == m.text && forall x | x in msgs && Captioned(x) :: m.id <= x.id
  }

  /** The post of a message, or of some messages of one group: the least id, that message's
      group, and the caption. */
  ghost predicate PostFor(channel: int, msgs: set<Message>, post: Post) {
    && post.channel == channel && IsCaption(msgs, post.text)
    && exists m :: m in msgs && post.msgId == m.id && post.group == m.group && forall x | x in msgs :: m.id <= x.id
  }

  function Earlier(msgs: seq<Message>, id: int): set<Message> { set m | m in msgs && m.id < id }

  /** Each message that shows a file has one row, with that file at the place of the
      message in id order; there are no other rows. */
  ghost predicate RowsFor(msgs: seq<Message>, rows: seq<Row>) {
    && (forall m | m in msgs && !Shows(m, None) :: HasRow(msgs, m, rows))
    && (forall k | 0 <= k < |rows| :: FromMessage(msgs, rows[k]))
    && Increasing(rows)
  }

  predicate HasRow(msgs: seq<Message>, m: Message, rows: seq<Row>) {
    exists k :: 0 <= k < |rows| && RowOf(msgs, m, rows[k])
  }

  ghost predicate FromMessage(msgs: seq<Message>, row: Row) {
    exists m :: m in msgs && !Shows(m, None) && RowOf(msgs, m, row)
  }

  predicate RowOf(msgs: seq<Message>, m: Message, row: Row) {
    Shows(m, row.file) && row.position == |Earlier(msgs, m.id)|
  }

  lemma CaptionWithout(all: set<Message>, m: Message, rest: set<Message>, text: Option<string>)
    requires !Captioned(m) && IsCaption(rest, text) && rest <= all <= rest + {m}
    ensures IsCaption(all, text)
  {
  }

  lemma {:induction false} CaptionOfOrdered(s: seq<Message>)
    requires Sorting.Ordered(s, ById)
    ensures IsCaption(Sorting.Elements(s), FirstCaption(s))
  {
    if s != [] && !Captioned(s[0]) {
      CaptionOfOrdered(s[1..]);
      CaptionWithout(Sorting.Elements(s), s[0], Sorting.Elements(s[1..]), FirstCaption(s));
    } else if s != [] {
      assert forall m | m in s :: s[0].id <= m.id;
    }
  }

  /** An album's post is that of its messages, whatever their order. */
  lemma AlbumPost(channel: int, msgs: seq<Message>)
    requires msgs != []
    ensures PostFor(channel, Sorting.Elements(msgs), NormalizeAlbum(channel, msgs).0)
  {
    var ordered := SortById(msgs);
    SortedById(msgs);
    CaptionOfOrdered(ordered);
    assert Sorting.Elements(ordered) == Sorting.Elements(msgs);
    assert forall m | m in ordered :: ordered[0].id <= m.id;
    assert ordered[0] in ordered;
  }

  /** Row `k` is that of the message at `at[k]`, and only messages without a file have none. */
  predicate RowsOf(ordered: seq<Message>, from: nat, at: seq<nat>, rows: seq<Row>) {
    && Rises(at, |ordered|) && |rows| == |at|
    && (forall i: nat | i < |ordered| :: i in at <==> FileOf(ordered[i]).Some?)
    && (forall k | 0 <= k < |at| :: rows[k] == Row(FileOf(ordered[at[k]]), from + at[k]))
  }

  lemma RowsOfNext(front: seq<Message>, last: Message, from: nat, at: seq<nat>, rows: seq<Row>)
    requires RowsOf(front, from, at, rows)
    ensures FileOf(last).None? ==> RowsOf(front + [last], from, at, rows)
    ensures FileOf(last).Some? ==>
      RowsOf(front + [last], from, at + [|front|], rows + [Row(FileOf(last), from + |front|)])
  {
    assert forall i: nat | i < |front| :: (front + [last])[i] == front[i];
  }

  lemma AlbumRowsHead(m: Message, rest: seq<Message>, from: nat)
    ensures AlbumRows([m] + rest, from)
      == (if FileOf(m).Some? then [Row(FileOf(m), from)] else []) + AlbumRows(rest, from + 1)
  {
    assert ([m] + rest)[1..] == rest;
  }

  lemma {:induction false} AlbumRowsAppend(a: seq<Message>, b: seq<Message>, from: nat)
    ensures AlbumRows(a + b, from) == AlbumRows(a, from) + AlbumRows(b, from + |a|)
  {
    if a == [] {
      assert a + b == b;
    } else {
      var m, rest := a[0], a[1..];
      assert a == [m] + rest && a + b == [m] + (rest + b);
      AlbumRowsHead(m, rest, from);
      AlbumRowsHead(m, rest + b, from);
      AlbumRowsAppend(rest, b, from + 1);
    }
  }

  lemma AlbumRowsLast(front: seq<Message>, last: Message, from: nat)
    ensures AlbumRows(front + [last], from) == AlbumRows(front, from)
      + if FileOf(last).Some? then [Row(FileOf(last), from + |front|)] else []
  {
    AlbumRowsAppend(front, [last], from);
    OneRow(last, from + |front|);
  }

  lemma OneRow(m: Message, from: nat)
    ensures AlbumRows([m], from) == if FileOf(m).Some? then [Row(FileOf(m), from)] else []
  {
    assert [m][1..] == [] && AlbumRows([], from + 1) == [];
  }

  lemma {:induction false} AlbumRowsOf(s: seq<Message>, from: nat) returns (at: seq<nat>)
    ensures RowsOf(s, from, at, AlbumRows(s, from))
  {
    at := [];
    if s != [] {
      var front, last := s[..|s| - 1], s[|s| - 1];
      at := AlbumRowsOf(front, from);
      AlbumRowsLast(front, last, from);
      at := RowsOfGrown(front, last, from, at, AlbumRows(front, from), AlbumRows(front + [last], from));
      assert s == front + [last];
    }
  }

  lemma RowsOfGrown(front: seq<Message>, last: Message, from: nat, at: seq<nat>, rows: seq<Row>, grown: seq<Row>)
    returns (at': seq<nat>)
    requires RowsOf(front, from, at, rows)
    requires grown == rows + if FileOf(last).Some? then [Row(FileOf(last), from + |front|)] else []
    ensures RowsOf(front + [last], from, at', grown)
  {
    RowsOfNext(front, last, from, at, rows);
    at' := if FileOf(last).Some? then at + [|front|] else at;
  }

  lemma FileShown(m: Message)
    ensures forall file :: Shows(m, file) <==> file == FileOf(m)
  {
  }

  /** The place of a message in id order is the number of messages before it. */
  lemma PlaceInOrder(msgs: seq<Message>, i: nat)
    requires DistinctIds(msgs) && i < |SortById(msgs)|
    ensures |Earlier(msgs, SortById(msgs)[i].id)| == i
  {
    var ordered := SortById(msgs);
    SortedById(msgs);
    Sorting.SortDistinct(msgs, ById);
    var front := ordered[..i];
    SortedStrictlyById(msgs);
    forall m ensures m in Earlier(msgs, ordered[i].id) <==> m in front {
      if m in Earlier(msgs, ordered[i].id) {
        var k :| 0 <= k < |ordered| && ordered[k] == m;
        assert k < i && front[k] == m;
      }
    }
    assert Earlier(msgs, ordered[i].id) == Sorting.Elements(front);
    Sorting.DistinctBySize(front);
  }

  lemma SortedStrictlyById(msgs: seq<Message>)
    requires DistinctIds(msgs)
    ensures var s := SortById(msgs); forall i, j | 0 <= i < j < |s| :: s[i].id < s[j].id
  {
    var s := SortById(msgs);
    SortedById(msgs);
    Sorting.SortDistinct(msgs, ById);
    forall i, j | 0 <= i < j < |s| ensures s[i].id < s[j].id {
      assert s[i] in msgs && s[j] in msgs && s[i] != s[j] && ById(s[i], s[j]);
    }
  }

  /** Each message in id order stands at its place. */
  ghost predicate InPlace(msgs: seq<Message>, ordered: seq<Message>) {
    && (forall m :: m in ordered <==> m in msgs)
    && (forall i | 0 <= i < |ordered| :: |Earlier(msgs, ordered[i].id)| == i)
  }

  lemma MessageHasRow(msgs: seq<Message>, ordered: seq<Message>, at: seq<nat>, rows: seq<Row>, m: Message)
    returns (k: nat)
    requires InPlace(msgs, ordered) && RowsOf(ordered, 0, at, rows) && m in msgs && !Shows(m, None)
    ensures k < |rows| && RowOf(msgs, m, rows[k])
  {
    assert m in ordered;
    var i: nat :| i < |ordered| && ordered[i] == m;
    assert i in at;
    k :| 0 <= k < |at| && at[k] == i;
  }

  lemma RowHasMessage(msgs: seq<Message>, ordered: seq<Message>, at: seq<nat>, rows: seq<Row>, k: nat)
    returns (m: Message)
    requires InPlace(msgs, ordered) && RowsOf(ordered, 0, at, rows) && k < |rows|
    ensures m in msgs && !Shows(m, None) && RowOf(msgs, m, rows[k])
  {
    m := ordered[at[k]];
    assert m in ordered && at[k] in at;
  }

  /** An album's media are its messages' files in id order. */
  lemma AlbumRowsFor(channel: int, msgs: seq<Message>)
    requires msgs != [] && DistinctIds(msgs)
    ensures RowsFor(msgs, NormalizeAlbum(channel, msgs).1)
  {
    var ordered := SortById(msgs);
    SortedById(msgs);
    var rows := AlbumRows(ordered, 0);
    var at := AlbumRowsOf(ordered, 0);
    forall i | 0 <= i < |ordered| ensures |Earlier(msgs, ordered[i].id)| == i {
      PlaceInOrder(msgs, i);
    }
    forall m | m in msgs && !Shows(m, None) ensures HasRow(msgs, m, rows) {
      var k := MessageHasRow(msgs, ordered, at, rows, m);
    }
    forall k | 0 <= k < |rows| ensures FromMessage(msgs, rows[k]) {
      var m := RowHasMessage(msgs, ordered, at, rows, k);
    }
  }

  /** A single message's post has its own text, empty or not, and its own file. */
  lemma MessagePost(channel: int, m: Message)
    ensures var (post, rows) := NormalizeMessage(channel, m);
      && post.channel == channel && post.msgId == m.id && post.group == m.group && post.text == m.text
      && RowsFor([m], rows)
  {
    var rows := NormalizeMessage(channel, m).1;
    OneRow(m, 0);
    assert Earlier([m], m.id) == {};
    assert m in [m];
    if !Shows(m, None) {
      assert RowOf([m], m, rows[0]);
    }
  }

  predicate DistinctIds(s: seq<Message>) {
    forall i, j | 0 <= i < j < |s| :: s[i].id != s[j].id
  }

  /** The order in which Telegram delivers an album's messages makes no difference
      to the post, its caption or its media rows. */
  lemma AlbumOrderIrrelevant(channel: int, a: seq<Message>, b: seq<Message>)
    requires a != [] && DistinctIds(a) && multiset(a) == multiset(b)
    ensures b != [] && NormalizeAlbum(channel, a) == NormalizeAlbum(channel, b)
  {
    SortedById(a);
    SortedById(b);
    assert a[0] in multiset(b);
    Sorting.OrderedUnique(SortById(a), SortById(b), ById);
  }

  // ---- the album / solo split ---------------------------------------------------

  function OfGroup(msgs: seq<Message>, group: Option<int>): seq<Message> {
    if msgs == [] then []
    else OfGroup(msgs[..|msgs| - 1], group) + (if msgs[|msgs| - 1].group == group then [msgs[|msgs| - 1]] else [])
  }

  /** The `albums` dict of the ingest loops; `order` is its order of insertion. */
  datatype Albums = Albums(order: seq<int>, of: map<int, seq<Message>>)

  /** `albums.setdefault(group, []).append(m)`. */
  function AddToAlbum(albums: Albums, group: int, m: Message): Albums {
    if group in albums.of then albums.(of := albums.of[group := albums.of[group] + [m]])
    else Albums(albums.order + [group], albums.of[group := [m]])
  }

  /** Each message is in exactly one bucket, and each bucket is a slice of the
      input in its order. */
  ghost predicate IsSplit(msgs: seq<Message>, albums: Albums, solos: seq<Message>) {
    && solos == OfGroup(msgs, None)
    && (forall g | g in albums.of :: albums.of[g] != [] && albums.of[g] == OfGroup(msgs, Some(g)))
    && (forall m | m in msgs && m.group.Some? :: m.group.value in albums.of)
    && (forall g :: g in albums.order <==> g in albums.of)
    && (forall k, l | 0 <= k < l < |albums.order| :: albums.order[k] != albums.order[l])
  }

  lemma {:induction false} OfGroupMembers(msgs: seq<Message>, group: Option<int>, m: Message)
    ensures m in OfGroup(msgs, group) <==> m in msgs && m.group == group
    ensures DistinctIds(msgs) ==> DistinctIds(OfGroup(msgs, group))
  {
    if msgs != [] {
      var front, last := msgs[..|msgs| - 1], msgs[|msgs| - 1];
      assert msgs == front + [last];
      OfGroupMembers(front, group, m);
      if DistinctIds(msgs) {
        forall x | x in OfGroup(front, group) ensures x.id != last.id {
          OfGroupMembers(front, group, x);
        }
      }
    }
  }

  lemma SplitMore(msgs: seq<Message>, albums: Albums, solos: seq<Message>, m: Message)
    requires IsSplit(msgs, albums, solos)
    ensures if m.group.Some? then IsSplit(msgs + [m], AddToAlbum(albums, m.group.value, m), solos)
            else IsSplit(msgs + [m], albums, solos + [m])
  {
    assert (msgs + [m])[..|msgs|] == msgs;
    if m.group.Some? && m.group.value !in albums.of && OfGroup(msgs, m.group) != [] {
      OfGroupMembers(msgs, m.group, OfGroup(msgs, m.group)[0]);
    }
  }

  datatype Buckets = Buckets(albums: Albums, solos: seq<Message>)

  /** The split, one message at a time. */
  function Split(msgs: seq<Message>): Buckets {
    if msgs == [] then Buckets(Albums([], map[]), [])
    else
      var b, m := Split(msgs[..|msgs| - 1]), msgs[|msgs| - 1];
      if m.group.Some? then b.(albums := AddToAlbum(b.albums, m.group.value, m)) else b.(solos := b.solos + [m])
  }

  lemma {:induction false} SplitIsSplit(msgs: seq<Message>)
    ensures IsSplit(msgs, Split(msgs).albums, Split(msgs).solos)
  {
    if msgs != [] {
      var front, m := msgs[..|msgs| - 1], msgs[|msgs| - 1];
      SplitIsSplit(front);
      SplitMore(front, Split(front).albums, Split(front).solos, m);
      assert msgs == front + [m];
    }
  }

  /** `split_albums_solos`. */
  method SplitAlbumsSolos(msgs: seq<Message>) returns (albums: Albums, solos: seq<Message>)
    ensures Split(msgs) == Buckets(albums, solos) && IsSplit(msgs, albums, solos)
  {
    albums, solos := Albums([], map[]), [];
    for i := 0 to |msgs|
      invariant Split(msgs[..i]) == Buckets(albums, solos)
    {
      var m := msgs[i];
      assert msgs[..i + 1][..i] == msgs[..i];
      if m.group.Some? {
        albums := AddToAlbum(albums, m.group.value, m);
      } else {
        solos := solos + [m];
      }
    }
    assert msgs[..|msgs|] == msgs;
    SplitIsSplit(msgs);
  }

  // ---- the ingest loop ------------------------------------------------------------

  /** One call of `upsert_post`, in a transaction of its own. */
  datatype Job = Job(post: Post, rows: seq<Row>)

  function AlbumJob(channel: int, msgs: seq<Message>): Job
    requires msgs != []
  {
    Job(NormalizeAlbum(channel, msgs).0, NormalizeAlbum(channel, msgs).1)
  }

  function SoloJob(channel: int, m: Message): Job {
    Job(NormalizeMessage(channel, m).0, NormalizeMessage(channel, m).1)
  }

  /** An album that is new to the tables is stored as one post with its messages' caption,
      and with their files in id order. */
  lemma AlbumStored(db: Db, channel: int, msgs: seq<Message>)
    requires Valid(db) && msgs != [] && DistinctIds(msgs)
    requires var j := AlbumJob(channel, msgs);
      && Upsert(db, j.post, j.rows).Stored?
      && (j.post.group.Some? ==> GroupPosts(db, channel, j.post.group.value) == {})
      && MessagePosts(db, channel, j.post.msgId) == {}
    ensures var j := AlbumJob(channel, msgs); var r := Upsert(db, j.post, j.rows);
      && r.db.posts == db.posts[db.nextPost := j.post] && RowsStand(db, db.nextPost, j.rows, r.db)
      && PostFor(channel, Sorting.Elements(msgs), j.post) && RowsFor(msgs, j.rows)
  {
    var j := AlbumJob(channel, msgs);
    AlbumPost(channel, msgs);
    AlbumRowsFor(channel, msgs);
    UpsertCreates(db, j.post, j.rows);
  }

  function AlbumJobs(channel: int, albums: Albums, order: seq<int>): seq<Job>
    requires forall g | g in order :: g in albums.of && albums.of[g] != []
  {
    if order == [] then []
    else
      var g := order[|order| - 1];
      assert g in order;
      AlbumJobs(channel, albums, order[..|order| - 1]) + [AlbumJob(channel, albums.of[g])]
  }

  function SoloJobs(channel: int, solos: seq<Message>): seq<Job> {
    if solos == [] then []
    else SoloJobs(channel, solos[..|solos| - 1]) + [SoloJob(channel, solos[|solos| - 1])]
  }

  /** The upserts of one batch: albums first, then solos. */
  function BatchJobs(channel: int, msgs: seq<Message>): seq<Job> {
    var b := Split(msgs);
    SplitIsSplit(msgs);
    AlbumJobs(channel, b.albums, b.albums.order) + SoloJobs(channel, b.solos)
  }

  /** The tables after a list of upserts; an exception stops the list. */
  ghost function RunJobs(db: Db, jobs: seq<Job>): Outcome {
    if jobs == [] then Stored(None, db)
    else
      var r := RunJobs(db, jobs[..|jobs| - 1]);
      if r.Violation? then Violation else Upsert(r.db, jobs[|jobs| - 1].post, jobs[|jobs| - 1].rows)
  }

  lemma {:induction false} RunJobsKeepsIndexes(db: Db, jobs: seq<Job>)
    requires Valid(db)
    ensures RunJobs(db, jobs).Stored? ==> Valid(RunJobs(db, jobs).db)
  {
    if jobs != [] && RunJobs(db, jobs[..|jobs| - 1]).Stored? {
      RunJobsKeepsIndexes(db, jobs[..|jobs| - 1]);
      UpsertKeepsIndexes(RunJobs(db, jobs[..|jobs| - 1]).db, jobs[|jobs| - 1].post, jobs[|jobs| - 1].rows);
    }
  }

  lemma {:induction false} RunJobsKeepsPosts(db: Db, jobs: seq<Job>)
    requires Valid(db) && RunJobs(db, jobs).Stored?
    ensures var r := RunJobs(db, jobs).db; forall p | p in db.posts :: p in r.posts && r.posts[p] == db.posts[p]
  {
    if jobs != [] {
      var front, last := jobs[..|jobs| - 1], jobs[|jobs| - 1];
      RunJobsKeepsIndexes(db, front);
      RunJobsKeepsPosts(db, front);
      UpsertKeepsPosts(RunJobs(db, front).db, last.post, last.rows);
    }
  }

  /** The jobs before the `k`-th are committed, and the `k`-th is rolled back. */
  ghost predicate StoppedAt(db: Db, jobs: seq<Job>, k: nat, now: Db)
    requires k < |jobs|
  {
    && RunJobs(db, jobs[..k]).Stored? && RunJobs(db, jobs[..k]).db == now
    && Upsert(now, jobs[k].post, jobs[k].rows).Violation?
  }

  ghost predicate Stopped(db: Db, jobs: seq<Job>, now: Db) {
    exists k: nat | k < |jobs| :: StoppedAt(db, jobs, k, now)
  }

  /** `_ingest_messages` and its copies in the other feeds; an upsert that raises ends
      it and keeps what the jobs before it committed. */
  method IngestMessages(tables: Tables, channel: int, msgs: seq<Message>) returns (ok: bool)
    requires Valid(tables.View())
    modifies tables
    ensures Valid(tables.View())
    ensures var r := RunJobs(old(tables.View()), BatchJobs(channel, msgs));
      ok == r.Stored? && (ok ==> tables.View() == r.db)
    ensures !ok ==> Stopped(old(tables.View()), BatchJobs(channel, msgs), tables.View())
  {
    var albums, solos := SplitAlbumsSolos(msgs);
    ok := RunAll(tables, AlbumJobs(channel, albums, albums.order) + SoloJobs(channel, solos));
  }

  method RunAll(tables: Tables, jobs: seq<Job>) returns (ok: bool)
    requires Valid(tables.View())
    modifies tables
    ensures Valid(tables.View())
    ensures var r := RunJobs(old(tables.View()), jobs); ok == r.Stored? && (ok ==> tables.View() == r.db)
    ensures !ok ==> Stopped(old(tables.View()), jobs, tables.View())
  {
    ghost var db := tables.View();
    for k := 0 to |jobs|
      invariant Valid(tables.View())
      invariant RunJobs(db, jobs[..k]).Stored? && tables.View() == RunJobs(db, jobs[..k]).db
    {
      assert jobs[..k + 1][..k] == jobs[..k];
      var committed, _ := tables.UpsertPost(jobs[k].post, jobs[k].rows);
      if !committed {
        assert StoppedAt(db, jobs, k, tables.View());
        StaysViolated(db, jobs, k + 1);
        return false;
      }
    }
    assert jobs[..|jobs|] == jobs;
    ok := true;
  }

  lemma {:induction false} StaysViolated(db: Db, jobs: seq<Job>, k: nat)
    requires k <= |jobs| && RunJobs(db, jobs[..k]).Violation?
    ensures RunJobs(db, jobs).Violation?
    decreases |jobs|
  {
    if k == |jobs| {
      assert jobs[..k] == jobs;
    } else {
      assert jobs[..|jobs| - 1][..k] == jobs[..k];
      StaysViolated(db, jobs[..|jobs| - 1], k);
    }
  }
}
