/** The feed: which posts a user sees, and paging through them by a cursor string. */
module Feed {
  import opened Prelude
  import opened Cursors
  import opened Keyset
  import Sorting

  datatype Post = Post(id: int, at: int, channel: int)

  /** The tables the feed query reads. */
  datatype Tables = Tables(
    posts: seq<Post>,
    banned: set<int>,
    sources: set<(int, int)>,
    hiddenPosts: set<(int, int)>,
    hiddenChannels: set<(int, int)>,
    read: set<(int, int)>)

  predicate Visible(t: Tables, user: int, includeRead: bool, p: Post) {
    && p.channel !in t.banned
    && (user, p.channel) in t.sources
    && (user, p.id) !in t.hiddenPosts
    && (user, p.channel) !in t.hiddenChannels
    && (includeRead || (user, p.id) !in t.read)
  }

  /** ORDER BY posted_at DESC, id DESC. */
  predicate Newer(a: Post, b: Post) {
    a.at > b.at || (a.at == b.at && a.id > b.id)
  }

  /** `tuple_(posted_at, id) < tuple_(cursor)`. */
  predicate Below(p: Post, c: KeyCursor) {
    p.at < c.at || (p.at == c.at && p.id < c.id)
  }

  /** Midnight of 9999-12-31 UTC, in microseconds since 1970. */
  const SENTINEL: int := 253402214400 * 1000000

  const INITIAL := KeyCursor(SENTINEL, 0)

  /** `fetch_feed_page`. */
  function Fetch(t: Tables, user: int, c: KeyCursor, limit: nat, includeRead: bool): seq<Post> {
    Query(t.posts, p => Visible(t, user, includeRead, p) && Below(p, c), Newer, limit)
  }

  /** FastAPI refuses a limit outside 1..50 before the handler runs. */
  type Limit = n: int | 1 <= n <= 50 witness 1

  type Page = Reply<Post>

  function PageOf(iso: Iso, posts: seq<Post>): Page
    requires Exact(iso)
  {
    if posts == [] then Reply([], None) else Reply(posts, Some(CursorOf(iso, posts[|posts| - 1])))
  }

  function CursorOf(iso: Iso, p: Post): string
    requires Exact(iso)
  {
    Encode(iso, KeyCursor(p.at, p.id))
  }

  /** The cursor a request asks for; an empty string counts as none, and `None` is
      the `bad_cursor` error. */
  function Asked(iso: Iso, cursor: string): Option<KeyCursor> {
    if cursor == "" then Some(INITIAL) else Decode(iso, cursor)
  }

  /** What `get_feed` computes when it does not answer from the cache. */
  function Fresh(iso: Iso, t: Tables, user: int, cursor: string, limit: Limit, includeRead: bool): Page
    requires Exact(iso)
  {
    var c := Asked(iso, cursor);
    if c.None? then Refused else PageOf(iso, Fetch(t, user, c.value, limit, includeRead))
  }

  // ---- the sentinel ---------------------------------------------------------------------

  /** With positive ids the first page can show exactly the posts of before the sentinel. */
  lemma InitialCoversAll(p: Post)
    requires p.id > 0
    ensures Below(p, INITIAL) <==> p.at < SENTINEL
  {
  }

  // ---- the walk -------------------------------------------------------------------------

  datatype Reader = Reader(iso: Iso, user: int, limit: Limit, includeRead: bool)

  predicate IdsUnique(posts: seq<Post>) {
    forall i, j | 0 <= i < j < |posts| :: posts[i].id != posts[j].id
  }

  predicate Showable(t: Tables, r: Reader, p: Post) {
    Visible(t, r.user, r.includeRead, p) && Below(p, INITIAL)
  }

  /** Every post the reader may see, newest first. */
  function Timeline(t: Tables, r: Reader): seq<Post> {
    Listing(Sorting.Filter(t.posts, p => Showable(t, r, p)), Newer)
  }

  lemma NewerTotal(posts: seq<Post>)
    requires IdsUnique(posts)
    ensures StrictWeak(Newer) && Separates(posts, Newer)
  {
    forall a, b | a in posts && b in posts && a != b ensures Newer(a, b) || Newer(b, a) {
      var i :| 0 <= i < |posts| && posts[i] == a;
      var j :| 0 <= j < |posts| && posts[j] == b;
      assert a.id != b.id;
    }
  }

  lemma PartFacts(posts: seq<Post>, keep: Post -> bool)
    requires IdsUnique(posts)
    ensures var rows := Sorting.Filter(posts, keep);
      StrictWeak(Newer) && Separates(rows, Newer) && Sorting.Distinct(rows)
  {
    var rows := Sorting.Filter(posts, keep);
    NewerTotal(posts);
    FilterDistinct(posts, keep);
    forall x | x in rows ensures x in posts {
      var k :| 0 <= k < |rows| && rows[k] == x;
      var j := FilterAt(posts, keep, k);
    }
  }

  lemma InTimeline(t: Tables, r: Reader, i: nat)
    requires i < |Timeline(t, r)|
    ensures Showable(t, r, Timeline(t, r)[i])
  {
    var keep := (p: Post) => Showable(t, r, p);
    var rows := Sorting.Filter(t.posts, keep);
    Sorting.SortContents(rows, NotAfter(Newer));
    assert Timeline(t, r)[i] in rows;
    var k :| 0 <= k < |rows| && rows[k] == Timeline(t, r)[i];
    var j := FilterAt(t.posts, keep, k);
  }

  lemma FetchedFrom(t: Tables, r: Reader, i: nat)
    requires Exact(r.iso) && IdsUnique(t.posts) && i <= |Timeline(t, r)|
    ensures var s := Timeline(t, r);
      Fetch(t, r.user, if i == 0 then INITIAL else KeyCursor(s[i - 1].at, s[i - 1].id), r.limit, r.includeRead)
      == Take(s[i..], r.limit)
  {
    var s := Timeline(t, r);
    var c := if i == 0 then INITIAL else KeyCursor(s[i - 1].at, s[i - 1].id);
    var shown := (p: Post) => Showable(t, r, p);
    var after := (p: Post) => Below(p, c);
    var both := (p: Post) => Visible(t, r.user, r.includeRead, p) && Below(p, c);
    PartFacts(t.posts, shown);
    if i > 0 {
      InTimeline(t, r, i - 1);
    }
    FilterTwice(t.posts, shown, after, both);
    var rows := Sorting.Filter(t.posts, shown);
    forall p | p in rows ensures after(p) <==> i == 0 || Newer(s[i - 1], p) {
      var k :| 0 <= k < |rows| && rows[k] == p;
      var j := FilterAt(t.posts, shown, k);
    }
    QueryAfter(rows, after, Newer, i, r.limit);
  }

  function Ask(t: Tables, r: Reader, cursor: string): Page
    requires Exact(r.iso)
  {
    Fresh(r.iso, t, r.user, cursor, r.limit, r.includeRead)
  }

  /** The cursor from which the timeline goes on with post `i`. */
  function Name(iso: Iso, s: seq<Post>, i: nat): string
    requires Exact(iso)
  {
    if 0 < i <= |s| then CursorOf(iso, s[i - 1]) else ""
  }

  lemma NameAsks(iso: Iso, s: seq<Post>, i: nat)
    requires Exact(iso) && i <= |s|
    ensures Asked(iso, Name(iso, s, i)) == Some(if i == 0 then INITIAL else KeyCursor(s[i - 1].at, s[i - 1].id))
  {
    if i > 0 {
      KeyCursorRoundTrip(iso, KeyCursor(s[i - 1].at, s[i - 1].id));
    }
  }

  lemma PageUntilEmpty(iso: Iso, s: seq<Post>, l: nat, i: nat)
    requires Exact(iso) && i <= |s| && l > 0
    ensures PageOf(iso, Take(s[i..], l)) == UntilEmpty(s, l, (j: nat) => Name(iso, s, j), i)
  {
    var name, cursor := (j: nat) => Name(iso, s, j), (p: Post) => CursorOf(iso, p);
    assert forall j | 0 < j <= |s| :: name(j) == cursor(s[j - 1]);
    NextUntilEmpty(s, l, i, name, cursor);
  }

  lemma NextUntilEmpty(s: seq<Post>, l: nat, i: nat, name: nat -> string, cursor: Post -> string)
    requires i <= |s| && l > 0 && forall j | 0 < j <= |s| :: name(j) == cursor(s[j - 1])
    ensures var posts := Take(s[i..], l);
      (if posts == [] then Reply([], None) else Reply(posts, Some(cursor(posts[|posts| - 1]))))
        == UntilEmpty(s, l, name, i)
  {
    var m := AtMost(i + l, |s|);
    var posts := s[i..m];
    assert Take(s[i..], l) == posts;
    if i < |s| {
      assert posts[|posts| - 1] == s[m - 1];
    }
  }

  lemma AsksToEmpty(t: Tables, r: Reader)
    requires Exact(r.iso) && IdsUnique(t.posts)
    ensures ToEmpty((c: string) => Ask(t, r, c), Timeline(t, r), r.limit, (i: nat) => Name(r.iso, Timeline(t, r), i))
  {
    var s, l := Timeline(t, r), r.limit;
    var ask, name := (c: string) => Ask(t, r, c), (i: nat) => Name(r.iso, s, i);
    forall i: nat | i <= |s| ensures ask(name(i)) == UntilEmpty(s, l, name, i) {
      NameAsks(r.iso, s, i);
      FetchedFrom(t, r, i);
      PageUntilEmpty(r.iso, s, l, i);
    }
  }

  /** On unchanging tables following `next_cursor` through its string never fails,
      shows the whole timeline in order, each post once, and ends at the first empty
      page: the one after the last post has been shown. */
  lemma WalkShowsTimeline(t: Tables, r: Reader, k: nat)
    requires Exact(r.iso) && IdsUnique(t.posts)
    ensures var w, s := Visits(c => Ask(t, r, c), k), Timeline(t, r);
      && !w.failed
      && w.seen == Take(s, Room(k, r.limit))
      && (w.finished <==> k > 0 && Room(k - 1, r.limit) >= |s|)
  {
    var s, l := Timeline(t, r), r.limit;
    AsksToEmpty(t, r);
    ToEmptyWalk((c: string) => Ask(t, r, c), s, l, (i: nat) => Name(r.iso, s, i), k);
  }

  /** The timeline is the posts dated before the sentinel, of channels the user follows and
      has not hidden and no one has banned, but for those hidden or, unless asked for, read;
      the newest first, and of one time the greater id. */
  lemma TimelineIsVisible(t: Tables, r: Reader)
    requires IdsUnique(t.posts) && forall i | 0 <= i < |t.posts| :: t.posts[i].id > 0
    ensures var s := Timeline(t, r);
      && Sorting.Distinct(s)
      && (forall p :: p in s <==>
            && p in t.posts && p.at < SENTINEL && p.channel !in t.banned
            && (r.user, p.channel) in t.sources && (r.user, p.channel) !in t.hiddenChannels
            && (r.user, p.id) !in t.hiddenPosts && (r.includeRead || (r.user, p.id) !in t.read))
      && (forall i, j | 0 <= i < j < |s| :: s[i].at > s[j].at || (s[i].at == s[j].at && s[i].id > s[j].id))
  {
    TimelineHolds(t, r);
    var s := Timeline(t, r);
    assert forall i, j | 0 <= i < j < |s| :: Newer(s[i], s[j]);
  }

  lemma TimelineHolds(t: Tables, r: Reader)
    requires IdsUnique(t.posts) && forall i | 0 <= i < |t.posts| :: t.posts[i].id > 0
    ensures var s := Timeline(t, r);
      && Sorting.Distinct(s)
      && (forall p :: p in s <==> p in t.posts && Visible(t, r.user, r.includeRead, p) && p.at < SENTINEL)
      && (forall i, j | 0 <= i < j < |s| :: Newer(s[i], s[j]))
  {
    var keep := (p: Post) => Showable(t, r, p);
    var rows, s := Sorting.Filter(t.posts, keep), Timeline(t, r);
    PartFacts(t.posts, keep);
    PreorderOf(Newer);
    Sorting.SortDistinct(rows, NotAfter(Newer));
    Sorting.SortOrdered(rows, NotAfter(Newer));
    Sorting.SortContents(rows, NotAfter(Newer));
    forall p: Post ensures p in rows <==> p in t.posts && Visible(t, r.user, r.includeRead, p) && p.at < SENTINEL {
      FilterCount(t.posts, keep, p);
      assert p in rows <==> multiset(rows)[p] > 0;
    }
    forall i, j | 0 <= i < j < |s| ensures Newer(s[i], s[j]) {
      assert s[i] in rows && s[j] in rows;
      assert NotAfter(Newer)(s[i], s[j]);
    }
  }
}
