/** The feed endpoint with its page cache: cached pages never show what their user
    has read, and while only requests happen the cache cannot be told from none. */
module FeedCache {
  import opened Prelude
  import opened Cursors
  import opened Feed
  import Decimal
  import Keyset

  // ---- the keys -------------------------------------------------------------------------

  function Prefix(user: int): string { "feed:" + Decimal.Show(user) + ":" }

  function CacheKey(user: int, cursor: string, limit: Limit): string {
    Prefix(user) + (cursor + ":" + Decimal.Show(limit))
  }

  /** How many characters come before the first colon, and after the last. */
  function Before(s: string): nat {
    if s == "" || s[0] == ':' then 0 else 1 + Before(s[1..])
  }

  function After(s: string): nat {
    if s == "" || s[|s| - 1] == ':' then 0 else 1 + After(s[..|s| - 1])
  }

  lemma {:induction false} BeforeColon(a: string, rest: string)
    requires ':' !in a
    ensures Before(a + ":" + rest) == |a|
  {
    if a != "" {
      assert (a + ":" + rest)[1..] == a[1..] + ":" + rest;
      BeforeColon(a[1..], rest);
    }
  }

  lemma {:induction false} AfterColon(rest: string, b: string)
    requires ':' !in b
    ensures After(rest + ":" + b) == |b|
  {
    var s := rest + ":" + b;
    if b != "" {
      assert s[..|s| - 1] == rest + ":" + b[..|b| - 1];
      AfterColon(rest, b[..|b| - 1]);
    }
  }

  lemma UpToColon(a: string, b: string, rest: string)
    requires ':' !in a && ':' !in b && StartsWith(a + ":" + rest, b + ":")
    ensures a == b
  {
    var s := a + ":" + rest;
    assert s == b + ":" + s[|b| + 1..];
    BeforeColon(a, rest);
    BeforeColon(b, s[|b| + 1..]);
    assert a == s[..|a|] && b == s[..|b|];
  }

  /** The invalidation pattern of a user matches that user's keys and no other's. */
  lemma PatternOwner(user: int, cursor: string, limit: Limit, other: int)
    ensures StartsWith(CacheKey(user, cursor, limit), Prefix(other)) <==> user == other
  {
    var key := CacheKey(user, cursor, limit);
    var (u, v) := (Decimal.Show(user), Decimal.Show(other));
    var rest := cursor + ":" + Decimal.Show(limit);
    assert key == "feed:" + (u + ":" + rest);
    if StartsWith(key, Prefix(other)) {
      Decimal.ShowChars(user, ':');
      Decimal.ShowChars(other, ':');
      assert key[5..] == u + ":" + rest;
      assert key[..|Prefix(other)|][5..] == v + ":";
      assert Prefix(other)[5..] == v + ":";
      UpToColon(u, v, rest);
      Decimal.ReadShow(user);
      Decimal.ReadShow(other);
    }
  }

  lemma LastColon(a: string, b: string, c: string, d: string)
    requires ':' !in b && ':' !in d && a + ":" + b == c + ":" + d
    ensures a == c && b == d
  {
    var s := a + ":" + b;
    AfterColon(a, b);
    AfterColon(c, d);
    assert s[..|a|] == a && s[..|c|] == c;
    assert s[|a| + 1..] == b && s[|c| + 1..] == d;
  }

  /** One key stands for one request, whatever the cursor text a client sends. */
  lemma KeyDeterminesRequest(u: int, c: string, l: Limit, v: int, d: string, m: Limit)
    requires CacheKey(u, c, l) == CacheKey(v, d, m)
    ensures u == v && c == d && l == m
  {
    PatternOwner(u, c, l, u);
    PatternOwner(v, d, m, u);
    SameRest(Prefix(u), c + ":" + Decimal.Show(l), d + ":" + Decimal.Show(m));
    Decimal.ShowChars(l, ':');
    Decimal.ShowChars(m, ':');
    LastColon(c, Decimal.Show(l), d, Decimal.Show(m));
    Decimal.ReadShow(l);
    Decimal.ReadShow(m);
  }

  lemma SameRest(prefix: string, a: string, b: string)
    requires prefix + a == prefix + b
    ensures a == b
  {
    assert (prefix + a)[|prefix|..] == a && (prefix + b)[|prefix|..] == b;
  }

  // ---- the endpoint ---------------------------------------------------------------------

  datatype Server = Server(tables: Tables, cache: map<string, Page>)

  /** Neither the initial page nor the include-read view is cached. */
  predicate Cacheable(cursor: string, includeRead: bool) { cursor != "" && !includeRead }

  function Answer(iso: Iso, s: Server, user: int, cursor: string, limit: Limit, includeRead: bool): Page
    requires Exact(iso)
  {
    if Asked(iso, cursor).Some? && Cacheable(cursor, includeRead) && CacheKey(user, cursor, limit) in s.cache then
      s.cache[CacheKey(user, cursor, limit)]
    else Fresh(iso, s.tables, user, cursor, limit, includeRead)
  }

  function AfterGet(iso: Iso, s: Server, user: int, cursor: string, limit: Limit, includeRead: bool): Server
    requires Exact(iso)
  {
    var answer := Answer(iso, s, user, cursor, limit, includeRead);
    if answer.Refused? || !Cacheable(cursor, includeRead) then s
    else s.(cache := s.cache[CacheKey(user, cursor, limit) := answer])
  }

  predicate Known(t: Tables, id: int) {
    exists j | 0 <= j < |t.posts| :: t.posts[j].id == id
  }

  predicate PostsExist(t: Tables, ids: seq<int>) {
    forall k | 0 <= k < |ids| :: Known(t, ids[k])
  }

  function ReadWith(read: set<(int, int)>, user: int, ids: seq<int>): set<(int, int)> {
    read + set k | 0 <= k < |ids| :: (user, ids[k])
  }

  function Invalidated(cache: map<string, Page>, user: int): map<string, Page> {
    map k | k in cache && !StartsWith(k, Prefix(user)) :: cache[k]
  }

  /** A mark on a post that does not exist breaks the foreign key and is rolled back. */
  function AfterMark(s: Server, user: int, ids: seq<int>): Server {
    if !PostsExist(s.tables, ids) then s
    else Server(s.tables.(read := ReadWith(s.tables.read, user, ids)), Invalidated(s.cache, user))
  }

  class Endpoint {
    const iso: Iso
    var tables: Tables
    var cache: map<string, Page>

    function View(): Server
      reads this
    {
      Server(tables, cache)
    }

    constructor (iso: Iso, tables: Tables)
      ensures View() == Server(tables, map[]) && this.iso == iso
    {
      this.iso, this.tables, cache := iso, tables, map[];
    }

    method GetFeed(user: int, cursor: string, limit: Limit, includeRead: bool) returns (answer: Page)
      requires Exact(iso)
      modifies this`cache
      ensures answer == Answer(iso, old(View()), user, cursor, limit, includeRead)
      ensures View() == AfterGet(iso, old(View()), user, cursor, limit, includeRead)
    {
      var asked := Asked(iso, cursor);
      if asked.None? {
        return Keyset.Refused;
      }
      var key := CacheKey(user, cursor, limit);
      var cacheable := cursor != "" && !includeRead;
      if cacheable && key in cache {
        return cache[key];
      }
      var page := PageOf(iso, Fetch(tables, user, asked.value, limit, includeRead));
      if cacheable {
        cache := cache[key := page];
      }
      answer := page;
    }

    /** `bulk_mark_read`: the number of rows inserted, or `None` when the insert fails. */
    method BulkMarkRead(user: int, ids: seq<int>) returns (marked: Option<nat>)
      modifies this`tables
      ensures !PostsExist(old(tables), ids) ==> marked == None && tables == old(tables)
      ensures PostsExist(old(tables), ids) ==>
        && tables == old(tables).(read := ReadWith(old(tables).read, user, ids))
        && marked == Some(|tables.read| - |old(tables).read|)
    {
      var read, count, i := tables.read, 0, 0;
      while i < |ids|
        invariant 0 <= i <= |ids| && tables == old(tables)
        invariant forall k | 0 <= k < i :: Known(tables, ids[k])
        invariant Inserting(tables.read, read, user, ids, i, count)
      {
        if !Known(tables, ids[i]) {
          return None;
        }
        InsertOne(tables.read, read, user, ids, i, count);
        if (user, ids[i]) !in read {
          read, count := read + {(user, ids[i])}, count + 1;
        }
        i := i + 1;
      }
      assert ids[..i] == ids;
      tables := tables.(read := read);
      marked := Some(count);
    }

    method MarkRead(user: int, ids: seq<int>) returns (marked: Option<nat>)
      modifies this
      ensures View() == AfterMark(old(View()), user, ids)
      ensures marked == if PostsExist(old(tables), ids) then Some(|tables.read| - |old(tables).read|) else None
    {
      marked := BulkMarkRead(user, ids);
      if marked.Some? {
        cache := map k | k in cache && !StartsWith(k, Prefix(user)) :: cache[k];
      }
    }
  }

  /** After the first `i` ids: the rows so far and how many of them are new. */
  predicate Inserting(before: set<(int, int)>, read: set<(int, int)>, user: int, ids: seq<int>, i: nat, count: int)
    requires i <= |ids|
  {
    read == ReadWith(before, user, ids[..i]) && count == |read| - |before|
  }

  lemma InsertOne(before: set<(int, int)>, read: set<(int, int)>, user: int, ids: seq<int>, i: nat, count: int)
    requires i < |ids| && Inserting(before, read, user, ids, i, count)
    ensures (user, ids[i]) in read ==> Inserting(before, read, user, ids, i + 1, count)
    ensures (user, ids[i]) !in read ==> Inserting(before, read + {(user, ids[i])}, user, ids, i + 1, count + 1)
  {
    var all := ReadWith(before, user, ids[..i + 1]);
    forall x ensures x in all <==> x in read || x == (user, ids[i]) {
      if x in read && x !in before {
        var k :| 0 <= k < i && x == (user, ids[..i][k]);
        assert ids[..i + 1][k] == ids[k];
      }
      assert ids[..i + 1][i] == ids[i];
    }
    assert (user, ids[i]) in read ==> all == read;
    assert (user, ids[i]) !in read ==> all == read + {(user, ids[i])};
  }

  // ---- agreement over runs --------------------------------------------------------------

  /** Requests, a key's 30 seconds running out, and everything else that changes the
      tables, each as one step. */
  datatype Event =
    | Get(user: int, cursor: string, limit: Limit, includeRead: bool)
    | Mark(user: int, ids: seq<int>)
    | Lapse(key: string)
    | Change(tables: Tables)

  function Step(iso: Iso, s: Server, e: Event): Server
    requires Exact(iso)
  {
    match e
    case Get(u, c, l, all) => AfterGet(iso, s, u, c, l, all)
    case Mark(u, ids) => AfterMark(s, u, ids)
    case Lapse(k) => s.(cache := s.cache - {k})
    case Change(t) => s.(tables := t)
  }

  function Run(iso: Iso, s: Server, es: seq<Event>): Server
    requires Exact(iso)
  {
    if es == [] then s else Step(iso, Run(iso, s, es[..|es| - 1]), es[|es| - 1])
  }

  /** Only `mark_read` adds rows to the read table. */
  ghost predicate ReadsOnlyByMark(iso: Iso, s: Server, es: seq<Event>)
    requires Exact(iso)
  {
    es == [] ||
    var front, last := es[..|es| - 1], es[|es| - 1];
    ReadsOnlyByMark(iso, s, front) && (last.Change? ==> last.tables.read <= Run(iso, s, front).tables.read)
  }

  predicate NoneRead(t: Tables, user: int, posts: seq<Post>) {
    forall k | 0 <= k < |posts| :: (user, posts[k].id) !in t.read
  }

  predicate Unread(t: Tables, user: int, page: Page) {
    page.Reply? ==> NoneRead(t, user, page.rows)
  }

  /** Every cached page is some user's, and that user has read none of it. */
  ghost predicate Clean(s: Server) {
    forall key | key in s.cache :: exists u, c, l :: key == CacheKey(u, c, l) && Unread(s.tables, u, s.cache[key])
  }

  lemma FetchedUnread(t: Tables, user: int, c: KeyCursor, limit: nat)
    ensures NoneRead(t, user, Fetch(t, user, c, limit, false))
  {
    var keep := (p: Post) => Visible(t, user, false, p) && Below(p, c);
    var rows := Keyset.Sorting.Filter(t.posts, keep);
    var posts := Fetch(t, user, c, limit, false);
    Keyset.Sorting.SortContents(rows, Keyset.NotAfter(Newer));
    forall k | 0 <= k < |posts| ensures (user, posts[k].id) !in t.read {
      assert posts[k] in rows;
      var i :| 0 <= i < |rows| && rows[i] == posts[k];
      var j := Keyset.FilterAt(t.posts, keep, i);
    }
  }

  lemma FreshUnread(iso: Iso, t: Tables, user: int, cursor: string, limit: Limit)
    requires Exact(iso)
    ensures Unread(t, user, Fresh(iso, t, user, cursor, limit, false))
  {
    if Asked(iso, cursor).Some? {
      FetchedUnread(t, user, Asked(iso, cursor).value, limit);
    }
  }

  /** No default-path answer, cached or fresh, shows a post its user has read. */
  lemma AnswersUnread(iso: Iso, s: Server, user: int, cursor: string, limit: Limit)
    requires Exact(iso) && Clean(s)
    ensures Unread(s.tables, user, Answer(iso, s, user, cursor, limit, false))
  {
    var key := CacheKey(user, cursor, limit);
    if Asked(iso, cursor).Some? && cursor != "" && key in s.cache {
      var u, c, l :| key == CacheKey(u, c, l) && Unread(s.tables, u, s.cache[key]);
      KeyDeterminesRequest(u, c, l, user, cursor, limit);
    } else {
      FreshUnread(iso, s.tables, user, cursor, limit);
    }
  }

  lemma MarkKeepsClean(s: Server, user: int, ids: seq<int>)
    requires Clean(s)
    ensures Clean(AfterMark(s, user, ids))
  {
    var r := AfterMark(s, user, ids);
    if PostsExist(s.tables, ids) {
      forall key | key in r.cache
        ensures exists u, c, l :: key == CacheKey(u, c, l) && Unread(r.tables, u, r.cache[key])
      {
        var u, c, l :| key == CacheKey(u, c, l) && Unread(s.tables, u, s.cache[key]);
        PatternOwner(u, c, l, user);
        assert Unread(r.tables, u, r.cache[key]);
      }
    }
  }

  lemma ChangeKeepsClean(s: Server, t: Tables)
    requires Clean(s) && t.read <= s.tables.read
    ensures Clean(s.(tables := t))
  {
    forall key | key in s.cache ensures exists u, c, l :: key == CacheKey(u, c, l) && Unread(t, u, s.cache[key]) {
      var u, c, l :| key == CacheKey(u, c, l) && Unread(s.tables, u, s.cache[key]);
      assert Unread(t, u, s.cache[key]);
    }
  }

  lemma StepKeepsClean(iso: Iso, s: Server, e: Event)
    requires Exact(iso) && Clean(s)
    requires e.Change? ==> e.tables.read <= s.tables.read
    ensures Clean(Step(iso, s, e))
  {
    match e
    case Get(u, c, l, all) =>
      if !all {
        AnswersUnread(iso, s, u, c, l);
      }
    case Mark(u, ids) => MarkKeepsClean(s, u, ids);
    case Lapse(_) =>
    case Change(t) => ChangeKeepsClean(s, t);
  }

  /** Whatever else changes the tables, no cached page ever holds a read post. */
  lemma {:induction false} RunClean(iso: Iso, t: Tables, es: seq<Event>)
    requires Exact(iso) && ReadsOnlyByMark(iso, Server(t, map[]), es)
    ensures Clean(Run(iso, Server(t, map[]), es))
  {
    if es != [] {
      RunClean(iso, t, es[..|es| - 1]);
      StepKeepsClean(iso, Run(iso, Server(t, map[]), es[..|es| - 1]), es[|es| - 1]);
    }
  }

  // ---- transparency ---------------------------------------------------------------------

  /** Every cached page is the page the tables would give now. */
  ghost predicate Current(iso: Iso, s: Server)
    requires Exact(iso)
  {
    forall key | key in s.cache :: exists u, c, l ::
      key == CacheKey(u, c, l) && Fresh(iso, s.tables, u, c, l, false) == s.cache[key]
  }

  /** With a current cache, answering from it is answering without it. */
  lemma CacheTransparent(iso: Iso, s: Server, user: int, cursor: string, limit: Limit, includeRead: bool)
    requires Exact(iso) && Current(iso, s)
    ensures Answer(iso, s, user, cursor, limit, includeRead) == Fresh(iso, s.tables, user, cursor, limit, includeRead)
  {
    var key := CacheKey(user, cursor, limit);
    if Asked(iso, cursor).Some? && Cacheable(cursor, includeRead) && key in s.cache {
      var u, c, l :| key == CacheKey(u, c, l) && Fresh(iso, s.tables, u, c, l, false) == s.cache[key];
      KeyDeterminesRequest(u, c, l, user, cursor, limit);
    }
  }

  lemma {:induction false} SameKeep(posts: seq<Post>, f: Post -> bool, g: Post -> bool)
    requires forall p :: f(p) == g(p)
    ensures Keyset.Sorting.Filter(posts, f) == Keyset.Sorting.Filter(posts, g)
  {
    if posts != [] {
      SameKeep(posts[1..], f, g);
    }
  }

  /** What one user reads does not change another user's pages. */
  lemma OthersUnaffected(iso: Iso, t: Tables, user: int, ids: seq<int>, other: int, cursor: string, limit: Limit)
    requires Exact(iso) && other != user
    ensures Fresh(iso, t.(read := ReadWith(t.read, user, ids)), other, cursor, limit, false)
      == Fresh(iso, t, other, cursor, limit, false)
  {
    var after := t.(read := ReadWith(t.read, user, ids));
    if Asked(iso, cursor).Some? {
      var c := Asked(iso, cursor).value;
      SameKeep(t.posts, p => Visible(after, other, false, p) && Below(p, c), p => Visible(t, other, false, p)
        && Below(p, c));
    }
  }

  lemma RequestKeepsCurrent(iso: Iso, s: Server, e: Event)
    requires Exact(iso) && Current(iso, s) && !e.Change?
    ensures Current(iso, Step(iso, s, e))
  {
    var r := Step(iso, s, e);
    match e
    case Get(u, c, l, all) => CacheTransparent(iso, s, u, c, l, all);
    case Mark(user, ids) =>
      if PostsExist(s.tables, ids) {
        forall key | key in r.cache
          ensures exists u, c, l :: key == CacheKey(u, c, l) && Fresh(iso, r.tables, u, c, l, false) == r.cache[key]
        {
          var u, c, l :| key == CacheKey(u, c, l) && Fresh(iso, s.tables, u, c, l, false) == s.cache[key];
          PatternOwner(u, c, l, user);
          OthersUnaffected(iso, s.tables, user, ids, u, c, l);
        }
      }
    case Lapse(_) =>
  }

  predicate RequestsOnly(es: seq<Event>) { forall k | 0 <= k < |es| :: !es[k].Change? }

  /** While only requests happen every answer is the one the tables give: the cache
      refines no cache at all. */
  lemma {:induction false} RunTransparent(iso: Iso, t: Tables, es: seq<Event>)
    requires Exact(iso) && RequestsOnly(es)
    ensures Current(iso, Run(iso, Server(t, map[]), es))
  {
    if es != [] {
      RunTransparent(iso, t, es[..|es| - 1]);
      RequestKeepsCurrent(iso, Run(iso, Server(t, map[]), es[..|es| - 1]), es[|es| - 1]);
    }
  }

  lemma FetchedVisible(t: Tables, user: int, c: KeyCursor, limit: nat, p: Post)
    requires p in Fetch(t, user, c, limit, false)
    ensures Visible(t, user, false, p)
  {
    var keep := (x: Post) => Visible(t, user, false, x) && Below(x, c);
    var rows := Keyset.Sorting.Filter(t.posts, keep);
    Keyset.Sorting.SortContents(rows, Keyset.NotAfter(Newer));
    assert p in rows;
    var i :| 0 <= i < |rows| && rows[i] == p;
    var j := Keyset.FilterAt(t.posts, keep, i);
  }

  /** Pages below a cursor do change: hiding a post drops it from the tables' answer
      and leaves every cached page that shows it as it is. */
  lemma HiddenPostStillCached(iso: Iso, s: Server, user: int, cursor: string, limit: Limit, p: Post)
    requires Exact(iso) && cursor != "" && Asked(iso, cursor).Some? && CacheKey(user, cursor, limit) in s.cache
    requires s.cache[CacheKey(user, cursor, limit)].Reply? && p in s.cache[CacheKey(user, cursor, limit)].rows
    ensures var hidden := s.tables.(hiddenPosts := s.tables.hiddenPosts + {(user, p.id)});
      var r := Step(iso, s, Change(hidden));
      && p in Answer(iso, r, user, cursor, limit, false).rows
      && p !in Fresh(iso, hidden, user, cursor, limit, false).rows
  {
    var hidden := s.tables.(hiddenPosts := s.tables.hiddenPosts + {(user, p.id)});
    var c := Asked(iso, cursor).value;
    if p in Fetch(hidden, user, c, limit, false) {
      FetchedVisible(hidden, user, c, limit, p);
    }
  }

  /** The tables answer the request as before. */
  predicate SameAnswer(iso: Iso, t: Tables, t': Tables, user: int, cursor: string, limit: Limit)
    requires Exact(iso)
  {
    Fresh(iso, t', user, cursor, limit, false) == Fresh(iso, t, user, cursor, limit, false)
  }

  predicate Cached(s: Server, user: int, cursor: string, limit: Limit) { CacheKey(user, cursor, limit) in s.cache }

  /** They do so to every request that has a cached page. */
  ghost predicate AllSame(iso: Iso, s: Server, t: Tables)
    requires Exact(iso)
  {
    forall u, c, l | Cached(s, u, c, l) :: SameAnswer(iso, s.tables, t, u, c, l)
  }

  lemma SameAnswers(iso: Iso, s: Server, t: Tables)
    requires Exact(iso) && Current(iso, s)
    ensures Current(iso, s.(tables := t)) <==> AllSame(iso, s, t)
  {
    var r := s.(tables := t);
    if Current(iso, r) {
      forall u, c, l | Cached(s, u, c, l) ensures SameAnswer(iso, s.tables, t, u, c, l) {
        CacheIs(iso, s, u, c, l);
        CacheIs(iso, r, u, c, l);
      }
    } else {
      var key :| key in s.cache && !exists u, c, l ::
        key == CacheKey(u, c, l) && Fresh(iso, t, u, c, l, false) == s.cache[key];
      var u, c, l :| key == CacheKey(u, c, l) && Fresh(iso, s.tables, u, c, l, false) == s.cache[key];
      assert Cached(s, u, c, l) && !SameAnswer(iso, s.tables, t, u, c, l);
    }
  }

  lemma CacheIs(iso: Iso, s: Server, user: int, cursor: string, limit: Limit)
    requires Exact(iso) && Current(iso, s) && CacheKey(user, cursor, limit) in s.cache
    ensures s.cache[CacheKey(user, cursor, limit)] == Fresh(iso, s.tables, user, cursor, limit, false)
  {
    var key := CacheKey(user, cursor, limit);
    var u, c, l :| key == CacheKey(u, c, l) && Fresh(iso, s.tables, u, c, l, false) == s.cache[key];
    KeyDeterminesRequest(u, c, l, user, cursor, limit);
  }

  lemma SamePage(iso: Iso, a: seq<Post>, b: seq<Post>)
    requires Exact(iso)
    ensures PageOf(iso, a) == PageOf(iso, b) <==> a == b
  {
  }

  function Hidden(t: Tables, user: int, id: int): Tables {
    t.(hiddenPosts := t.hiddenPosts + {(user, id)})
  }

  predicate NotOn(posts: seq<Post>, id: int) { forall k | 0 <= k < |posts| :: posts[k].id != id }

  lemma HideFetch(t: Tables, user: int, id: int, other: int, c: KeyCursor, limit: nat)
    requires IdsUnique(t.posts)
    ensures Fetch(Hidden(t, user, id), other, c, limit, false) == Fetch(t, other, c, limit, false)
      <==> other != user || NotOn(Fetch(t, other, c, limit, false), id)
  {
    var keep := (p: Post) => Visible(t, other, false, p) && Below(p, c);
    var left := (p: Post) => Visible(Hidden(t, user, id), other, false, p) && Below(p, c);
    if other != user {
      SameKeep(t.posts, keep, left);
    } else {
      NewerTotal(t.posts);
      Keyset.QueryRestrict(t.posts, keep, (p: Post) => p.id != id, left, Newer, limit);
    }
  }

  /** No cached page of the user shows the post. */
  ghost predicate OnNoPage(s: Server, user: int, id: int) {
    forall c, l | Cached(s, user, c, l) && s.cache[CacheKey(user, c, l)].Reply? ::
      NotOn(s.cache[CacheKey(user, c, l)].rows, id)
  }

  /** Hiding a post keeps the cache current exactly when no cached page of that user
      shows it. */
  lemma HideKeepsCurrent(iso: Iso, s: Server, user: int, id: int)
    requires Exact(iso) && Current(iso, s) && IdsUnique(s.tables.posts)
    ensures Current(iso, s.(tables := Hidden(s.tables, user, id))) <==> OnNoPage(s, user, id)
  {
    SameAnswers(iso, s, Hidden(s.tables, user, id));
    HideAnswers(iso, s, user, id);
  }

  lemma HideAnswers(iso: Iso, s: Server, user: int, id: int)
    requires Exact(iso) && Current(iso, s) && IdsUnique(s.tables.posts)
    ensures AllSame(iso, s, Hidden(s.tables, user, id)) <==> OnNoPage(s, user, id)
  {
    forall u, c, l: Limit | Cached(s, u, c, l)
      ensures SameAnswer(iso, s.tables, Hidden(s.tables, user, id), u, c, l) <==> NotShown(s, user, id, u, c, l)
    {
      HideAnswer(iso, s, user, id, u, c, l);
    }
    HiddenNowhere(iso, s, user, id);
  }

  /** It is not this user's page, or does not show the post. */
  predicate NotShown(s: Server, user: int, id: int, u: int, c: string, l: Limit)
    requires Cached(s, u, c, l)
  {
    u != user || s.cache[CacheKey(u, c, l)].Refused? || NotOn(s.cache[CacheKey(u, c, l)].rows, id)
  }

  lemma HiddenNowhere(iso: Iso, s: Server, user: int, id: int)
    requires Exact(iso)
    requires forall u, c, l | Cached(s, u, c, l) ::
      SameAnswer(iso, s.tables, Hidden(s.tables, user, id), u, c, l) <==> NotShown(s, user, id, u, c, l)
    ensures AllSame(iso, s, Hidden(s.tables, user, id)) <==> OnNoPage(s, user, id)
  {
    if OnNoPage(s, user, id) {
      assert forall u, c, l | Cached(s, u, c, l) :: NotShown(s, user, id, u, c, l);
    }
    if AllSame(iso, s, Hidden(s.tables, user, id)) {
      assert forall c, l | Cached(s, user, c, l) :: NotShown(s, user, id, user, c, l);
    }
  }

  lemma HideAnswer(iso: Iso, s: Server, user: int, id: int, u: int, c: string, l: Limit)
    requires Exact(iso) && Current(iso, s) && IdsUnique(s.tables.posts) && Cached(s, u, c, l)
    ensures SameAnswer(iso, s.tables, Hidden(s.tables, user, id), u, c, l) <==> NotShown(s, user, id, u, c, l)
  {
    CacheIs(iso, s, u, c, l);
    if Asked(iso, c).Some? {
      HideFetch(s.tables, user, id, u, Asked(iso, c).value, l);
      SamePage(iso, Fetch(Hidden(s.tables, user, id), u, Asked(iso, c).value, l, false),
        Fetch(s.tables, u, Asked(iso, c).value, l, false));
    }
  }

  function WithPost(t: Tables, q: Post): Tables { t.(posts := t.posts + [q]) }

  /** A new post has no place on a cached page: its reader does not see it, it is not
      below the cursor, or the page is full of newer posts. */
  predicate NoPlaceOn(iso: Iso, t: Tables, user: int, cursor: string, limit: Limit, page: Page, q: Post) {
    || Asked(iso, cursor).None? || page.Refused?
    || !Visible(t, user, false, q) || !Below(q, Asked(iso, cursor).value)
    || (|page.rows| == limit && Newer(page.rows[limit - 1], q))
  }

  /** It has no place on any cached page. */
  ghost predicate NoPlace(iso: Iso, s: Server, q: Post) {
    forall u, c, l | Cached(s, u, c, l) :: NoPlaceOn(iso, s.tables, u, c, l, s.cache[CacheKey(u, c, l)], q)
  }

  lemma InsertFetch(t: Tables, q: Post, user: int, c: KeyCursor, limit: Limit)
    requires IdsUnique(t.posts + [q])
    ensures var page := Fetch(t, user, c, limit, false);
      Fetch(WithPost(t, q), user, c, limit, false) == page <==>
        !Visible(t, user, false, q) || !Below(q, c) || (|page| == limit && Newer(page[limit - 1], q))
  {
    var keep := (p: Post) => Visible(t, user, false, p) && Below(p, c);
    var more := (p: Post) => Visible(WithPost(t, q), user, false, p) && Below(p, c);
    SameKeep(t.posts + [q], keep, more);
    NewerTotal(t.posts + [q]);
    Keyset.QueryInsert(t.posts, q, keep, Newer, limit);
  }

  /** A post coming in, from above or from the history below every cursor, keeps the
      cache current exactly when it has no place on any cached page. */
  lemma InsertKeepsCurrent(iso: Iso, s: Server, q: Post)
    requires Exact(iso) && Current(iso, s) && IdsUnique(s.tables.posts + [q])
    ensures Current(iso, s.(tables := WithPost(s.tables, q))) <==> NoPlace(iso, s, q)
  {
    SameAnswers(iso, s, WithPost(s.tables, q));
    InsertAnswers(iso, s, q);
  }

  lemma InsertAnswers(iso: Iso, s: Server, q: Post)
    requires Exact(iso) && Current(iso, s) && IdsUnique(s.tables.posts + [q])
    ensures AllSame(iso, s, WithPost(s.tables, q)) <==> NoPlace(iso, s, q)
  {
    forall u, c, l: Limit | Cached(s, u, c, l)
      ensures SameAnswer(iso, s.tables, WithPost(s.tables, q), u, c, l) <==>
        NoPlaceOn(iso, s.tables, u, c, l, s.cache[CacheKey(u, c, l)], q)
    {
      InsertAnswer(iso, s, q, u, c, l);
    }
    NoPlaceAnywhere(iso, s, q);
  }

  lemma NoPlaceAnywhere(iso: Iso, s: Server, q: Post)
    requires Exact(iso)
    requires forall u, c, l | Cached(s, u, c, l) :: SameAnswer(iso, s.tables, WithPost(s.tables, q), u, c, l) <==>
      NoPlaceOn(iso, s.tables, u, c, l, s.cache[CacheKey(u, c, l)], q)
    ensures AllSame(iso, s, WithPost(s.tables, q)) <==> NoPlace(iso, s, q)
  {
  }

  lemma InsertAnswer(iso: Iso, s: Server, q: Post, u: int, c: string, l: Limit)
    requires Exact(iso) && Current(iso, s) && IdsUnique(s.tables.posts + [q]) && Cached(s, u, c, l)
    ensures SameAnswer(iso, s.tables, WithPost(s.tables, q), u, c, l) <==>
      NoPlaceOn(iso, s.tables, u, c, l, s.cache[CacheKey(u, c, l)], q)
  {
    CacheIs(iso, s, u, c, l);
    if Asked(iso, c).Some? {
      InsertFetch(s.tables, q, u, Asked(iso, c).value, l);
      SamePage(iso, Fetch(WithPost(s.tables, q), u, Asked(iso, c).value, l, false),
        Fetch(s.tables, u, Asked(iso, c).value, l, false));
    }
  }

  /** Among the posts a change brings to a reader's view none has a place on the page, and
      each post of the page is still there and still in view. */
  predicate StillPage(iso: Iso, t: Tables, t': Tables, user: int, cursor: string, limit: Limit, page: Page) {
    || Asked(iso, cursor).None? || page.Refused?
    || (&& (forall k | 0 <= k < |page.rows| :: page.rows[k] in t'.posts && Visible(t', user, false, page.rows[k]))
        && (forall q | q in t'.posts && Visible(t', user, false, q) && !(q in t.posts && Visible(t, user, false, q)) ::
              NoPlaceOn(iso, t', user, cursor, limit, page, q)))
  }

  /** Each post of the page is asked for. */
  predicate AllAsked(t: Tables, user: int, c: KeyCursor, page: seq<Post>) {
    forall k | 0 <= k < |page| :: page[k] in t.posts && Visible(t, user, false, page[k]) && Below(page[k], c)
  }

  /** Every other post asked for lies beyond the page. */
  predicate NoneMissing(t: Tables, user: int, c: KeyCursor, limit: Limit, page: seq<Post>) {
    forall q | q in t.posts && Visible(t, user, false, q) && Below(q, c) && q !in page ::
      |page| == limit && Newer(page[limit - 1], q)
  }

  lemma FetchIff(t: Tables, user: int, c: KeyCursor, limit: Limit, page: seq<Post>)
    requires IdsUnique(t.posts) && Keyset.StrictlyOrdered(page, Newer) && |page| <= limit
    ensures Fetch(t, user, c, limit, false) == page
      <==> AllAsked(t, user, c, page) && NoneMissing(t, user, c, limit, page)
  {
    NewerTotal(t.posts);
    var keep := (p: Post) => Visible(t, user, false, p) && Below(p, c);
    Keyset.QueryIff(t.posts, keep, Newer, limit, page);
    assert forall q | q in t.posts && keep(q) && q !in page ::
      Keyset.Beyond(page, Newer, limit, q) <==> |page| == limit && Newer(page[limit - 1], q);
  }

  lemma FetchOrdered(t: Tables, user: int, c: KeyCursor, limit: Limit)
    requires IdsUnique(t.posts)
    ensures Keyset.StrictlyOrdered(Fetch(t, user, c, limit, false), Newer)
    ensures |Fetch(t, user, c, limit, false)| <= limit
  {
    var keep := (p: Post) => Visible(t, user, false, p) && Below(p, c);
    PartFacts(t.posts, keep);
    Keyset.SortedStrictly(Keyset.Sorting.Filter(t.posts, keep), Newer);
  }

  lemma FetchStays(iso: Iso, t: Tables, t': Tables, user: int, cursor: string, limit: Limit)
    requires Exact(iso) && IdsUnique(t.posts) && IdsUnique(t'.posts) && Asked(iso, cursor).Some?
    ensures var c := Asked(iso, cursor).value;
      Fetch(t', user, c, limit, false) == Fetch(t, user, c, limit, false) <==>
        StillPage(iso, t, t', user, cursor, limit, PageOf(iso, Fetch(t, user, c, limit, false)))
  {
    var c := Asked(iso, cursor).value;
    var page := Fetch(t, user, c, limit, false);
    FetchOrdered(t, user, c, limit);
    FetchIff(t, user, c, limit, page);
    FetchIff(t', user, c, limit, page);
    StillIff(iso, t, t', user, cursor, limit, page);
  }

  lemma StillIff(iso: Iso, t: Tables, t': Tables, user: int, cursor: string, limit: Limit, page: seq<Post>)
    requires Exact(iso) && Asked(iso, cursor).Some?
    requires AllAsked(t, user, Asked(iso, cursor).value, page)
    requires NoneMissing(t, user, Asked(iso, cursor).value, limit, page)
    ensures StillPage(iso, t, t', user, cursor, limit, PageOf(iso, page)) <==>
      AllAsked(t', user, Asked(iso, cursor).value, page) && NoneMissing(t', user, Asked(iso, cursor).value, limit, page)
  {
    assert PageOf(iso, page).Reply? && PageOf(iso, page).rows == page;
    assert forall k | 0 <= k < |page| :: page[k] in t.posts && Visible(t, user, false, page[k]);
  }

  /** So it is with every cached page. */
  ghost predicate AllStill(iso: Iso, s: Server, t: Tables) {
    forall u, c, l | Cached(s, u, c, l) :: StillPage(iso, s.tables, t, u, c, l, s.cache[CacheKey(u, c, l)])
  }

  /** Any change of the tables - a channel followed or left, banned or unbanned, a post
      hidden, shown again, read, added or deleted - keeps the cache current exactly when
      on every cached page each post is still there and in view, and none that has come
      into view has a place. */
  lemma ChangeKeepsCurrent(iso: Iso, s: Server, t: Tables)
    requires Exact(iso) && Current(iso, s) && IdsUnique(s.tables.posts) && IdsUnique(t.posts)
    ensures Current(iso, s.(tables := t)) <==> AllStill(iso, s, t)
  {
    SameAnswers(iso, s, t);
    ChangeAnswers(iso, s, t);
  }

  lemma ChangeAnswers(iso: Iso, s: Server, t: Tables)
    requires Exact(iso) && Current(iso, s) && IdsUnique(s.tables.posts) && IdsUnique(t.posts)
    ensures AllSame(iso, s, t) <==> AllStill(iso, s, t)
  {
    forall u, c, l: Limit | Cached(s, u, c, l)
      ensures SameAnswer(iso, s.tables, t, u, c, l) <==>
        StillPage(iso, s.tables, t, u, c, l, s.cache[CacheKey(u, c, l)])
    {
      ChangeAnswer(iso, s, t, u, c, l);
    }
    StillEverywhere(iso, s, t);
  }

  lemma StillEverywhere(iso: Iso, s: Server, t: Tables)
    requires Exact(iso)
    requires forall u, c, l | Cached(s, u, c, l) :: SameAnswer(iso, s.tables, t, u, c, l) <==>
      StillPage(iso, s.tables, t, u, c, l, s.cache[CacheKey(u, c, l)])
    ensures AllSame(iso, s, t) <==> AllStill(iso, s, t)
  {
  }

  lemma ChangeAnswer(iso: Iso, s: Server, t: Tables, u: int, c: string, l: Limit)
    requires Exact(iso) && Current(iso, s) && IdsUnique(s.tables.posts) && IdsUnique(t.posts)
    requires Cached(s, u, c, l)
    ensures SameAnswer(iso, s.tables, t, u, c, l) <==>
      StillPage(iso, s.tables, t, u, c, l, s.cache[CacheKey(u, c, l)])
  {
    CacheIs(iso, s, u, c, l);
    if Asked(iso, c).Some? {
      FetchStays(iso, s.tables, t, u, c, l);
      SamePage(iso, Fetch(t, u, Asked(iso, c).value, l, false), Fetch(s.tables, u, Asked(iso, c).value, l, false));
    }
  }

  // ---- what is never cached -------------------------------------------------------------

  /** Whatever the cache holds, a request without a cursor, or with the read posts, is
      answered from the tables and leaves the cache alone. Any other with a readable cursor
      is answered by its key's page, or from the tables, and that page is then its key's. */
  lemma AnsweredFrom(iso: Iso, s: Server, user: int, cursor: string, limit: Limit, includeRead: bool)
    requires Exact(iso)
    ensures var answer := Answer(iso, s, user, cursor, limit, includeRead);
      var (now, key) := (Fresh(iso, s.tables, user, cursor, limit, includeRead), CacheKey(user, cursor, limit));
      var after := AfterGet(iso, s, user, cursor, limit, includeRead);
      && after.tables == s.tables
      && (cursor == "" || includeRead || Asked(iso, cursor).None? ==> answer == now && after.cache == s.cache)
      && (cursor != "" && !includeRead && Asked(iso, cursor).Some? ==>
            && answer == (if key in s.cache then s.cache[key] else now)
            && after.cache == s.cache[key := answer])
  {
    if cursor != "" && !includeRead && CacheKey(user, cursor, limit) in s.cache {
      assert s.cache[CacheKey(user, cursor, limit) := s.cache[CacheKey(user, cursor, limit)]] == s.cache;
    }
  }

  /** The tables after a run: what the last change made them, and the marks since. */
  function TablesAfter(t: Tables, es: seq<Event>): Tables {
    if es == [] then t
    else
      var (before, e) := (TablesAfter(t, es[..|es| - 1]), es[|es| - 1]);
      match e
      case Change(now) => now
      case Mark(u, ids) =>
        if PostsExist(before, ids) then before.(read := ReadWith(before.read, u, ids)) else before
      case _ => before
  }

  lemma {:induction false} RunTables(iso: Iso, s: Server, es: seq<Event>)
    requires Exact(iso)
    ensures Run(iso, s, es).tables == TablesAfter(s.tables, es)
  {
    if es != [] {
      RunTables(iso, s, es[..|es| - 1]);
    }
  }

  /** After every run, whatever changed and whatever was cached, opening the feed or
      refreshing it shows the newest posts of the tables as they are at that moment. */
  lemma RefreshIsFresh(iso: Iso, s: Server, es: seq<Event>, user: int, limit: Limit, includeRead: bool)
    requires Exact(iso)
    ensures var t := TablesAfter(s.tables, es);
      var page := Keyset.Take(Timeline(t, Reader(iso, user, limit, includeRead)), limit);
      && Answer(iso, Run(iso, s, es), user, "", limit, includeRead) == PageOf(iso, page)
      && AfterGet(iso, Run(iso, s, es), user, "", limit, includeRead) == Run(iso, s, es)
  {
    RunTables(iso, s, es);
    var (t, r) := (TablesAfter(s.tables, es), Reader(iso, user, limit, includeRead));
    SameKeep(t.posts, p => Visible(t, user, includeRead, p) && Below(p, INITIAL), p => Showable(t, r, p));
  }

  /** So a post that has just come in, and is newer than all, is what a refresh shows first. */
  lemma RefreshShowsNew(iso: Iso, s: Server, es: seq<Event>, user: int, limit: Limit, q: Post)
    requires Exact(iso)
    requires var t := TablesAfter(s.tables, es);
      IdsUnique(t.posts + [q]) && Visible(t, user, false, q) && Below(q, INITIAL)
        && forall p | p in t.posts :: Newer(q, p)
    ensures var t := TablesAfter(s.tables, es);
      var answer := Answer(iso, Run(iso, s, es + [Change(WithPost(t, q))]), user, "", limit, false);
      answer.Reply? && answer.rows != [] && answer.rows[0] == q
  {
    var (t, all) := (TablesAfter(s.tables, es), es + [Change(WithPost(TablesAfter(s.tables, es), q))]);
    assert all[..|all| - 1] == es;
    RefreshIsFresh(iso, s, all, user, limit, false);
    var r := Reader(iso, user, limit, false);
    var rows := Keyset.Sorting.Filter(t.posts + [q], p => Showable(WithPost(t, q), r, p));
    NewestFirst(t.posts, q, p => Showable(WithPost(t, q), r, p));
  }

  lemma NewestFirst(posts: seq<Post>, q: Post, keep: Post -> bool)
    requires IdsUnique(posts + [q]) && keep(q) && forall p | p in posts :: Newer(q, p)
    ensures var s := Keyset.Listing(Keyset.Sorting.Filter(posts + [q], keep), Newer); s != [] && s[0] == q
  {
    var rows := Keyset.Sorting.Filter(posts + [q], keep);
    var s := Keyset.Listing(rows, Newer);
    PartFacts(posts + [q], keep);
    Keyset.SortedStrictly(rows, Newer);
    Keyset.FilterAppend(posts, [q], keep);
    assert Keyset.Sorting.Filter([q], keep) == [q];
    assert q in rows;
    Keyset.SortHas(rows, Keyset.NotAfter(Newer), q);
    Keyset.Sorting.SortMember(rows, Keyset.NotAfter(Newer), 0);
    Keyset.InPart(posts + [q], keep, s[0]);
    var k :| 0 <= k < |s| && s[k] == q;
  }

  // ---- the store as a step of its own ---------------------------------------------------

  /** `redis.set` at the end of a request whose rows were fetched some time before. */
  function LateStore(s: Server, user: int, cursor: string, limit: Limit, page: Page): Server {
    s.(cache := s.cache[CacheKey(user, cursor, limit) := page])
  }

  /** Between the fetch and the store the agreement hangs on nobody having marked one
      of the page's posts: a store keeps it exactly then. */
  lemma LateStoreClean(s: Server, user: int, cursor: string, limit: Limit, page: Page)
    requires Clean(s)
    ensures Clean(LateStore(s, user, cursor, limit, page)) <==> Unread(s.tables, user, page)
  {
    var r, key := LateStore(s, user, cursor, limit, page), CacheKey(user, cursor, limit);
    if Clean(r) {
      var u, c, l :| key == CacheKey(u, c, l) && Unread(r.tables, u, r.cache[key]);
      KeyDeterminesRequest(u, c, l, user, cursor, limit);
    }
  }

  /** So a mark that falls between a request's fetch and its store leaves a read post
      in the cache, for every post the page shows. */
  lemma MarkBetweenFetchAndStore(iso: Iso, s: Server, user: int, cursor: string, limit: Limit, k: nat)
    requires Exact(iso) && Clean(s) && cursor != ""
    requires Fresh(iso, s.tables, user, cursor, limit, false).Reply?
    requires k < |Fresh(iso, s.tables, user, cursor, limit, false).rows|
    ensures var page := Fresh(iso, s.tables, user, cursor, limit, false);
      PostsExist(s.tables, [page.rows[k].id]) ==>
        !Clean(LateStore(AfterMark(s, user, [page.rows[k].id]), user, cursor, limit, page))
  {
    var page := Fresh(iso, s.tables, user, cursor, limit, false);
    var ids := [page.rows[k].id];
    MarkKeepsClean(s, user, ids);
    LateStoreClean(AfterMark(s, user, ids), user, cursor, limit, page);
    assert (user, ids[0]) in ReadWith(s.tables.read, user, ids);
  }
}
