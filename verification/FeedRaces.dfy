/** The feed endpoint with the fetch and the store of a request, and the commit, the scan
    and the delete of a mark, as steps of their own that others come in between. */
module FeedRaces {
  import opened Prelude
  import opened Cursors
  import opened Feed
  import opened FeedCache

  /** What a request fetches, and which cursors it can read. */
  datatype Api = Api(fetch: (Tables, int, string, Limit) -> Page, readable: string -> bool)

  /** A page fetched shows nothing its user has read. */
  ghost predicate Honest(api: Api) {
    forall t, u, c, l: Limit :: Unread(t, u, api.fetch(t, u, c, l))
  }

  /** The feed's own queries and cursors. */
  function FeedApi(iso: Iso): Api
    requires Exact(iso)
  {
    Api((t, u, c, l: Limit) => Fresh(iso, t, u, c, l, false), c => Asked(iso, c).Some?)
  }

  lemma FeedIsHonest(iso: Iso)
    requires Exact(iso)
    ensures Honest(FeedApi(iso))
  {
    forall t, u, c, l: Limit ensures Unread(t, u, FeedApi(iso).fetch(t, u, c, l)) {
      FreshUnread(iso, t, u, c, l);
    }
  }

  /** A request that has fetched its page and not stored it yet. */
  datatype Flight = Flight(user: int, cursor: string, limit: Limit, page: Page)

  function KeyOf(f: Flight): string { CacheKey(f.user, f.cursor, f.limit) }

  /** A mark that has committed: before its scan, and with the keys the scan found. */
  datatype Marking = Committed(user: int) | Found(user: int, keys: set<string>)

  datatype Race = Race(server: Server, flights: map<int, Flight>, marks: map<int, Marking>)

  datatype Moment =
    | Begin(request: int, user: int, cursor: string, limit: Limit)
    | Finish(request: int)
    | Commit(mark: int, user: int, ids: seq<int>)
    | Scan(mark: int)
    | Drop(mark: int)
    | Expire(key: string)
    | Alter(tables: Tables)

  /** A default-path request with a readable cursor fetches when it has missed the cache,
      which may have been some time before. */
  predicate Fetches(api: Api, w: Race, e: Moment) {
    e.Begin? && e.request !in w.flights && e.cursor != "" && api.readable(e.cursor)
  }

  /** A mark of a post that does not exist is rolled back, and drops nothing. */
  predicate Commits(w: Race, e: Moment) {
    e.Commit? && e.mark !in w.marks && PostsExist(w.server.tables, e.ids)
  }

  function OwnKeys(cache: map<string, Page>, user: int): set<string> {
    set k | k in cache && StartsWith(k, Prefix(user))
  }

  function Next(api: Api, w: Race, e: Moment): Race
  {
    match e
    case Begin(r, u, c, l) =>
      if !Fetches(api, w, e) then w
      else w.(flights := w.flights[r := Flight(u, c, l, api.fetch(w.server.tables, u, c, l))])
    case Finish(r) =>
      if r !in w.flights then w
      else
        var f := w.flights[r];
        w.(server := LateStore(w.server, f.user, f.cursor, f.limit, f.page), flights := w.flights - {r})
    case Commit(m, u, ids) =>
      if !Commits(w, e) then w
      else
        var t := w.server.tables;
        w.(server := w.server.(tables := t.(read := ReadWith(t.read, u, ids))), marks := w.marks[m := Committed(u)])
    case Scan(m) =>
      if m !in w.marks || w.marks[m].Found? then w
      else w.(marks := w.marks[m := Found(w.marks[m].user, OwnKeys(w.server.cache, w.marks[m].user))])
    case Drop(m) =>
      if m !in w.marks || w.marks[m].Committed? then w
      else w.(server := w.server.(cache := w.server.cache - w.marks[m].keys), marks := w.marks - {m})
    case Expire(k) => w.(server := w.server.(cache := w.server.cache - {k}))
    case Alter(t) => w.(server := w.server.(tables := t))
  }

  function Race0(t: Tables): Race { Race(Server(t, map[]), map[], map[]) }

  /** The state before the `k`-th moment. */
  function Goes(api: Api, t: Tables, es: seq<Moment>, k: nat): Race
    requires k <= |es|
  {
    if k == 0 then Race0(t) else Next(api, Goes(api, t, es, k - 1), es[k - 1])
  }

  function TablesAt(api: Api, t: Tables, es: seq<Moment>, k: nat): Tables
    requires k <= |es|
  {
    Goes(api, t, es, k).server.tables
  }

  function CacheAt(api: Api, t: Tables, es: seq<Moment>, k: nat): map<string, Page>
    requires k <= |es|
  {
    Goes(api, t, es, k).server.cache
  }

  /** Other changes of the tables take no read row away and add none. */
  ghost predicate Steady(api: Api, t: Tables, es: seq<Moment>)
  {
    forall k | 0 <= k < |es| && es[k].Alter? :: es[k].tables.read == TablesAt(api, t, es, k).read
  }

  /** The `k`-th moment commits a mark that covers the pair. */
  predicate MarksPair(api: Api, t: Tables, es: seq<Moment>, k: nat, user: int, id: int)
    requires k < |es|
  {
    Commits(Goes(api, t, es, k), es[k]) && es[k].user == user && id in es[k].ids
  }

  lemma ReadsNext(api: Api, t: Tables, es: seq<Moment>, k: nat, user: int, id: int)
    requires k < |es| && Steady(api, t, es)
    ensures (user, id) in TablesAt(api, t, es, k + 1).read
      <==> (user, id) in TablesAt(api, t, es, k).read || MarksPair(api, t, es, k, user, id)
  {
    if es[k].Commit? {
      MarkedPair(TablesAt(api, t, es, k).read, es[k].user, es[k].ids, user, id);
    }
  }

  lemma MarkedPair(read: set<(int, int)>, marker: int, ids: seq<int>, user: int, id: int)
    ensures (user, id) in ReadWith(read, marker, ids) <==> (user, id) in read || (user == marker && id in ids)
  {
    if user == marker && id in ids {
      var k :| 0 <= k < |ids| && ids[k] == id;
      assert (user, ids[k]) in ReadWith(read, marker, ids);
    }
  }

  /** A pair is read at a moment iff it was read before or a mark of it was committed
      in between. */
  lemma {:induction false} ReadsGrow(api: Api, t: Tables, es: seq<Moment>, i: nat, j: nat, user: int, id: int)
    requires i <= j <= |es| && Steady(api, t, es)
    ensures (user, id) in TablesAt(api, t, es, j).read
      <==> (user, id) in TablesAt(api, t, es, i).read || exists k | i <= k < j :: MarksPair(api, t, es, k, user, id)
    decreases j
  {
    if i < j {
      ReadsGrow(api, t, es, i, j - 1, user, id);
      ReadsNext(api, t, es, j - 1, user, id);
    }
  }

  // ---- one request's flight -------------------------------------------------------------

  predicate NotStored(es: seq<Moment>, request: int, i: int, m: nat)
    requires -1 <= i && m <= |es|
  {
    forall k | i < k < m :: es[k] != Finish(request)
  }

  /** Moment `i` is where the request fetches. */
  predicate Takes(api: Api, t: Tables, es: seq<Moment>, i: nat, request: int)
    requires i < |es|
  {
    Fetches(api, Goes(api, t, es, i), es[i]) && es[i].request == request
  }

  /** Moment `i` fetches the page that moment `j` stores. */
  predicate Flies(api: Api, t: Tables, es: seq<Moment>, i: nat, j: nat)
  {
    && i < j < |es| && es[i].Begin? && Takes(api, t, es, i, es[i].request)
    && es[j] == Finish(es[i].request) && NotStored(es, es[i].request, i, j)
  }

  function Fetched(api: Api, t: Tables, es: seq<Moment>, i: nat): Flight
    requires i < |es| && es[i].Begin?
  {
    var e := es[i];
    Flight(e.user, e.cursor, e.limit, api.fetch(TablesAt(api, t, es, i), e.user, e.cursor, e.limit))
  }

  lemma FlightNext(api: Api, w: Race, e: Moment, r: int)
    ensures Fetches(api, w, e) && e.request == r ==>
      r in Next(api, w, e).flights
      && Next(api, w, e).flights[r]
        == Flight(e.user, e.cursor, e.limit, api.fetch(w.server.tables, e.user, e.cursor, e.limit))
    ensures r in w.flights && e != Finish(r)
      ==> r in Next(api, w, e).flights && Next(api, w, e).flights[r] == w.flights[r]
    ensures r in Next(api, w, e).flights
      ==> (r in w.flights && e != Finish(r)) || (Fetches(api, w, e) && e.request == r)
  {
  }

  lemma {:induction false} FlightStays(api: Api, t: Tables, es: seq<Moment>, i: nat, m: nat, r: int)
    requires i < m <= |es| && NotStored(es, r, i, m) && r in Goes(api, t, es, i + 1).flights
    ensures r in Goes(api, t, es, m).flights && Goes(api, t, es, m).flights[r] == Goes(api, t, es, i + 1).flights[r]
    decreases m
  {
    if i + 1 < m {
      FlightNext(api, Goes(api, t, es, m - 1), es[m - 1], r);
      FlightStays(api, t, es, i, m - 1, r);
    }
  }

  lemma FlightIs(api: Api, t: Tables, es: seq<Moment>, i: nat, j: nat)
    requires Flies(api, t, es, i, j)
    ensures es[i].request in Goes(api, t, es, j).flights
    ensures Goes(api, t, es, j).flights[es[i].request] == Fetched(api, t, es, i)
  {
    FlightNext(api, Goes(api, t, es, i), es[i], es[i].request);
    FlightStays(api, t, es, i, j, es[i].request);
  }

  /** A mark by the user of one of the posts was committed in between. */
  predicate MarkedBetween(api: Api, t: Tables, es: seq<Moment>, i: nat, n: nat, user: int, posts: seq<Post>)
    requires i < n <= |es|
  {
    exists k, r | i < k < n && 0 <= r < |posts| :: MarksPair(api, t, es, k, user, posts[r].id)
  }

  /** A mark by the request's user of a post on its page was committed since its fetch. */
  predicate MarkedSince(api: Api, t: Tables, es: seq<Moment>, i: nat, n: nat)
    requires i < n <= |es| && es[i].Begin?
  {
    var f := Fetched(api, t, es, i);
    f.page.Reply? && MarkedBetween(api, t, es, i, n, f.user, f.page.rows)
  }

  lemma ReadIffMarked(api: Api, t: Tables, es: seq<Moment>, i: nat, n: nat, user: int, posts: seq<Post>)
    requires Steady(api, t, es) && i < n <= |es| && es[i].Begin?
    requires NoneRead(TablesAt(api, t, es, i), user, posts)
    ensures NoneRead(TablesAt(api, t, es, n), user, posts) <==> !MarkedBetween(api, t, es, i, n, user, posts)
  {
    forall r | 0 <= r < |posts|
      ensures (user, posts[r].id) in TablesAt(api, t, es, n).read
        <==> exists k | i < k < n :: MarksPair(api, t, es, k, user, posts[r].id)
    {
      ReadsGrow(api, t, es, i, n, user, posts[r].id);
      assert !MarksPair(api, t, es, i, user, posts[r].id);
    }
  }

  lemma UnreadIffUnmarked(api: Api, t: Tables, es: seq<Moment>, i: nat, n: nat)
    requires Honest(api) && Steady(api, t, es) && i < n <= |es| && es[i].Begin?
    ensures var f := Fetched(api, t, es, i);
      Unread(TablesAt(api, t, es, n), f.user, f.page) <==> !MarkedSince(api, t, es, i, n)
  {
    var f := Fetched(api, t, es, i);
    assert Unread(TablesAt(api, t, es, i), f.user, f.page);
    if f.page.Reply? {
      ReadIffMarked(api, t, es, i, n, f.user, f.page.rows);
    }
  }

  /** A store keeps the cache free of read posts exactly when no mark by its user of a
      post on its page was committed between its fetch and the store. */
  lemma StoreCleanIffUnmarked(api: Api, t: Tables, es: seq<Moment>, i: nat, j: nat)
    requires Honest(api) && Steady(api, t, es) && Flies(api, t, es, i, j)
    requires Clean(Goes(api, t, es, j).server)
    ensures Clean(Goes(api, t, es, j + 1).server) <==> !MarkedSince(api, t, es, i, j)
  {
    var f := Fetched(api, t, es, i);
    FlightIs(api, t, es, i, j);
    UnreadIffUnmarked(api, t, es, i, j);
    LateStoreClean(Goes(api, t, es, j).server, f.user, f.cursor, f.limit, f.page);
  }

  lemma FlightBack(api: Api, t: Tables, es: seq<Moment>, m: nat, r: int)
    requires m <= |es| && r in Goes(api, t, es, m).flights
    ensures m > 0 && (Takes(api, t, es, m - 1, r) || (r in Goes(api, t, es, m - 1).flights && es[m - 1] != Finish(r)))
  {
    if m > 0 {
      FlightNext(api, Goes(api, t, es, m - 1), es[m - 1], r);
    }
  }

  /** Where the request in flight before moment `m` fetched. */
  ghost predicate BeganAt(api: Api, t: Tables, es: seq<Moment>, m: nat, r: int, i: int)
    requires m <= |es|
  {
    0 <= i < m && Takes(api, t, es, i, r) && NotStored(es, r, i, m)
  }

  lemma BeganNext(api: Api, t: Tables, es: seq<Moment>, m: nat, r: int, i: int)
    requires m < |es| && BeganAt(api, t, es, m, r, i) && es[m] != Finish(r)
    ensures BeganAt(api, t, es, m + 1, r, i)
  {
  }

  lemma {:induction false} FlightBegan(api: Api, t: Tables, es: seq<Moment>, m: nat, r: int)
    requires m <= |es| && r in Goes(api, t, es, m).flights
    ensures exists i :: BeganAt(api, t, es, m, r, i)
    decreases m
  {
    FlightBack(api, t, es, m, r);
    var last := m - 1;
    if Takes(api, t, es, last, r) {
      BeganHere(api, t, es, last, r);
    } else {
      FlightBegan(api, t, es, last, r);
      var i :| BeganAt(api, t, es, last, r, i);
      BeganNext(api, t, es, last, r, i);
    }
  }

  lemma BeganHere(api: Api, t: Tables, es: seq<Moment>, m: nat, r: int)
    requires m < |es| && Takes(api, t, es, m, r)
    ensures BeganAt(api, t, es, m + 1, r, m)
  {
  }

  // ---- what a cached page is ------------------------------------------------------------

  /** The moment stores a page under the key. */
  predicate Stores(w: Race, e: Moment, key: string) {
    e.Finish? && e.request in w.flights && KeyOf(w.flights[e.request]) == key
  }

  predicate StoresAt(api: Api, t: Tables, es: seq<Moment>, k: nat, key: string)
    requires k < |es|
  {
    Stores(Goes(api, t, es, k), es[k], key)
  }

  lemma KeyNext(api: Api, w: Race, e: Moment, key: string)
    ensures Stores(w, e, key) ==>
      key in Next(api, w, e).server.cache && Next(api, w, e).server.cache[key] == w.flights[e.request].page
    ensures !Stores(w, e, key) && key in Next(api, w, e).server.cache ==>
      key in w.server.cache && Next(api, w, e).server.cache[key] == w.server.cache[key]
  {
  }

  /** The entry under the key has stood since moment `j`. */
  predicate Stands(api: Api, t: Tables, es: seq<Moment>, j: nat, n: nat, key: string)
    requires j < n <= |es|
  {
    && (forall k | j < k < n :: !StoresAt(api, t, es, k, key))
    && (forall k: nat | j < k <= n :: key in CacheAt(api, t, es, k))
  }

  /** The entry under the key was fetched at moment `i` and stored at moment `j`. */
  predicate Entry(api: Api, t: Tables, es: seq<Moment>, i: nat, j: nat, n: nat, key: string)
    requires n <= |es|
  {
    Flies(api, t, es, i, j) && j < n && KeyOf(Fetched(api, t, es, i)) == key && Stands(api, t, es, j, n, key)
  }

  lemma {:induction false} EntryPage(api: Api, t: Tables, es: seq<Moment>, i: nat, j: nat, n: nat, key: string)
    requires n <= |es| && Entry(api, t, es, i, j, n, key)
    ensures key in CacheAt(api, t, es, n) && CacheAt(api, t, es, n)[key] == Fetched(api, t, es, i).page
    decreases n
  {
    KeyNext(api, Goes(api, t, es, n - 1), es[n - 1], key);
    if j + 1 < n {
      assert !StoresAt(api, t, es, n - 1, key);
      EntryPage(api, t, es, i, j, n - 1, key);
    } else {
      FlightIs(api, t, es, i, j);
    }
  }

  lemma EntryStored(api: Api, t: Tables, es: seq<Moment>, j: nat, key: string) returns (i: nat)
    requires j < |es| && StoresAt(api, t, es, j, key)
    ensures Entry(api, t, es, i, j, j + 1, key)
  {
    FlightBegan(api, t, es, j, es[j].request);
    i :| BeganAt(api, t, es, j, es[j].request, i);
    assert Flies(api, t, es, i, j);
    FlightIs(api, t, es, i, j);
    KeyNext(api, Goes(api, t, es, j), es[j], key);
  }

  lemma EntryNext(api: Api, t: Tables, es: seq<Moment>, i: nat, j: nat, n: nat, key: string)
    requires n < |es| && Entry(api, t, es, i, j, n, key)
    requires !StoresAt(api, t, es, n, key) && key in CacheAt(api, t, es, n + 1)
    ensures Entry(api, t, es, i, j, n + 1, key)
  {
  }

  /** Every cached page was fetched and stored by some request. */
  lemma {:induction false} EntryExists(api: Api, t: Tables, es: seq<Moment>, n: nat, key: string)
    requires n <= |es| && key in CacheAt(api, t, es, n)
    ensures exists i: nat, j: nat :: Entry(api, t, es, i, j, n, key)
    decreases n
  {
    var last := n - 1;
    KeyNext(api, Goes(api, t, es, last), es[last], key);
    if StoresAt(api, t, es, last, key) {
      var i := EntryStored(api, t, es, last, key);
    } else {
      EntryExists(api, t, es, last, key);
      var i: nat, j: nat :| Entry(api, t, es, i, j, last, key);
      EntryNext(api, t, es, i, j, last, key);
    }
  }

  /** A cached page shows a post its user has read exactly when a mark of one was
      committed since the page was fetched. */
  lemma StaleIffMarked(api: Api, t: Tables, es: seq<Moment>, i: nat, j: nat, n: nat, key: string)
    requires Honest(api) && Steady(api, t, es) && n <= |es| && Entry(api, t, es, i, j, n, key)
    ensures key in CacheAt(api, t, es, n)
    ensures Unread(TablesAt(api, t, es, n), es[i].user, CacheAt(api, t, es, n)[key]) <==> !MarkedSince(api, t, es, i, n)
  {
    EntryPage(api, t, es, i, j, n, key);
    UnreadIffUnmarked(api, t, es, i, n);
  }

  // ---- what a mark drops ----------------------------------------------------------------

  /** The mark committed at `k` scans at `s` and deletes at `d`. */
  predicate Completes(api: Api, t: Tables, es: seq<Moment>, k: nat, s: nat, d: nat)
  {
    && k < s < d < |es| && Commits(Goes(api, t, es, k), es[k])
    && es[s] == Scan(es[k].mark) && (forall x | k < x < s :: es[x] != Scan(es[k].mark))
    && es[d] == Drop(es[k].mark) && (forall x | s < x < d :: es[x] != Drop(es[k].mark))
  }

  predicate MarkIs(api: Api, t: Tables, es: seq<Moment>, n: nat, m: int, marking: Marking)
    requires n <= |es|
  {
    m in Goes(api, t, es, n).marks && Goes(api, t, es, n).marks[m] == marking
  }

  lemma {:induction false} MarkStays(api: Api, t: Tables, es: seq<Moment>, a: nat, n: nat, m: int, marking: Marking)
    requires a <= n <= |es| && MarkIs(api, t, es, a, m, marking)
    requires forall x | a <= x < n :: es[x] != if marking.Committed? then Scan(m) else Drop(m)
    ensures MarkIs(api, t, es, n, m, marking)
    decreases n
  {
    if a < n {
      MarkStays(api, t, es, a, n - 1, m, marking);
    }
  }

  /** Every key of the user that was there at the scan is gone after the delete. */
  lemma MarkDrops(api: Api, t: Tables, es: seq<Moment>, k: nat, s: nat, d: nat, key: string)
    requires Completes(api, t, es, k, s, d) && key in OwnKeys(CacheAt(api, t, es, s), es[k].user)
    ensures key !in CacheAt(api, t, es, d + 1)
  {
    var m, found := es[k].mark, Found(es[k].user, OwnKeys(CacheAt(api, t, es, s), es[k].user));
    assert MarkIs(api, t, es, k + 1, m, Committed(es[k].user));
    MarkStays(api, t, es, k + 1, s, m, Committed(es[k].user));
    assert MarkIs(api, t, es, s + 1, m, found);
    MarkStays(api, t, es, s + 1, d, m, found);
  }

  lemma OwnKey(api: Api, t: Tables, es: seq<Moment>, i: nat, n: nat)
    requires i < |es| && es[i].Begin? && n <= |es| && KeyOf(Fetched(api, t, es, i)) in CacheAt(api, t, es, n)
    ensures KeyOf(Fetched(api, t, es, i)) in OwnKeys(CacheAt(api, t, es, n), es[i].user)
  {
    PatternOwner(es[i].user, es[i].cursor, es[i].limit, es[i].user);
  }

  /** A page that outlives a mark of its user was stored after that mark's scan. */
  lemma SurvivorWasLate(api: Api, t: Tables, es: seq<Moment>, i: nat, j: nat, n: nat, key: string, k: nat, s: nat,
      d: nat)
    requires n <= |es| && Entry(api, t, es, i, j, n, key) && Completes(api, t, es, k, s, d) && d < n
    requires es[k].user == es[i].user
    ensures s < j
  {
    if j < s {
      OwnKey(api, t, es, i, s);
      MarkDrops(api, t, es, k, s, d, key);
    }
  }

  /** The mark committed at `k` has not dropped its user's pages by moment `n`. */
  ghost predicate Open(api: Api, t: Tables, es: seq<Moment>, k: nat, n: nat) {
    forall s: nat, d: nat | Completes(api, t, es, k, s, d) :: n <= d
  }

  /** A mark of a post on the page was committed after its fetch, and either has not
      dropped its user's pages yet or had scanned them before the page was stored. */
  ghost predicate Overtaken(api: Api, t: Tables, es: seq<Moment>, i: nat, j: nat, n: nat, k: nat)
    requires i < n <= |es| && es[i].Begin?
  {
    && i < k < n && Covers(api, t, es, k, Fetched(api, t, es, i))
    && (Open(api, t, es, k, n) || exists s: nat, d: nat :: Completes(api, t, es, k, s, d) && s < j)
  }

  predicate Covers(api: Api, t: Tables, es: seq<Moment>, k: nat, f: Flight)
    requires k < |es|
  {
    f.page.Reply? && exists r | 0 <= r < |f.page.rows| :: MarksPair(api, t, es, k, f.user, f.page.rows[r].id)
  }

  /** In every run, however fetches, stores and the steps of marks interleave: a cached
      page shows a post its user has read exactly when a mark of one was committed since
      its fetch and is either still to drop the pages, or scanned before the store. */
  lemma StaleExactly(api: Api, t: Tables, es: seq<Moment>, i: nat, j: nat, n: nat, key: string)
    requires Honest(api) && Steady(api, t, es) && n <= |es| && Entry(api, t, es, i, j, n, key)
    ensures key in CacheAt(api, t, es, n)
    ensures !Unread(TablesAt(api, t, es, n), es[i].user, CacheAt(api, t, es, n)[key]) <==>
      exists k: nat :: Overtaken(api, t, es, i, j, n, k)
  {
    StaleIffMarked(api, t, es, i, j, n, key);
    var f := Fetched(api, t, es, i);
    if MarkedSince(api, t, es, i, n) {
      var k, r :| i < k < n && 0 <= r < |f.page.rows| && MarksPair(api, t, es, k, f.user, f.page.rows[r].id);
      assert Covers(api, t, es, k, f);
      if !Open(api, t, es, k, n) {
        var s: nat, d: nat :| Completes(api, t, es, k, s, d) && d < n;
        SurvivorWasLate(api, t, es, i, j, n, key, k, s, d);
      }
      assert Overtaken(api, t, es, i, j, n, k);
    }
  }

  /** So in every reachable state the cache is free of read posts exactly when no entry
      has been overtaken by a mark. */
  lemma CleanExactly(api: Api, t: Tables, es: seq<Moment>, n: nat)
    requires Honest(api) && Steady(api, t, es) && n <= |es|
    ensures Clean(Goes(api, t, es, n).server) <==>
      forall i: nat, j: nat, key, k: nat | Entry(api, t, es, i, j, n, key) :: !Overtaken(api, t, es, i, j, n, k)
  {
    var server := Goes(api, t, es, n).server;
    if Clean(server) {
      forall i: nat, j: nat, key, k: nat | Entry(api, t, es, i, j, n, key) ensures !Overtaken(api, t, es, i, j, n, k) {
        StaleExactly(api, t, es, i, j, n, key);
        var u, c, l :| key == CacheKey(u, c, l) && Unread(server.tables, u, server.cache[key]);
        KeyDeterminesRequest(u, c, l, es[i].user, es[i].cursor, es[i].limit);
      }
    } else {
      var key :| key in server.cache && !exists u, c, l ::
        key == CacheKey(u, c, l) && Unread(server.tables, u, server.cache[key]);
      EntryExists(api, t, es, n, key);
      var i: nat, j: nat :| Entry(api, t, es, i, j, n, key);
      StaleExactly(api, t, es, i, j, n, key);
      assert key == CacheKey(es[i].user, es[i].cursor, es[i].limit);
    }
  }

  /** Of the feed's own query and cursors. */
  lemma FeedCleanExactly(iso: Iso, t: Tables, es: seq<Moment>, n: nat)
    requires Exact(iso) && Steady(FeedApi(iso), t, es) && n <= |es|
    ensures Clean(Goes(FeedApi(iso), t, es, n).server) <==>
      forall i: nat, j: nat, key, k: nat | Entry(FeedApi(iso), t, es, i, j, n, key) ::
        !Overtaken(FeedApi(iso), t, es, i, j, n, k)
  {
    FeedIsHonest(iso);
    CleanExactly(FeedApi(iso), t, es, n);
  }

  /** The gap inside a mark: once it has committed and until it has dropped the pages, a
      request is answered from the cache with the post just read. */
  lemma CommittedNotDropped(iso: Iso, s: Server, user: int, cursor: string, limit: Limit, k: nat)
    requires Exact(iso) && cursor != "" && Asked(iso, cursor).Some? && CacheKey(user, cursor, limit) in s.cache
    requires s.cache[CacheKey(user, cursor, limit)].Reply? && k < |s.cache[CacheKey(user, cursor, limit)].rows|
    ensures var page := s.cache[CacheKey(user, cursor, limit)];
      var w := Next(FeedApi(iso), Race(s, map[], map[]), Commit(0, user, [page.rows[k].id]));
      PostsExist(s.tables, [page.rows[k].id]) ==>
        && !Clean(w.server) && Answer(iso, w.server, user, cursor, limit, false) == page
        && !Unread(w.server.tables, user, page)
  {
    var key := CacheKey(user, cursor, limit);
    var ids := [s.cache[key].rows[k].id];
    assert (user, ids[0]) in ReadWith(s.tables.read, user, ids);
    var w := Next(FeedApi(iso), Race(s, map[], map[]), Commit(0, user, ids));
    if PostsExist(s.tables, ids) && Clean(w.server) {
      var u, c, l :| key == CacheKey(u, c, l) && Unread(w.server.tables, u, w.server.cache[key]);
      KeyDeterminesRequest(u, c, l, user, cursor, limit);
    }
  }
}
