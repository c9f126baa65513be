/** Keyset paging over a table: what a query "after the cursor" returns. */
module Keyset {
  import opened Prelude
  import opened Sorting

  /** A total order that may fail to tell some elements apart. */
  ghost predicate StrictWeak<T(!new)>(before: (T, T) -> bool) {
    && (forall x, y :: before(x, y) ==> !before(y, x))
    && (forall x, y, z :: before(x, z) ==> before(x, y) || before(y, z))
  }

  ghost predicate StrictTotal<T(!new)>(before: (T, T) -> bool) {
    StrictWeak(before) && forall x, y :: x != y ==> before(x, y) || before(y, x)
  }

  /** The order tells any two rows of a table apart. */
  predicate Separates<T(==)>(rows: seq<T>, before: (T, T) -> bool) {
    forall x, y | x in rows && y in rows && x != y :: before(x, y) || before(y, x)
  }

  function NotAfter<T>(before: (T, T) -> bool): (T, T) -> bool {
    (x, y) => !before(y, x)
  }

  function Take<T>(s: seq<T>, n: nat): seq<T> {
    if n < |s| then s[..n] else s
  }

  /** SELECT ... WHERE keep ORDER BY before LIMIT n. */
  function Query<T(==)>(rows: seq<T>, keep: T -> bool, before: (T, T) -> bool, n: nat): seq<T> {
    Take(Sort(Filter(rows, keep), NotAfter(before)), n)
  }

  /** The whole table in order. */
  function Listing<T(==)>(rows: seq<T>, before: (T, T) -> bool): seq<T> {
    Sort(rows, NotAfter(before))
  }

  lemma PreorderOf<T(!new)>(before: (T, T) -> bool)
    requires StrictWeak(before)
    ensures TotalPreorder(NotAfter(before))
  {
    var le := NotAfter(before);
    forall x, y, z | le(x, y) && le(y, z) ensures le(x, z) {
      assert before(z, x) ==> before(z, y) || before(y, x);
    }
  }

  lemma {:induction false} FilterCount<T>(s: seq<T>, keep: T -> bool, x: T)
    ensures multiset(Filter(s, keep))[x] == if keep(x) then multiset(s)[x] else 0
  {
    if s != [] {
      FilterCount(s[1..], keep, x);
      assert s == [s[0]] + s[1..];
    }
  }

  lemma {:induction false} FilterTwice<T>(s: seq<T>, first: T -> bool, second: T -> bool, both: T -> bool)
    requires forall x :: both(x) <==> first(x) && second(x)
    ensures Filter(s, both) == Filter(Filter(s, first), second)
  {
    if s != [] {
      FilterTwice(s[1..], first, second, both);
      if first(s[0]) {
        assert Filter(s, first)[1..] == Filter(s[1..], first);
      } else {
        assert Filter(s, first) == Filter(s[1..], first);
        assert !both(s[0]);
      }
    }
  }

  lemma {:induction false} FilterDistinct<T>(s: seq<T>, keep: T -> bool)
    requires Distinct(s)
    ensures Distinct(Filter(s, keep))
  {
    if s != [] {
      FilterDistinct(s[1..], keep);
      var rest := Filter(s[1..], keep);
      forall k | 0 <= k < |rest| ensures rest[k] != s[0] {
        var j := FilterAt(s[1..], keep, k);
        assert s[0] != s[j + 1];
      }
    }
  }

  lemma {:induction false} FilterAt<T>(s: seq<T>, keep: T -> bool, k: nat) returns (j: nat)
    requires k < |Filter(s, keep)|
    ensures j < |s| && s[j] == Filter(s, keep)[k] && keep(s[j])
  {
    if keep(s[0]) && k == 0 {
      j := 0;
    } else {
      j := FilterAt(s[1..], keep, if keep(s[0]) then k - 1 else k);
      j := j + 1;
    }
  }

  lemma {:induction false} FilterOrdered<T>(s: seq<T>, keep: T -> bool, le: (T, T) -> bool)
    requires Ordered(s, le)
    ensures Ordered(Filter(s, keep), le)
  {
    if s != [] {
      FilterOrdered(s[1..], keep, le);
      var rest := Filter(s[1..], keep);
      forall k | 0 <= k < |rest| ensures le(s[0], rest[k]) {
        var j := FilterAt(s[1..], keep, k);
        assert le(s[0], s[j + 1]);
      }
    }
  }

  lemma SortedPartContents<T(!new)>(s: seq<T>, keep: T -> bool, le: (T, T) -> bool)
    ensures multiset(Sort(Filter(s, keep), le)) == multiset(Filter(Sort(s, le), keep))
  {
    SortContents(Filter(s, keep), le);
    SortContents(s, le);
    var a, b := multiset(Filter(s, keep)), multiset(Filter(Sort(s, le), keep));
    forall x: T ensures a[x] == b[x] {
      FilterCount(s, keep, x);
      FilterCount(Sort(s, le), keep, x);
    }
    assert a == b;
  }

  lemma InSortedPart<T>(s: seq<T>, keep: T -> bool, le: (T, T) -> bool, x: T)
    requires x in Sort(Filter(s, keep), le)
    ensures x in s
  {
    SortContents(Filter(s, keep), le);
    assert x in Filter(s, keep);
    var k :| 0 <= k < |Filter(s, keep)| && Filter(s, keep)[k] == x;
    var j := FilterAt(s, keep, k);
  }

  /** Sorting what a condition keeps is keeping it of the sorted table. */
  lemma SortFilterCommute<T(!new)>(s: seq<T>, keep: T -> bool, before: (T, T) -> bool)
    requires StrictWeak(before) && Separates(s, before)
    ensures Sort(Filter(s, keep), NotAfter(before)) == Filter(Listing(s, before), keep)
  {
    var le := NotAfter(before);
    PreorderOf(before);
    var a, b := Sort(Filter(s, keep), le), Filter(Sort(s, le), keep);
    SortOrdered(Filter(s, keep), le);
    SortOrdered(s, le);
    FilterOrdered(Sort(s, le), keep, le);
    SortedPartContents(s, keep, le);
    forall x, y | x in a && y in a && le(x, y) && le(y, x) ensures x == y {
      InSortedPart(s, keep, le, x);
      InSortedPart(s, keep, le, y);
    }
    OrderedUnique(a, b, le);
  }

  lemma {:induction false} FilterSuffix<T>(s: seq<T>, keep: T -> bool, i: nat)
    requires i <= |s| && forall k | 0 <= k < |s| :: keep(s[k]) <==> k >= i
    ensures Filter(s, keep) == s[i..]
    decreases |s|
  {
    if s != [] {
      if i == 0 {
        FilterSuffix(s[1..], keep, 0);
      } else {
        FilterSuffix(s[1..], keep, i - 1);
        assert s[1..][i - 1..] == s[i..];
      }
    }
  }

  /** A condition that holds of a row iff it comes strictly after the `i`-th row of
      the listing selects the listing's next rows, in order. */
  lemma QueryAfter<T(!new)>(rows: seq<T>, keep: T -> bool, before: (T, T) -> bool, i: nat, n: nat)
    requires StrictWeak(before) && Separates(rows, before) && Distinct(rows) && i <= |Listing(rows, before)|
    requires forall x | x in rows :: keep(x) <==> i == 0 || before(Listing(rows, before)[i - 1], x)
    ensures Query(rows, keep, before, n) == Take(Listing(rows, before)[i..], n)
  {
    var le := NotAfter(before);
    var s := Listing(rows, before);
    PreorderOf(before);
    SortOrdered(rows, le);
    SortContents(rows, le);
    SortDistinct(rows, le);
    forall k | 0 <= k < |s| ensures keep(s[k]) <==> k >= i {
      assert s[k] in s;
      if i > 0 {
        assert s[i - 1] in s;
        if k >= i {
          assert le(s[i - 1], s[k]);
        } else if k < i - 1 {
          assert le(s[k], s[i - 1]);
        }
      }
    }
    FilterSuffix(s, keep, i);
    SortFilterCommute(rows, keep, before);
  }

  // ---- what a change does to a page -----------------------------------------------------

  lemma {:induction false} TakeKept<T>(s: seq<T>, keep: T -> bool, n: nat)
    requires forall k | 0 <= k < |s| && k < n :: keep(s[k])
    ensures Take(Filter(s, keep), n) == Take(s, n)
  {
    if s != [] && n > 0 {
      TakeKept(s[1..], keep, n - 1);
      assert Filter(s, keep) == [s[0]] + Filter(s[1..], keep);
      TakeFirst(s[0], s[1..], n);
      TakeFirst(s[0], Filter(s[1..], keep), n);
      assert s == [s[0]] + s[1..];
    }
  }

  lemma TakeFirst<T>(x: T, s: seq<T>, n: nat)
    requires n > 0
    ensures Take([x] + s, n) == [x] + Take(s, n - 1)
  {
  }

  lemma SeparatesPart<T>(s: seq<T>, keep: T -> bool, before: (T, T) -> bool)
    requires Separates(s, before)
    ensures Separates(Filter(s, keep), before)
  {
    forall x, y | x in Filter(s, keep) && y in Filter(s, keep) && x != y ensures before(x, y) || before(y, x) {
      InPart(s, keep, x);
      InPart(s, keep, y);
    }
  }

  lemma InPart<T>(s: seq<T>, keep: T -> bool, x: T)
    requires x in Filter(s, keep)
    ensures x in s && keep(x)
  {
    var k :| 0 <= k < |Filter(s, keep)| && Filter(s, keep)[k] == x;
    var j := FilterAt(s, keep, k);
  }

  lemma QueryRowKept<T>(rows: seq<T>, keep: T -> bool, before: (T, T) -> bool, n: nat, k: nat)
    requires k < |Query(rows, keep, before, n)|
    ensures Query(rows, keep, before, n)[k] in rows && keep(Query(rows, keep, before, n)[k])
  {
    SortMember(Filter(rows, keep), NotAfter(before), k);
    InPart(rows, keep, Query(rows, keep, before, n)[k]);
  }

  /** A further condition leaves a page as it was exactly when every row of the page
      meets it. */
  lemma QueryRestrict<T(!new)>(rows: seq<T>, keep: T -> bool, also: T -> bool, both: T -> bool,
      before: (T, T) -> bool, n: nat)
    requires StrictWeak(before) && Separates(rows, before) && forall x :: both(x) <==> keep(x) && also(x)
    ensures var page := Query(rows, keep, before, n);
      Query(rows, both, before, n) == page <==> forall k | 0 <= k < |page| :: also(page[k])
  {
    var page := Query(rows, keep, before, n);
    var s := Sort(Filter(rows, keep), NotAfter(before));
    SeparatesPart(rows, keep, before);
    FilterTwice(rows, keep, also, both);
    SortFilterCommute(Filter(rows, keep), also, before);
    if forall k | 0 <= k < |page| :: also(page[k]) {
      assert forall k | 0 <= k < |s| && k < n :: s[k] == page[k];
      TakeKept(s, also, n);
    }
    if Query(rows, both, before, n) == page {
      forall k | 0 <= k < |page| ensures also(page[k]) {
        QueryRowKept(rows, both, before, n, k);
      }
    }
  }

  lemma {:induction false} FilterAppend<T>(a: seq<T>, b: seq<T>, keep: T -> bool)
    ensures Filter(a + b, keep) == Filter(a, keep) + Filter(b, keep)
  {
    if a == [] {
      assert a + b == b;
    } else {
      FilterAppend(a[1..], b, keep);
      assert a + b == [a[0]] + (a[1..] + b) && a == [a[0]] + a[1..];
      FilterFirst(a[0], a[1..] + b, keep);
      FilterFirst(a[0], a[1..], keep);
    }
  }

  lemma {:induction false} FilterAll<T>(s: seq<T>, keep: T -> bool)
    requires forall k | 0 <= k < |s| :: keep(s[k])
    ensures Filter(s, keep) == s
  {
    if s != [] {
      FilterAll(s[1..], keep);
    }
  }

  /** A row beyond a full page. */
  predicate Beyond<T>(page: seq<T>, before: (T, T) -> bool, n: nat, q: T) {
    n == 0 || (|page| == n && before(page[n - 1], q))
  }

  /** The page without `q` of an ordered list that has `q` once. */
  lemma TakeWithout<T(!new)>(s: seq<T>, q: T, before: (T, T) -> bool, n: nat)
    requires StrictWeak(before) && Separates(s, before) && Ordered(s, NotAfter(before)) && Distinct(s) && q in s
    ensures Take(Filter(s, x => x != q), n) == Take(s, n) <==> Beyond(Take(Filter(s, x => x != q), n), before, n, q)
  {
    var rest := Filter(s, x => x != q);
    var i :| 0 <= i < |s| && s[i] == q;
    WithoutOne(s, q, i);
    assert rest == s[..i] + s[i + 1..];
    if i < n {
      var page := Take(rest, n);
      assert Take(s, n)[i] == q;
      assert |s| > n ==> rest[n - 1] == s[n] && NotAfter(before)(s[i], s[n]);
    } else if n > 0 {
      assert Take(rest, n) == s[..n] == Take(s, n);
      assert NotAfter(before)(s[n - 1], s[i]);
      assert s[n - 1] in s;
    }
  }

  lemma {:induction false} WithoutOne<T>(s: seq<T>, q: T, i: nat)
    requires Distinct(s) && i < |s| && s[i] == q
    ensures Filter(s, x => x != q) == s[..i] + s[i + 1..]
    decreases i
  {
    var keep := x => x != q;
    if i == 0 {
      FilterAll(s[1..], keep);
    } else {
      WithoutOne(s[1..], q, i - 1);
      assert s[..i] + s[i + 1..] == [s[0]] + (s[1..][..i - 1] + s[1..][i..]);
    }
  }

  /** A new row leaves a page as it was exactly when the query does not ask for it, or
      the page is full and ends before it. */
  lemma QueryInsert<T(!new)>(rows: seq<T>, q: T, keep: T -> bool, before: (T, T) -> bool, n: nat)
    requires StrictWeak(before) && Separates(rows + [q], before) && Distinct(rows + [q])
    ensures var page := Query(rows, keep, before, n);
      Query(rows + [q], keep, before, n) == page <==> !keep(q) || Beyond(page, before, n, q)
  {
    var le, more := NotAfter(before), rows + [q];
    FilterAppend(rows, [q], keep);
    assert Filter([q], keep) == if keep(q) then [q] else [];
    if !keep(q) {
      assert Filter(more, keep) == Filter(rows, keep);
    } else {
      var kept := Filter(more, keep);
      var s := Sort(kept, le);
      SeparatesPart(more, keep, before);
      FilterDistinct(more, keep);
      PreorderOf(before);
      SortOrdered(kept, le);
      SortDistinct(kept, le);
      SortContents(kept, le);
      var other := x => x != q;
      WithoutOne(kept, q, |kept| - 1);
      assert Filter(kept, other) == Filter(rows, keep);
      SortFilterCommute(kept, other, before);
      SortedSeparates(kept, before);
      assert q in kept;
      SortHas(kept, le, q);
      TakeWithout(s, q, before, n);
    }
  }

  predicate StrictlyOrdered<T>(s: seq<T>, before: (T, T) -> bool) {
    forall i, j | 0 <= i < j < |s| :: before(s[i], s[j])
  }

  /** A short ordered list is the front of an ordered one when it is taken from it and all
      the rest lies beyond it. */
  lemma {:induction false} FrontIs<T(!new)>(s: seq<T>, page: seq<T>, before: (T, T) -> bool, n: nat)
    requires StrictWeak(before) && StrictlyOrdered(s, before) && StrictlyOrdered(page, before) && |page| <= n
    requires forall k | 0 <= k < |page| :: page[k] in s
    requires forall k | 0 <= k < |s| && s[k] !in page :: Beyond(page, before, n, s[k])
    ensures Take(s, n) == page
    decreases |page|
  {
    if page == [] {
      if n > 0 && s != [] {
        NothingBeyond(s[0], before, n);
      }
    } else {
      FrontFirst(s, page, before, n);
      FrontTail(s, page, before, n);
      FrontIs(s[1..], page[1..], before, n - 1);
      FirstAndFront(s, page, n);
    }
  }

  lemma NothingBeyond<T(!new)>(q: T, before: (T, T) -> bool, n: nat)
    requires n > 0
    ensures !Beyond([], before, n, q)
  {
  }

  lemma FirstAndFront<T>(s: seq<T>, page: seq<T>, n: nat)
    requires n > 0 && s != [] && page != [] && s[0] == page[0] && Take(s[1..], n - 1) == page[1..]
    ensures Take(s, n) == page
  {
    TakeFirst(s[0], s[1..], n);
    assert s == [s[0]] + s[1..] && page == [page[0]] + page[1..];
  }

  lemma FrontTail<T(!new)>(s: seq<T>, page: seq<T>, before: (T, T) -> bool, n: nat)
    requires StrictWeak(before) && StrictlyOrdered(s, before) && StrictlyOrdered(page, before) && 0 < |page| <= n
    requires s != [] && s[0] == page[0] && forall k | 0 <= k < |page| :: page[k] in s
    requires forall k | 0 <= k < |s| && s[k] !in page :: Beyond(page, before, n, s[k])
    ensures StrictlyOrdered(s[1..], before) && StrictlyOrdered(page[1..], before)
    ensures forall k | 0 <= k < |page[1..]| :: page[1..][k] in s[1..]
    ensures forall k | 0 <= k < |s[1..]| && s[1..][k] !in page[1..] :: Beyond(page[1..], before, n - 1, s[1..][k])
  {
    forall k | 0 < k < |page| ensures page[k] in s[1..] {
      var j :| 0 <= j < |s| && s[j] == page[k];
      assert before(page[0], page[k]) && s[j] == s[1..][j - 1];
    }
    forall k | 0 < k < |s| && s[k] !in page[1..] ensures Beyond(page[1..], before, n - 1, s[k]) {
      assert before(s[0], s[k]);
      assert page == [page[0]] + page[1..];
    }
  }

  lemma FrontFirst<T(!new)>(s: seq<T>, page: seq<T>, before: (T, T) -> bool, n: nat)
    requires StrictWeak(before) && StrictlyOrdered(s, before) && StrictlyOrdered(page, before) && 0 < |page| <= n
    requires forall k | 0 <= k < |page| :: page[k] in s
    requires forall k | 0 <= k < |s| && s[k] !in page :: Beyond(page, before, n, s[k])
    ensures s != [] && s[0] == page[0]
  {
    assert page[0] in s;
    var first := s[0];
    assert forall i | 0 < i < |s| :: before(s[0], s[i]);
    assert forall i | 0 < i < |page| :: before(page[0], page[i]);
    assert first in page || Beyond(page, before, n, first);
  }

  lemma SortedStrictly<T(!new)>(rows: seq<T>, before: (T, T) -> bool)
    requires StrictWeak(before) && Separates(rows, before) && Distinct(rows)
    ensures StrictlyOrdered(Sort(rows, NotAfter(before)), before)
  {
    var s := Sort(rows, NotAfter(before));
    PreorderOf(before);
    SortOrdered(rows, NotAfter(before));
    SortDistinct(rows, NotAfter(before));
    SortedSeparates(rows, before);
    forall i, j | 0 <= i < j < |s| ensures before(s[i], s[j]) {
      assert s[i] in s && s[j] in s && NotAfter(before)(s[i], s[j]);
    }
  }

  /** An ordered list of at most `n` rows is the page of a query exactly when the query
      asks for each of its rows, and every other row asked for lies beyond it. */
  lemma QueryIff<T(!new)>(rows: seq<T>, keep: T -> bool, before: (T, T) -> bool, n: nat, page: seq<T>)
    requires StrictWeak(before) && Separates(rows, before) && Distinct(rows)
    requires StrictlyOrdered(page, before) && |page| <= n
    ensures Query(rows, keep, before, n) == page <==>
      && (forall k | 0 <= k < |page| :: page[k] in rows && keep(page[k]))
      && (forall q | q in rows && keep(q) && q !in page :: Beyond(page, before, n, q))
  {
    var kept := Filter(rows, keep);
    var s := Sort(kept, NotAfter(before));
    SeparatesPart(rows, keep, before);
    FilterDistinct(rows, keep);
    SortedStrictly(kept, before);
    forall q ensures q in s <==> q in rows && keep(q) {
      AskedFor(rows, keep, before, q);
    }
    if Take(s, n) == page {
      assert forall k | 0 <= k < |s| && k < n :: s[k] == page[k];
      forall q | q in rows && keep(q) && q !in page ensures Beyond(page, before, n, q) {
        var k :| 0 <= k < |s| && s[k] == q;
      }
    } else if (forall k | 0 <= k < |page| :: page[k] in rows && keep(page[k]))
      && (forall q | q in rows && keep(q) && q !in page :: Beyond(page, before, n, q)) {
      assert forall k | 0 <= k < |s| && s[k] !in page :: s[k] in s;
      FrontIs(s, page, before, n);
    }
  }

  lemma AskedFor<T(!new)>(rows: seq<T>, keep: T -> bool, before: (T, T) -> bool, q: T)
    ensures q in Sort(Filter(rows, keep), NotAfter(before)) <==> q in rows && keep(q)
  {
    SortContents(Filter(rows, keep), NotAfter(before));
    FilterCount(rows, keep, q);
    assert q in Filter(rows, keep) <==> q in multiset(Filter(rows, keep));
    assert q in rows <==> q in multiset(rows);
  }

  lemma SortHas<T(!new)>(s: seq<T>, le: (T, T) -> bool, x: T)
    requires x in s
    ensures x in Sort(s, le)
  {
    SortContents(s, le);
    assert x in multiset(s);
    assert x in multiset(Sort(s, le));
  }

  lemma SortedSeparates<T(!new)>(s: seq<T>, before: (T, T) -> bool)
    requires Separates(s, before)
    ensures Separates(Sort(s, NotAfter(before)), before)
  {
    var sorted := Sort(s, NotAfter(before));
    forall x, y | x in sorted && y in sorted && x != y ensures before(x, y) || before(y, x) {
      var i :| 0 <= i < |sorted| && sorted[i] == x;
      var j :| 0 <= j < |sorted| && sorted[j] == y;
      SortMember(s, NotAfter(before), i);
      SortMember(s, NotAfter(before), j);
    }
  }

  // ---- following the cursors ------------------------------------------------------------

  /** One answer of a paged endpoint. */
  datatype Reply<T> = Reply(rows: seq<T>, next: Option<string>) | Refused

  /** A client that starts without a cursor and follows `next` until it is absent. */
  datatype Walk<T> = Walk(seen: seq<T>, cursor: string, finished: bool, failed: bool)

  function Visit<T>(ask: string -> Reply<T>, w: Walk<T>): Walk<T> {
    if w.finished || w.failed then w
    else
      match ask(w.cursor)
      case Refused => w.(failed := true)
      case Reply(rows, None) => Walk(w.seen + rows, "", true, false)
      case Reply(rows, Some(c)) => Walk(w.seen + rows, c, false, false)
  }

  function Visits<T>(ask: string -> Reply<T>, k: nat): Walk<T> {
    if k == 0 then Walk([], "", false, false) else Visit(ask, Visits(ask, k - 1))
  }

  /** How many rows `k` pages of `l` have room for. */
  function Room(k: nat, l: nat): nat { if k == 0 then 0 else Room(k - 1, l) + l }

  lemma {:induction false} RoomIsProduct(k: nat, l: nat)
    ensures Room(k, l) == k * l
  {
    if k > 0 {
      RoomIsProduct(k - 1, l);
    }
  }

  function AtMost(n: nat, m: nat): nat { if n < m then n else m }

  /** The reply at row `i` of an endpoint that looks one row ahead: no `next` on the
      last page. */
  function LookingAhead<T>(s: seq<T>, l: nat, name: nat -> string, i: nat): Reply<T>
    requires i <= |s|
  {
    if i + l < |s| then Reply(s[i..i + l], Some(name(i + l))) else Reply(s[i..], None)
  }

  /** The reply at row `i` of an endpoint that gives a `next` with every row it shows:
      none only on an empty page. */
  function UntilEmpty<T>(s: seq<T>, l: nat, name: nat -> string, i: nat): Reply<T>
    requires i <= |s|
  {
    if i == |s| then Reply([], None)
    else Reply(s[i..AtMost(i + l, |s|)], Some(name(AtMost(i + l, |s|))))
  }

  /** `name` gives the cursor of each position in the list. */
  ghost predicate Ahead<T>(ask: string -> Reply<T>, s: seq<T>, l: nat, name: nat -> string) {
    l > 0 && name(0) == "" && forall i: nat {:trigger LookingAhead(s, l, name, i)} | i <= |s| ::
      ask(name(i)) == LookingAhead(s, l, name, i)
  }

  ghost predicate ToEmpty<T>(ask: string -> Reply<T>, s: seq<T>, l: nat, name: nat -> string) {
    l > 0 && name(0) == "" && forall i: nat {:trigger UntilEmpty(s, l, name, i)} | i <= |s| ::
      ask(name(i)) == UntilEmpty(s, l, name, i)
  }

  lemma AheadStep<T>(ask: string -> Reply<T>, s: seq<T>, l: nat, name: nat -> string, n: nat)
    requires Ahead(ask, s, l, name) && n <= |s|
    ensures Visit(ask, Walk(s[..n], name(n), false, false)) ==
      if n + l < |s| then Walk(s[..n + l], name(n + l), false, false) else Walk(s, "", true, false)
  {
    assert ask(name(n)) == LookingAhead(s, l, name, n);
    if n + l < |s| {
      assert s[..n] + s[n..n + l] == s[..n + l];
    } else {
      assert s[..n] + s[n..] == s;
    }
  }

  lemma {:induction false} AheadWalk<T>(ask: string -> Reply<T>, s: seq<T>, l: nat, name: nat -> string, k: nat)
    requires Ahead(ask, s, l, name)
    ensures k > 0 && Room(k, l) >= |s| ==> Visits(ask, k) == Walk(s, "", true, false)
    ensures !(k > 0 && Room(k, l) >= |s|)
      ==> Room(k, l) <= |s| && Visits(ask, k) == Walk(s[..Room(k, l)], name(Room(k, l)), false, false)
  {
    if k > 0 {
      AheadWalk(ask, s, l, name, k - 1);
      if !Visits(ask, k - 1).finished {
        AheadStep(ask, s, l, name, Room(k - 1, l));
      }
    }
  }

  lemma ToEmptyStep<T>(ask: string -> Reply<T>, s: seq<T>, l: nat, name: nat -> string, m: nat)
    requires ToEmpty(ask, s, l, name) && m <= |s|
    ensures Visit(ask, Walk(s[..m], name(m), false, false)) ==
      if m == |s| then Walk(s, "", true, false)
        else Walk(s[..AtMost(m + l, |s|)], name(AtMost(m + l, |s|)), false, false)
  {
    assert ask(name(m)) == UntilEmpty(s, l, name, m);
    if m == |s| {
      assert s[..m] + [] == s;
    } else {
      assert s[..m] + s[m..AtMost(m + l, |s|)] == s[..AtMost(m + l, |s|)];
    }
  }

  /** A walk with room for `n` rows: what there was of them, and after one more page
      its end. */
  ghost predicate Reached<T>(s: seq<T>, l: nat, name: nat -> string, w: Walk<T>, n: nat) {
    if n >= |s| + l then w == Walk(s, "", true, false)
    else w == Walk(s[..AtMost(n, |s|)], name(AtMost(n, |s|)), false, false)
  }

  lemma ReachesOn<T>(ask: string -> Reply<T>, s: seq<T>, l: nat, name: nat -> string, w: Walk<T>, n: nat)
    requires ToEmpty(ask, s, l, name) && Reached(s, l, name, w, n)
    ensures Reached(s, l, name, Visit(ask, w), n + l)
  {
    if n < |s| + l {
      ToEmptyStep(ask, s, l, name, AtMost(n, |s|));
    }
  }

  lemma {:induction false} ToEmptyWalk<T>(ask: string -> Reply<T>, s: seq<T>, l: nat, name: nat -> string, k: nat)
    requires ToEmpty(ask, s, l, name)
    ensures Reached(s, l, name, Visits(ask, k), Room(k, l))
  {
    if k > 0 {
      ToEmptyWalk(ask, s, l, name, k - 1);
      ReachesOn(ask, s, l, name, Visits(ask, k - 1), Room(k - 1, l));
    }
  }
}
