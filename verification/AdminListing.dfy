/** The admin channel list: its cursor clauses mean "strictly after the cursor row",
    and following the cursors visits every row once. */
module AdminListing {
  import opened Prelude
  import opened Keyset
  import Sorting

  datatype SortField = Id | Username | PostsCount | RefCount | LastPostAt | Banned | Hidden

  datatype SortOrder = Asc | Desc

  /** A value of a sort column; times are compared as times. */
  datatype Value = Number(n: int) | Text(s: string) | Time(t: int) | Flag(b: bool)

  datatype Row = Row(
    id: int,
    username: Option<string>,
    postsCount: int,
    refCount: int,
    lastPostAt: Option<int>,
    banned: bool,
    hidden: bool)

  /** `sortable_cols`; `None` is NULL. */
  function Column(r: Row, field: SortField): Option<Value> {
    match field
    case Id => Some(Number(r.id))
    case Username => if r.username.Some? then Some(Text(r.username.value)) else None
    case PostsCount => Some(Number(r.postsCount))
    case RefCount => Some(Number(r.refCount))
    case LastPostAt => if r.lastPostAt.Some? then Some(Time(r.lastPostAt.value)) else None
    case Banned => Some(Flag(r.banned))
    case Hidden => Some(Flag(r.hidden))
  }

  predicate Nullable(field: SortField) { field.Username? || field.LastPostAt? }

  /** The database's order on text, whatever its collation. */
  type Collation = (string, string) -> bool

  predicate LessFlag(a: bool, b: bool) { !a && b }

  function Less(coll: Collation, a: Value, b: Value): bool {
    if a.Number? && b.Number? then a.n < b.n
    else if a.Text? && b.Text? then coll(a.s, b.s)
    else if a.Time? && b.Time? then a.t < b.t
    else if a.Flag? && b.Flag? then LessFlag(a.b, b.b)
    else false
  }

  // ---- the order ----------------------------------------------------------------------

  /** Before by the column, with NULLS LAST. */
  predicate ColumnBefore(coll: Collation, order: SortOrder, a: Option<Value>, b: Option<Value>) {
    if a.None? then false
    else if b.None? then true
    else if order.Desc? then Less(coll, b.value, a.value)
    else Less(coll, a.value, b.value)
  }

  /** ORDER BY banned DESC (unless sorting by it), column, id DESC. */
  predicate Precedes(coll: Collation, field: SortField, order: SortOrder, a: Row, b: Row) {
    if !field.Banned? && a.banned != b.banned then a.banned
    else if Column(a, field) != Column(b, field) then ColumnBefore(coll, order, Column(a, field), Column(b, field))
    else a.id > b.id
  }

  /** Banned channels first, whatever else is asked for. */
  predicate BannedFirst(a: Row, b: Row, rest: bool) {
    (a.banned && !b.banned) || (a.banned == b.banned && rest)
  }

  /** By a number; equal ones by id, the greater first. */
  predicate ByNumber(order: SortOrder, x: int, y: int, a: Row, b: Row) {
    (if order.Asc? then x < y else x > y) || (x == y && a.id > b.id)
  }

  predicate ByFlag(order: SortOrder, x: bool, y: bool, a: Row, b: Row) {
    (if order.Asc? then !x && y else x && !y) || (x == y && a.id > b.id)
  }

  /** Those without a value last in either order. */
  predicate ByName(coll: Collation, order: SortOrder, x: Option<string>, y: Option<string>, a: Row, b: Row) {
    if x == y then a.id > b.id
    else x.Some? && (y.None? || (if order.Asc? then coll(x.value, y.value) else coll(y.value, x.value)))
  }

  predicate ByDate(order: SortOrder, x: Option<int>, y: Option<int>, a: Row, b: Row) {
    if x == y then a.id > b.id
    else x.Some? && (y.None? || (if order.Asc? then x.value < y.value else x.value > y.value))
  }

  /** The order of two channels by what an administrator sees of them, field by field. */
  predicate Comes(coll: Collation, field: SortField, order: SortOrder, a: Row, b: Row) {
    match field
    case Id => BannedFirst(a, b, if order.Asc? then a.id < b.id else a.id > b.id)
    case Username => BannedFirst(a, b, ByName(coll, order, a.username, b.username, a, b))
    case PostsCount => BannedFirst(a, b, ByNumber(order, a.postsCount, b.postsCount, a, b))
    case RefCount => BannedFirst(a, b, ByNumber(order, a.refCount, b.refCount, a, b))
    case LastPostAt => BannedFirst(a, b, ByDate(order, a.lastPostAt, b.lastPostAt, a, b))
    case Banned => ByFlag(order, a.banned, b.banned, a, b)
    case Hidden => BannedFirst(a, b, ByFlag(order, a.hidden, b.hidden, a, b))
  }

  lemma PrecedesIs(coll: Collation, field: SortField, order: SortOrder, a: Row, b: Row)
    ensures Precedes(coll, field, order, a, b) <==> Comes(coll, field, order, a, b)
  {
  }

  // ---- the cursor ---------------------------------------------------------------------

  /** SQL's three truth values. */
  datatype Truth = True | False | Unknown

  function Known(b: bool): Truth { if b then True else False }

  function And(a: Truth, b: Truth): Truth {
    if a.False? || b.False? then False else if a.True? && b.True? then True else Unknown
  }

  function Or(a: Truth, b: Truth): Truth {
    if a.True? || b.True? then True else if a.False? && b.False? then False else Unknown
  }

  function LessSql(coll: Collation, a: Option<Value>, b: Value): Truth {
    if a.None? then Unknown else Known(Less(coll, a.value, b))
  }

  function GreaterSql(coll: Collation, a: Option<Value>, b: Value): Truth {
    if a.None? then Unknown else Known(Less(coll, b, a.value))
  }

  function EqualSql(a: Option<Value>, b: Value): Truth {
    if a.None? then Unknown else Known(a.value == b)
  }

  datatype Cursor = Cursor(banned: bool, value: Option<Value>, id: int, field: SortField, order: SortOrder)

  /** `_value_after_cursor`; `None` when the cursor row was on the NULL tail. */
  function ValueAfterCursor(coll: Collation, col: Option<Value>, c: Option<Value>, order: SortOrder,
      nullable: bool): Option<Truth> {
    if c.None? then None
    else
      var cond := if order.Desc? then LessSql(coll, col, c.value) else GreaterSql(coll, col, c.value);
      Some(if nullable then Or(cond, Known(col.None?)) else cond)
  }

  /** The WHERE clause of a page after a cursor. */
  function AfterCursor(coll: Collation, field: SortField, order: SortOrder, c: Cursor, r: Row): Truth {
    var col := Column(r, field);
    var sortAfter := ValueAfterCursor(coll, col, c.value, order, Nullable(field));
    var sameSort := if c.value.None? then Known(col.None?) else EqualSql(col, c.value.value);
    var sameRowSmallerId := And(sameSort, Known(r.id < c.id));
    if !field.Banned? then
      var inLowerBanned := Known(LessFlag(r.banned, c.banned));
      var inSameBannedSameSort := And(Known(r.banned == c.banned), sameRowSmallerId);
      if sortAfter.None? then Or(inLowerBanned, inSameBannedSameSort)
      else Or(Or(inLowerBanned, And(Known(r.banned == c.banned), sortAfter.value)), inSameBannedSameSort)
    else if sortAfter.None? then sameRowSmallerId
    else Or(sameRowSmallerId, sortAfter.value)
  }

  function CursorAt(r: Row, field: SortField, order: SortOrder): Cursor {
    Cursor(r.banned, Column(r, field), r.id, field, order)
  }

  /** For every field, order and nullability the clauses hold of a row exactly when it
      comes strictly after the cursor's row. */
  lemma ClausesMeanAfter(coll: Collation, field: SortField, order: SortOrder, at: Row, r: Row)
    requires StrictTotal(coll)
    ensures AfterCursor(coll, field, order, CursorAt(at, field, order), r).True?
      <==> Precedes(coll, field, order, at, r)
  {
  }

  /** `channels.id` is a primary key. */
  predicate IdsUnique(rows: seq<Row>) {
    forall i, j | 0 <= i < j < |rows| :: rows[i].id != rows[j].id
  }

  function ListOrder(coll: Collation, field: SortField, order: SortOrder): (Row, Row) -> bool {
    (a, b) => Precedes(coll, field, order, a, b)
  }

  lemma ColumnOrder(coll: Collation, field: SortField, order: SortOrder, a: Row, b: Row, c: Row)
    requires StrictTotal(coll)
    ensures var (x, y, z) := (Column(a, field), Column(b, field), Column(c, field));
      && (ColumnBefore(coll, order, x, y) ==> !ColumnBefore(coll, order, y, x))
      && (x != y ==> ColumnBefore(coll, order, x, y) || ColumnBefore(coll, order, y, x))
      && (ColumnBefore(coll, order, x, z) ==> ColumnBefore(coll, order, x, y) || ColumnBefore(coll, order, y, z))
  {
  }

  lemma ListOrderTotal(coll: Collation, field: SortField, order: SortOrder, rows: seq<Row>)
    requires StrictTotal(coll) && IdsUnique(rows)
    ensures StrictWeak(ListOrder(coll, field, order)) && Separates(rows, ListOrder(coll, field, order))
  {
    forall a, b: Row ensures Precedes(coll, field, order, a, b) ==> !Precedes(coll, field, order, b, a) {
      ColumnOrder(coll, field, order, a, b, a);
    }
    forall a, b, c: Row ensures Precedes(coll, field, order, a, c)
      ==> Precedes(coll, field, order, a, b) || Precedes(coll, field, order, b, c) {
      ColumnOrder(coll, field, order, a, b, c);
      ColumnOrder(coll, field, order, a, c, b);
      ColumnOrder(coll, field, order, b, c, a);
    }
    forall a, b | a in rows && b in rows && a != b
      ensures Precedes(coll, field, order, a, b) || Precedes(coll, field, order, b, a) {
      var i :| 0 <= i < |rows| && rows[i] == a;
      var j :| 0 <= j < |rows| && rows[j] == b;
      assert a.id != b.id;
      ColumnOrder(coll, field, order, a, b, a);
    }
  }

  // ---- encoding -----------------------------------------------------------------------

  /** A JSON scalar. */
  datatype Json = Null | Int(n: int) | Str(s: string)

  datatype Payload = Payload(b: int, v: Json, id: int, s: SortField, o: SortOrder)

  /** `isoformat` and `fromisoformat`, left open. */
  datatype Iso = Iso(show: int -> string, read: string -> int)

  function EncodeValue(iso: Iso, v: Option<Value>): Json {
    match v
    case None => Null
    case Some(Time(t)) => Str(iso.show(t))
    case Some(Flag(b)) => Int(if b then 1 else 0)
    case Some(Number(n)) => Int(n)
    case Some(Text(s)) => Str(s)
  }

  /** `_decode_sort_value`: what a scalar means depends on the sort field. */
  function DecodeValue(iso: Iso, raw: Json, field: SortField): Option<Value> {
    match raw
    case Null => None
    case Int(n) => if field.Banned? || field.Hidden? then Some(Flag(n != 0)) else Some(Number(n))
    case Str(s) => if field.LastPostAt? then Some(Time(iso.read(s))) else Some(Text(s))
  }

  /** `_encode_cursor`, before JSON and base64. */
  function EncodeCursor(iso: Iso, c: Cursor): Payload {
    Payload(if c.banned then 1 else 0, EncodeValue(iso, c.value), c.id, c.field, c.order)
  }

  function DecodeCursor(iso: Iso, p: Payload): Cursor {
    Cursor(p.b != 0, DecodeValue(iso, p.v, p.s), p.id, p.s, p.o)
  }

  lemma CursorRoundTrip(iso: Iso, r: Row, field: SortField, order: SortOrder)
    requires forall t :: iso.read(iso.show(t)) == t
    ensures DecodeCursor(iso, EncodeCursor(iso, CursorAt(r, field, order))) == CursorAt(r, field, order)
  {
  }

  /** JSON and base64: any encoding that reads back what it wrote, never as "". */
  datatype Codec = Codec(write: Payload -> string, read: string -> Option<Payload>)

  ghost predicate Lossless(codec: Codec, iso: Iso) {
    && (forall p :: codec.write(p) != "" && codec.read(codec.write(p)) == Some(p))
    && (forall t :: iso.read(iso.show(t)) == t)
  }

  // ---- the page -----------------------------------------------------------------------

  const MAX_LIMIT := 200

  function Clamp(limit: int): (l: nat)
    ensures 1 <= l <= MAX_LIMIT && (limit <= l || l == MAX_LIMIT) && (l <= limit || l == 1)
  {
    if limit < 1 then 1 else if limit > MAX_LIMIT then MAX_LIMIT else limit
  }

  datatype Request = Request(coll: Collation, iso: Iso, codec: Codec, field: SortField, order: SortOrder, limit: int,
      matches: Row -> bool)

  datatype Outcome = Page(reply: Reply<Row>) | Mismatch | Malformed

  function CursorText(req: Request, r: Row): string {
    req.codec.write(EncodeCursor(req.iso, CursorAt(r, req.field, req.order)))
  }

  function Cut(req: Request, found: seq<Row>): Reply<Row> {
    var l := Clamp(req.limit);
    if |found| > l then Reply(found[..l], Some(CursorText(req, found[l - 1]))) else Reply(found, None)
  }

  /** `list_channels_for_admin`; an empty cursor string counts as none. */
  function List(table: seq<Row>, req: Request, cursor: string): Outcome {
    var before := ListOrder(req.coll, req.field, req.order);
    var n := Clamp(req.limit) + 1;
    if cursor == "" then Page(Cut(req, Query(table, req.matches, before, n)))
    else match req.codec.read(cursor)
      case None => Malformed
      case Some(p) =>
        var c := DecodeCursor(req.iso, p);
        if c.field != req.field || c.order != req.order then Mismatch
        else Page(Cut(req, Query(table, r => req.matches(r)
          && AfterCursor(req.coll, req.field, req.order, c, r).True?, before, n)))
  }

  /** A cursor works only with the field and the order it was issued for. */
  lemma CursorBoundToSort(table: seq<Row>, req: Request, other: Request, r: Row)
    requires Lossless(req.codec, req.iso) && req.codec == other.codec && req.iso == other.iso
    ensures List(table, other, CursorText(req, r)).Mismatch?
      <==> req.field != other.field || req.order != other.order
  {
    CursorRoundTrip(req.iso, r, req.field, req.order);
  }

  // ---- the walk -----------------------------------------------------------------------

  function Ask(table: seq<Row>, req: Request, cursor: string): Reply<Row> {
    var outcome := List(table, req, cursor);
    if outcome.Page? then outcome.reply else Refused
  }

  /** Every matching row, in order. */
  function Shown(table: seq<Row>, req: Request): seq<Row> {
    Listing(Sorting.Filter(table, req.matches), ListOrder(req.coll, req.field, req.order))
  }

  lemma ShownFacts(table: seq<Row>, req: Request)
    requires StrictTotal(req.coll) && IdsUnique(table)
    ensures var rows, before := Sorting.Filter(table, req.matches), ListOrder(req.coll, req.field, req.order);
      StrictWeak(before) && Separates(rows, before) && Sorting.Distinct(rows)
  {
    var rows := Sorting.Filter(table, req.matches);
    ListOrderTotal(req.coll, req.field, req.order, table);
    FilterDistinct(table, req.matches);
    forall x | x in rows ensures x in table {
      var k :| 0 <= k < |rows| && rows[k] == x;
      var j := FilterAt(table, req.matches, k);
    }
  }

  /** The listing is ordered by the rows' own fields. */
  lemma ShownInOrder(table: seq<Row>, req: Request, i: nat, j: nat)
    requires StrictTotal(req.coll) && IdsUnique(table) && i < j < |Shown(table, req)|
    ensures Comes(req.coll, req.field, req.order, Shown(table, req)[i], Shown(table, req)[j])
  {
    ShownFacts(table, req);
    SortedStrictly(Sorting.Filter(table, req.matches), ListOrder(req.coll, req.field, req.order));
    PrecedesIs(req.coll, req.field, req.order, Shown(table, req)[i], Shown(table, req)[j]);
  }

  /** The cursor from which the list goes on with row `i`. */
  function Name(req: Request, s: seq<Row>, i: nat): string {
    if 0 < i <= |s| then CursorText(req, s[i - 1]) else ""
  }

  lemma FoundFrom(table: seq<Row>, req: Request, i: nat)
    requires StrictTotal(req.coll) && IdsUnique(table) && Lossless(req.codec, req.iso) && i <= |Shown(table, req)|
    ensures Ask(table, req, Name(req, Shown(table, req), i))
      == Cut(req, Take(Shown(table, req)[i..], Clamp(req.limit) + 1))
  {
    var s, before, n := Shown(table, req), ListOrder(req.coll, req.field, req.order), Clamp(req.limit) + 1;
    var rows := Sorting.Filter(table, req.matches);
    ShownFacts(table, req);
    if i == 0 {
      assert s[0..] == s;
    } else {
      var at := s[i - 1];
      CursorRoundTrip(req.iso, at, req.field, req.order);
      var c := CursorAt(at, req.field, req.order);
      var after := (r: Row) => AfterCursor(req.coll, req.field, req.order, c, r).True?;
      var both := (r: Row) => req.matches(r) && AfterCursor(req.coll, req.field, req.order, c, r).True?;
      forall r: Row ensures after(r) <==> before(at, r) {
        ClausesMeanAfter(req.coll, req.field, req.order, at, r);
      }
      FilterTwice(table, req.matches, after, both);
      QueryAfter(rows, after, before, i, n);
    }
  }

  lemma CutLooksAhead(req: Request, s: seq<Row>, i: nat)
    requires i <= |s|
    ensures Cut(req, Take(s[i..], Clamp(req.limit) + 1))
      == LookingAhead(s, Clamp(req.limit), (j: nat) => Name(req, s, j), i)
  {
    var l := Clamp(req.limit);
    if i + l < |s| {
      assert s[i..][..l + 1][..l] == s[i..i + l];
    }
  }

  /** Following `next_cursor` from the start never fails, shows every matching row
      once and in order, and stops after the last. */
  lemma WalkShowsAll(table: seq<Row>, req: Request, k: nat)
    requires StrictTotal(req.coll) && IdsUnique(table) && Lossless(req.codec, req.iso)
    ensures var (w, s, l) := (Visits(c => Ask(table, req, c), k), Shown(table, req), Clamp(req.limit));
      && !w.failed
      && w.seen == Take(s, Room(k, l))
      && (w.finished <==> k > 0 && Room(k, l) >= |s|)
  {
    var s, l := Shown(table, req), Clamp(req.limit);
    var ask, name := (c: string) => Ask(table, req, c), (i: nat) => Name(req, s, i);
    forall i: nat | i <= |s| ensures ask(name(i)) == LookingAhead(s, l, name, i) {
      FoundFrom(table, req, i);
      CutLooksAhead(req, s, i);
    }
    AheadWalk(ask, s, l, name, k);
  }

  /** The rows shown are the matching ones, each once, in the order asked for. */
  lemma ShownIsListing(table: seq<Row>, req: Request)
    requires StrictTotal(req.coll) && IdsUnique(table)
    ensures var s := Shown(table, req);
      && Sorting.Distinct(s)
      && (forall r :: r in s <==> r in table && req.matches(r))
      && (forall i, j | 0 <= i < j < |s| :: Precedes(req.coll, req.field, req.order, s[i], s[j]))
  {
    var rows, before := Sorting.Filter(table, req.matches), ListOrder(req.coll, req.field, req.order);
    var s := Shown(table, req);
    ShownFacts(table, req);
    PreorderOf(before);
    Sorting.SortDistinct(rows, NotAfter(before));
    Sorting.SortOrdered(rows, NotAfter(before));
    Sorting.SortContents(rows, NotAfter(before));
    forall r: Row ensures r in rows <==> r in table && req.matches(r) {
      FilterCount(table, req.matches, r);
      assert r in rows <==> multiset(rows)[r] > 0;
    }
    forall i, j | 0 <= i < j < |s| ensures before(s[i], s[j]) {
      assert s[i] in rows && s[j] in rows;
      assert NotAfter(before)(s[i], s[j]);
    }
  }
}
