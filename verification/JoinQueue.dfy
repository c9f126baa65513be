/** The join queue: requests, the worker that claims them one by one, the poller that
    waits for approvals, and what each Telegram answer does to a row. */
module JoinQueue {
  import opened Prelude
  import Decimal
  import Subscriptions

  datatype Kind = Public(username: string) | Private(invite: string)

  datatype Status = Pending | InProgress | PendingApproval | Done | Failed

  datatype Row = Row(kind: Kind, user: int, created: int, updated: Option<int>, status: Status,
      error: Option<string>, reason: Option<string>, channel: Option<int>)

  type Rows = map<int, Row>

  // ---- the queries ----------------------------------------------------------------------

  function PendingIds(rows: Rows): set<int> { set id | id in rows && rows[id].status == Pending }

  function PendingTimes(rows: Rows): set<int> { set id | id in PendingIds(rows) :: rows[id].created }

  lemma PendingTime(rows: Rows, id: int)
    requires id in PendingIds(rows)
    ensures rows[id].created in PendingTimes(rows)
  {
  }

  /** ORDER BY created_at, id LIMIT 1 over the pending rows. */
  function Oldest(rows: Rows): Option<int> {
    if PendingTimes(rows) == {} then None
    else
      var ids := set id | id in PendingIds(rows) && rows[id].created == Min(PendingTimes(rows));
      assert ids != {} by {
        var id :| id in PendingIds(rows) && rows[id].created == Min(PendingTimes(rows));
        assert id in ids;
      }
      Some(Min(ids))
  }

  predicate Sooner(rows: Rows, a: int, b: int)
    requires a in rows && b in rows
  {
    rows[a].created < rows[b].created || (rows[a].created == rows[b].created && a < b)
  }

  /** The claimed row comes before every other pending one in (created_at, id), and
      none is claimed only when none is pending. */
  lemma OldestIsLeast(rows: Rows)
    ensures Oldest(rows).None? <==> PendingIds(rows) == {}
    ensures Oldest(rows).Some? ==>
      Oldest(rows).value in PendingIds(rows) && forall other | other in PendingIds(rows)
        && other != Oldest(rows).value :: Sooner(rows, Oldest(rows).value, other)
  {
    if PendingIds(rows) == {} {
      assert PendingTimes(rows) == {};
    } else {
      PendingTime(rows, Any(PendingIds(rows)));
      var first := Min(PendingTimes(rows));
      var ids := set id | id in PendingIds(rows) && rows[id].created == first;
      forall other | other in PendingIds(rows) && other != Oldest(rows).value
        ensures Sooner(rows, Oldest(rows).value, other) {
        PendingTime(rows, other);
        assert rows[other].created == first ==> other in ids;
      }
    }
  }

  predicate InFlight(row: Row) { row.status == Pending || row.status == InProgress }

  predicate Wants(row: Row, user: int, username: string) {
    row.kind == Public(username) && row.user == user && InFlight(row)
  }

  /** `find_active_public_request`. */
  function Active(rows: Rows, user: int, username: string): Option<int> {
    var ids := set id | id in rows && Wants(rows[id], user, username);
    if ids == {} then None else Some(Min(ids))
  }

  // ---- transactions ---------------------------------------------------------------------

  /** `channels` is keyed by Telegram chat, `names` by username, as their unique indexes
      allow, and `invites` by channel. */
  datatype Db = Db(rows: Rows, nextRow: int, channels: map<int, int>, nextChannel: int, names: map<string, int>,
      invites: map<int, string>, t: Subscriptions.Tables)

  function Inserted(db: Db, kind: Kind, user: int, now: int): Db {
    db.(rows := db.rows[db.nextRow := Row(kind, user, now, None, Pending, None, None, None)], nextRow := db.nextRow + 1)
  }

  /** `_enqueue_public_join`: the user's request in flight is used again. */
  function Requested(db: Db, user: int, username: string, now: int): Db {
    if Active(db.rows, user, username).Some? then db else Inserted(db, Public(username), user, now)
  }

  function Claimed(db: Db, now: int): Db {
    var id := Oldest(db.rows);
    if id.None? then db
    else
      OldestIsLeast(db.rows);
      db.(rows := db.rows[id.value := db.rows[id.value].(status := InProgress, updated := Some(now))])
  }

  function MarkedFailed(row: Row, code: string, reason: string, now: int): Row {
    row.(status := Failed, error := Some(code), reason := Some(reason), updated := Some(now))
  }

  /** A chat as Telegram names it today. */
  datatype Chat = Chat(id: int, username: Option<string>)

  /** `str.lower` on a username, which is ASCII. */
  function Lowered(name: string): string {
    seq(|name|, i requires 0 <= i < |name| => if 'A' <= name[i] <= 'Z' then (name[i] as int + 32) as char else name[i])
  }

  function NameOf(chat: Chat): Option<string> {
    if chat.username.None? || chat.username.value == "" then None else Some(Lowered(chat.username.value))
  }

  /** A chat without a row whose username another channel carries: its insert raises,
      for the conflict clause names the chat's index alone. */
  predicate NameTaken(db: Db, chat: Chat) {
    chat.id !in db.channels && NameOf(chat).Some? && NameOf(chat).value in db.names
  }

  /** `upsert_channel`: the channel of a Telegram chat, new or not; a row that exists
      keeps the username it was inserted with. */
  function ChannelOf(db: Db, chat: Chat): int {
    if chat.id in db.channels then db.channels[chat.id] else db.nextChannel
  }

  function Upserted(db: Db, chat: Chat): Db {
    if chat.id in db.channels then db
    else
      db.(channels := db.channels[chat.id := db.nextChannel], nextChannel := db.nextChannel + 1,
          names := if NameOf(chat).Some? then db.names[NameOf(chat).value := db.nextChannel] else db.names)
  }

  /** A channel joined by an invite keeps the invite it was joined by last. */
  function Invited(invites: map<int, string>, channel: int, kind: Kind): map<int, string> {
    if kind.Private? && kind.invite != "" then invites[channel := kind.invite] else invites
  }

  /** `_post_join`: the channel, the requester's link and the row, in one transaction
      that is rolled back when the channel's insert raises. */
  function PostJoin(db: Db, id: int, chat: Chat, now: int): Db
    requires id in db.rows
  {
    var c, row := ChannelOf(db, chat), db.rows[id];
    if NameTaken(db, chat) then db
    else Upserted(db, chat).(
      invites := Invited(db.invites, c, row.kind),
      t := Subscriptions.Added(db.t, row.user, c),
      rows := db.rows[id := row.(status := Done, channel := Some(c), updated := Some(now))])
  }

  // ---- what Telegram answers ------------------------------------------------------------

  datatype EntityAnswer = NotOccupied | InvalidName | PrivateChannel | EntityFlood | EntityError | Entity(chat: Chat)

  datatype JoinAnswer = Joined | AlreadyIn | JoinFlood | JoinError(name: string)

  datatype CheckAnswer = InvalidInvite | ExpiredInvite | CheckError | Member(chat: Chat) | Preview

  datatype ImportAnswer =
    | RequestSent
    | TooManyChannels
    | ImportFlood(seconds: int)
    | Participant(recheck: CheckAnswer)
    | ImportError
    | Updates(chats: seq<Chat>)

  /** `Leave` commits nothing: the row stays as it is. */
  datatype Outcome = Fail(code: string, reason: string) | Approval | Link(chat: Chat) | Leave

  function PublicOutcome(entity: EntityAnswer, join: JoinAnswer): Outcome {
    match entity
    case NotOccupied => Fail("username_not_occupied", "username_not_occupied")
    case InvalidName => Fail("username_invalid", "username_invalid")
    case PrivateChannel => Fail("channel_private", "channel_private")
    case EntityFlood => Leave
    case EntityError => Leave
    case Entity(chat) =>
      match join
      case Joined => Link(chat)
      case AlreadyIn => Link(chat)
      case JoinFlood => Leave
      case JoinError(name) => Fail("unknown", "join_failed:" + name)
  }

  function PrivateOutcome(check: CheckAnswer, imported: ImportAnswer): Outcome {
    match check
    case InvalidInvite => Fail("invite_invalid", "InviteHashInvalid")
    case ExpiredInvite => Fail("invite_expired", "InviteHashExpired")
    case CheckError => Leave
    case Member(chat) => Link(chat)
    case Preview =>
      match imported
      case RequestSent => Approval
      case TooManyChannels => Fail("channels_too_much", "ChannelsTooMuch")
      case ImportFlood(seconds) => Fail("flood_wait", "FloodWait(" + Decimal.Show(seconds) + "s)")
      case Participant(Member(chat)) => Link(chat)
      case Participant(_) => Fail("unknown", "UserAlreadyParticipant_no_recheck")
      case ImportError => Leave
      case Updates(chats) => if chats == [] then Fail("unknown", "Updates_no_chats") else Link(chats[0])
  }

  /** `_approval_poll_once` on one row; ages are compared before Telegram is asked. */
  function PollOutcome(row: Row, now: int, timeout: int, check: CheckAnswer): Outcome {
    var age := if row.updated.None? then 0 else now - row.updated.value;
    if age >= timeout then Fail("approval_timeout", "pending_approval > " + Decimal.Show(timeout) + "d")
    else
      match check
      case InvalidInvite => Fail("invite_invalid", "InviteHashInvalid (poller)")
      case ExpiredInvite => Fail("invite_expired", "InviteHashExpired (poller)")
      case CheckError => Leave
      case Member(chat) => Link(chat)
      case Preview => Leave
  }

  function Settled(db: Db, id: int, outcome: Outcome, now: int): (r: Db)
    requires id in db.rows
    ensures r.rows.Keys == db.rows.Keys
  {
    match outcome
    case Fail(code, reason) => db.(rows := db.rows[id := MarkedFailed(db.rows[id], code, reason, now)])
    case Approval => db.(rows := db.rows[id := db.rows[id].(status := PendingApproval, updated := Some(now))])
    case Link(chat) => PostJoin(db, id, chat, now)
    case Leave => db
  }

  /** Settling raises, and commits nothing. */
  predicate Raises(db: Db, outcome: Outcome) { outcome.Link? && NameTaken(db, outcome.chat) }

  datatype Answers = Answers(entity: EntityAnswer, join: JoinAnswer, check: CheckAnswer, imported: ImportAnswer)

  function OutcomeFor(row: Row, a: Answers): Outcome {
    if row.kind.Public? then PublicOutcome(a.entity, a.join) else PrivateOutcome(a.check, a.imported)
  }

  /** `_handle_one_pending` with nothing in between: a claim, then what the answers
      make of it. */
  function Handled(db: Db, now: int, later: int, a: Answers): Db {
    OldestIsLeast(db.rows);
    var claimed, id := Claimed(db, now), Oldest(db.rows);
    if id.None? then claimed else Settled(claimed, id.value, OutcomeFor(claimed.rows[id.value], a), later)
  }

  /** `fetch_pending_approval`; the query asks for no order. */
  function AwaitingApproval(rows: Rows): set<int> {
    set id | id in rows && rows[id].status == PendingApproval
  }

  function Fetched(rows: Rows): (ids: seq<int>)
    ensures forall k | 0 <= k < |ids| :: ids[k] in rows
  {
    var ids := Ascending(AwaitingApproval(rows));
    assert forall k | 0 <= k < |ids| :: ids[k] in ids;
    ids
  }

  /** `_approval_poll_once` over the rows fetched, one transaction each: a join that
      raises ends the loop. */
  function Polled(db: Db, ids: seq<int>, now: int, timeout: int, check: int -> CheckAnswer): (r: Db)
    requires forall k | 0 <= k < |ids| :: ids[k] in db.rows
    ensures r.rows.Keys == db.rows.Keys
    decreases |ids|
  {
    if ids == [] then db
    else
      var outcome := PollOutcome(db.rows[ids[0]], now, timeout, check(ids[0]));
      if Raises(db, outcome) then db else Polled(Settled(db, ids[0], outcome, now), ids[1..], now, timeout, check)
  }

  lemma PolledNext(db: Db, ids: seq<int>, i: nat, now: int, timeout: int, check: int -> CheckAnswer)
    requires i < |ids| && forall k | 0 <= k < |ids| :: ids[k] in db.rows
    ensures var outcome := PollOutcome(db.rows[ids[i]], now, timeout, check(ids[i]));
      Polled(db, ids[i..], now, timeout, check) == if Raises(db, outcome) then db
        else Polled(Settled(db, ids[i], outcome, now), ids[i + 1..], now, timeout, check)
  {
    assert ids[i..][1..] == ids[i + 1..];
  }

  // ---- the tables updated in place ------------------------------------------------------

  class Queue {
    var rows: Rows
    var nextRow: int
    var channels: map<int, int>
    var nextChannel: int
    var names: map<string, int>
    var invites: map<int, string>
    const links: Subscriptions.SourceTables

    function View(): Db
      reads this, links
    {
      Db(rows, nextRow, channels, nextChannel, names, invites, links.View())
    }

    constructor (links: Subscriptions.SourceTables)
      ensures this.links == links && View() == Db(map[], 1, map[], 1, map[], map[], links.View())
    {
      rows, nextRow, channels, nextChannel, names, invites := map[], 1, map[], 1, map[], map[];
      this.links := links;
    }

    method EnqueuePublicJoin(user: int, username: string, now: int) returns (id: int)
      modifies this`rows, this`nextRow
      ensures View() == Requested(old(View()), user, username, now)
      ensures id in rows && Wants(rows[id], user, username)
      ensures id !in old(rows) ==> rows[id].status == Pending && rows[id].created == now
    {
      var existing := Active(rows, user, username);
      if existing.Some? {
        return existing.value;
      }
      id := nextRow;
      rows := rows[id := Row(Public(username), user, now, None, Pending, None, None, None)];
      nextRow := nextRow + 1;
    }

    method AddPrivateSource(user: int, invite: string, now: int) returns (id: int)
      modifies this`rows, this`nextRow
      ensures View() == Inserted(old(View()), Private(invite), user, now) && id == old(nextRow)
      ensures id in rows && rows[id].kind == Private(invite) && rows[id].user == user
      ensures rows[id].status == Pending && rows[id].created == now
    {
      id := nextRow;
      rows := rows[id := Row(Private(invite), user, now, None, Pending, None, None, None)];
      nextRow := nextRow + 1;
    }

    method PopPending(now: int) returns (claimed: Option<int>)
      modifies this`rows
      ensures View() == Claimed(old(View()), now)
      ensures claimed == Oldest(old(rows))
      ensures claimed.Some? ==> claimed.value in rows && rows[claimed.value].status == InProgress
    {
      claimed := Oldest(rows);
      if claimed.Some? {
        OldestIsLeast(rows);
        var row := rows[claimed.value];
        rows := rows[claimed.value := row.(status := InProgress, updated := Some(now))];
      }
    }

    /** `None` when the insert raises. */
    method UpsertChannel(chat: Chat) returns (channel: Option<int>)
      modifies this`channels, this`nextChannel, this`names
      ensures channel.None? == NameTaken(old(View()), chat)
      ensures channel.None? ==> View() == old(View())
      ensures channel.Some? ==> View() == Upserted(old(View()), chat) && channel.value == ChannelOf(old(View()), chat)
    {
      if chat.id in channels {
        return Some(channels[chat.id]);
      }
      var name := NameOf(chat);
      if name.Some? {
        if name.value in names {
          return None;
        }
        names := names[name.value := nextChannel];
      }
      channel := Some(nextChannel);
      channels := channels[chat.id := nextChannel];
      nextChannel := nextChannel + 1;
    }

    method FinishJoin(id: int, chat: Chat, now: int) returns (channel: Option<int>)
      requires id in rows
      modifies this, links`sources, links`subs, links`hidden, links`catalogHidden
      ensures View() == PostJoin(old(View()), id, chat, now) && channel.None? == NameTaken(old(View()), chat)
    {
      channel := UpsertChannel(chat);
      if channel.None? {
        return;
      }
      var kind := rows[id].kind;
      if kind.Private? && kind.invite != "" {
        invites := invites[channel.value := kind.invite];
      }
      var _, _ := links.AddUserSource(rows[id].user, channel.value);
      rows := rows[id := rows[id].(status := Done, channel := channel, updated := Some(now))];
    }

    method Settle(id: int, outcome: Outcome, now: int) returns (raised: bool)
      requires id in rows
      modifies this, links`sources, links`subs, links`hidden, links`catalogHidden
      ensures View() == Settled(old(View()), id, outcome, now) && raised == Raises(old(View()), outcome)
    {
      raised := false;
      match outcome
      case Fail(code, reason) => rows := rows[id := MarkedFailed(rows[id], code, reason, now)];
      case Approval => rows := rows[id := rows[id].(status := PendingApproval, updated := Some(now))];
      case Link(chat) =>
        var channel := FinishJoin(id, chat, now);
        raised := channel.None?;
      case Leave =>
    }

    /** `_handle_one_pending`; the worker's loop catches what it raises and goes on. */
    method HandleOnePending(now: int, later: int, a: Answers)
      modifies this, links`sources, links`subs, links`hidden, links`catalogHidden
      ensures View() == Handled(old(View()), now, later, a)
    {
      var claimed := PopPending(now);
      if claimed.Some? {
        var _ := Settle(claimed.value, OutcomeFor(rows[claimed.value], a), later);
      }
    }

    /** `_approval_poll_once`. */
    method ApprovalPollOnce(now: int, timeout: int, check: int -> CheckAnswer)
      modifies this, links`sources, links`subs, links`hidden, links`catalogHidden
      ensures View() == Polled(old(View()), Fetched(old(rows)), now, timeout, check)
    {
      var ids := Fetched(rows);
      ghost var result := Polled(View(), ids, now, timeout, check);
      var i := 0;
      assert ids[i..] == ids;
      while i < |ids|
        invariant 0 <= i <= |ids| && rows.Keys == old(rows).Keys
        invariant Polled(View(), ids[i..], now, timeout, check) == result
      {
        PolledNext(View(), ids, i, now, timeout, check);
        ghost var outcome := PollOutcome(View().rows[ids[i]], now, timeout, check(ids[i]));
        var raised := Settle(ids[i], PollOutcome(rows[ids[i]], now, timeout, check(ids[i])), now);
        if raised {
          return;
        }
        i := i + 1;
      }
    }
  }

  // ---- what a poll settles --------------------------------------------------------------

  /** How many of the fetched rows one poll comes to. */
  function Reached(db: Db, ids: seq<int>, now: int, timeout: int, check: int -> CheckAnswer): (n: nat)
    requires forall k | 0 <= k < |ids| :: ids[k] in db.rows
    ensures n <= |ids|
    decreases |ids|
  {
    if ids == [] then 0
    else
      var outcome := PollOutcome(db.rows[ids[0]], now, timeout, check(ids[0]));
      if Raises(db, outcome) then 0 else 1 + Reached(Settled(db, ids[0], outcome, now), ids[1..], now, timeout, check)
  }

  /** What an outcome makes of a row. */
  predicate Told(row: Row, row': Row, outcome: Outcome, now: int) {
    match outcome
    case Fail(code, reason) => row' == MarkedFailed(row, code, reason, now)
    case Approval => row' == row.(status := PendingApproval, updated := Some(now))
    case Link(_) => row'.channel.Some? && row' == row.(status := Done, channel := row'.channel, updated := Some(now))
    case Leave => row' == row
  }

  lemma SettledTold(db: Db, id: int, outcome: Outcome, now: int)
    requires id in db.rows && !Raises(db, outcome)
    ensures Told(db.rows[id], Settled(db, id, outcome, now).rows[id], outcome, now)
    ensures forall other | other in db.rows && other != id ::
      Settled(db, id, outcome, now).rows[other] == db.rows[other]
  {
  }

  /** `r` came of a poll that settled the first `n` rows of `ids`. */
  ghost predicate SettledFirst(db: Db, r: Db, ids: seq<int>, n: nat, now: int, timeout: int, check: int -> CheckAnswer)
    requires n <= |ids| && (forall k | 0 <= k < |ids| :: ids[k] in db.rows) && r.rows.Keys == db.rows.Keys
  {
    && (n < |ids| ==> Raises(r, PollOutcome(db.rows[ids[n]], now, timeout, check(ids[n]))))
    && (forall k | 0 <= k < n ::
          Told(db.rows[ids[k]], r.rows[ids[k]], PollOutcome(db.rows[ids[k]], now, timeout, check(ids[k])), now))
    && (forall id | id in db.rows && id !in ids[..n] :: r.rows[id] == db.rows[id])
  }

  lemma SettledOneMore(db: Db, mid: Db, r: Db, ids: seq<int>, n: nat, now: int, timeout: int,
      check: int -> CheckAnswer)
    requires (forall k | 0 <= k < |ids| :: ids[k] in db.rows) && (forall i, j | 0 <= i < j < |ids| :: ids[i] != ids[j])
    requires n < |ids| && mid.rows.Keys == db.rows.Keys == r.rows.Keys
    requires Told(db.rows[ids[0]], mid.rows[ids[0]], PollOutcome(db.rows[ids[0]], now, timeout, check(ids[0])), now)
    requires forall other | other in db.rows && other != ids[0] :: mid.rows[other] == db.rows[other]
    requires SettledFirst(mid, r, ids[1..], n, now, timeout, check)
    ensures SettledFirst(db, r, ids, n + 1, now, timeout, check)
  {
    assert ids[..n + 1] == [ids[0]] + ids[1..][..n];
    assert forall k | 1 <= k < |ids| :: ids[k] == ids[1..][k - 1];
  }

  /** A poll settles the rows before the first one whose join raises, each by its own
      answer, and none from there on. */
  lemma {:induction false} PollSettles(db: Db, ids: seq<int>, now: int, timeout: int, check: int -> CheckAnswer)
    requires (forall k | 0 <= k < |ids| :: ids[k] in db.rows) && (forall i, j | 0 <= i < j < |ids| :: ids[i] != ids[j])
    ensures SettledFirst(db, Polled(db, ids, now, timeout, check), ids, Reached(db, ids, now, timeout, check), now,
      timeout, check)
    decreases |ids|
  {
    if ids != [] {
      var outcome := PollOutcome(db.rows[ids[0]], now, timeout, check(ids[0]));
      if !Raises(db, outcome) {
        var next := Settled(db, ids[0], outcome, now);
        SettledTold(db, ids[0], outcome, now);
        PollSettles(next, ids[1..], now, timeout, check);
        SettledOneMore(db, next, Polled(db, ids, now, timeout, check), ids,
          Reached(next, ids[1..], now, timeout, check), now, timeout, check);
      }
    }
  }

  // ---- what each answer comes to --------------------------------------------------------

  predicate FailedWith(row: Row, row': Row, code: string, now: int) {
    row'.reason.Some? && row' == row.(status := Failed, error := Some(code), reason := row'.reason,
      updated := Some(now))
  }

  /** Done, on the channel of the chat, which the row's user follows. */
  predicate JoinedTo(row: Row, row': Row, chat: Chat, db': Db, now: int) {
    && row'.channel.Some?
    && row' == row.(status := Done, channel := row'.channel, updated := Some(now))
    && chat.id in db'.channels && db'.channels[chat.id] == row'.channel.value
    && (row.user, row'.channel.value) in db'.t.sources
  }

  /** Joined, unless the chat has no row and another channel carries its username. */
  predicate JoinOf(db: Db, row: Row, row': Row, chat: Chat, db': Db, now: int) {
    if NameTaken(db, chat) then row' == row && db' == db else JoinedTo(row, row', chat, db', now)
  }

  lemma SettledJoin(db: Db, id: int, chat: Chat, now: int)
    requires id in db.rows
    ensures var db' := Settled(db, id, Link(chat), now); JoinOf(db, db.rows[id], db'.rows[id], chat, db', now)
  {
    if !NameTaken(db, chat) {
      PostJoinLinks(db, id, chat, now);
    }
  }

  /** Nothing has happened to the row for `timeout`; a row never updated counts as fresh. */
  predicate TimedOut(row: Row, now: int, timeout: int) {
    (row.updated.Some? && now >= row.updated.value + timeout) || (row.updated.None? && 0 >= timeout)
  }

  /** What the poller makes of a row: it fails by age from the timeout on, counted from its
      last update; before that it is joined when the invite's check finds the account a
      member, fails when the invite is gone, and waits otherwise. */
  predicate PollMeans(db: Db, row: Row, row': Row, db': Db, now: int, timeout: int, check: CheckAnswer) {
    if TimedOut(row, now, timeout) then FailedWith(row, row', "approval_timeout", now)
    else if check.InvalidInvite? then FailedWith(row, row', "invite_invalid", now)
    else if check.ExpiredInvite? then FailedWith(row, row', "invite_expired", now)
    else if check.Member? then JoinOf(db, row, row', check.chat, db', now)
    else row' == row && db' == db
  }

  lemma PollOneMeans(db: Db, id: int, now: int, timeout: int, check: CheckAnswer)
    requires id in db.rows
    ensures var db' := Settled(db, id, PollOutcome(db.rows[id], now, timeout, check), now);
      PollMeans(db, db.rows[id], db'.rows[id], db', now, timeout, check)
  {
    if check.Member? {
      SettledJoin(db, id, check.chat, now);
    }
  }

  /** What the worker makes of a request for a username. */
  predicate PublicMeans(db: Db, row: Row, row': Row, db': Db, entity: EntityAnswer, join: JoinAnswer, now: int) {
    match entity
    case NotOccupied => FailedWith(row, row', "username_not_occupied", now)
    case InvalidName => FailedWith(row, row', "username_invalid", now)
    case PrivateChannel => FailedWith(row, row', "channel_private", now)
    case EntityFlood => row' == row && db' == db
    case EntityError => row' == row && db' == db
    case Entity(chat) =>
      match join
      case Joined => JoinOf(db, row, row', chat, db', now)
      case AlreadyIn => JoinOf(db, row, row', chat, db', now)
      case JoinFlood => row' == row && db' == db
      case JoinError(_) => FailedWith(row, row', "unknown", now)
  }

  /** And of an invite. */
  predicate PrivateMeans(db: Db, row: Row, row': Row, db': Db, check: CheckAnswer, imported: ImportAnswer, now: int) {
    match check
    case InvalidInvite => FailedWith(row, row', "invite_invalid", now)
    case ExpiredInvite => FailedWith(row, row', "invite_expired", now)
    case CheckError => row' == row && db' == db
    case Member(chat) => JoinOf(db, row, row', chat, db', now)
    case Preview =>
      match imported
      case RequestSent => row' == row.(status := PendingApproval, updated := Some(now))
      case TooManyChannels => FailedWith(row, row', "channels_too_much", now)
      case ImportFlood(_) => FailedWith(row, row', "flood_wait", now)
      case Participant(again) =>
        if again.Member? then JoinOf(db, row, row', again.chat, db', now) else FailedWith(row, row', "unknown", now)
      case ImportError => row' == row && db' == db
      case Updates(chats) =>
        if chats == [] then FailedWith(row, row', "unknown", now) else JoinOf(db, row, row', chats[0], db', now)
  }

  lemma PublicAnswer(db: Db, id: int, entity: EntityAnswer, join: JoinAnswer, now: int)
    requires id in db.rows
    ensures var db' := Settled(db, id, PublicOutcome(entity, join), now);
      PublicMeans(db, db.rows[id], db'.rows[id], db', entity, join, now)
  {
    if entity.Entity? {
      SettledJoin(db, id, entity.chat, now);
    }
  }

  lemma PrivateAnswer(db: Db, id: int, check: CheckAnswer, imported: ImportAnswer, now: int)
    requires id in db.rows
    ensures var db' := Settled(db, id, PrivateOutcome(check, imported), now);
      PrivateMeans(db, db.rows[id], db'.rows[id], db', check, imported, now)
  {
    match PrivateOutcome(check, imported)
    case Link(chat) => SettledJoin(db, id, chat, now);
    case _ =>
  }

  /** The claim the worker makes and what the answers make of it, answer by answer: the
      oldest pending row, and no other. */
  lemma WorkerAnswers(db: Db, now: int, later: int, a: Answers)
    ensures PendingIds(db.rows) == {} ==> Handled(db, now, later, a) == db
    ensures PendingIds(db.rows) != {} ==>
      && Oldest(db.rows).Some?
      && var (id, db') := (Oldest(db.rows).value, Handled(db, now, later, a));
      && id in db.rows && id in db'.rows
      && var (mid, row) := (Claimed(db, now), db.rows[id].(status := InProgress, updated := Some(now)));
      && mid == db.(rows := db.rows[id := row])
      && (if row.kind.Public? then PublicMeans(mid, row, db'.rows[id], db', a.entity, a.join, later)
          else PrivateMeans(mid, row, db'.rows[id], db', a.check, a.imported, later))
  {
    OldestIsLeast(db.rows);
    if Oldest(db.rows).Some? {
      var id, mid := Oldest(db.rows).value, Claimed(db, now);
      PublicAnswer(mid, id, a.entity, a.join, later);
      PrivateAnswer(mid, id, a.check, a.imported, later);
    }
  }

  /** Each row a poll comes to ends as its age and its own answer say: failed, done, or as
      it was; done means joined to a chat. */
  predicate PollTold(row: Row, row': Row, now: int, timeout: int, check: CheckAnswer) {
    if TimedOut(row, now, timeout) then FailedWith(row, row', "approval_timeout", now)
    else if check.InvalidInvite? then FailedWith(row, row', "invite_invalid", now)
    else if check.ExpiredInvite? then FailedWith(row, row', "invite_expired", now)
    else if check.Member? then
      row'.channel.Some? && row' == row.(status := Done, channel := row'.channel, updated := Some(now))
    else row' == row
  }

  lemma PollAnswers(db: Db, ids: seq<int>, now: int, timeout: int, check: int -> CheckAnswer, k: nat)
    requires (forall i | 0 <= i < |ids| :: ids[i] in db.rows) && (forall i, j | 0 <= i < j < |ids| :: ids[i] != ids[j])
    requires k < Reached(db, ids, now, timeout, check)
    ensures var r := Polled(db, ids, now, timeout, check);
      PollTold(db.rows[ids[k]], r.rows[ids[k]], now, timeout, check(ids[k]))
  {
    PollSettles(db, ids, now, timeout, check);
  }

  // ---- runs -----------------------------------------------------------------------------

  /** `worker` is the row the join worker holds, `polling` the rows the approval poller
      fetched and has not come to, `claims` every row claimed so far. */
  datatype World = World(db: Db, worker: Option<int>, polling: set<int>, claims: seq<int>)

  /** One committed transaction each; a crash or a FloodWait ends the worker's turn
      with no more than that. */
  datatype Event =
    | EnqueuePublic(user: int, username: string, now: int)
    | EnqueuePrivate(user: int, invite: string, now: int)
    | Claim(now: int)
    | Finish(answers: Answers, now: int)
    | Crash
    | FetchApprovals
    | PollOne(id: int, now: int, timeout: int, check: CheckAnswer)

  function Step(w: World, e: Event): World {
    match e
    case EnqueuePublic(u, name, now) => w.(db := Requested(w.db, u, name, now))
    case EnqueuePrivate(u, invite, now) => w.(db := Inserted(w.db, Private(invite), u, now))
    case Claim(now) =>
      if w.worker.Some? || Oldest(w.db.rows).None? then w
      else
        var id := Oldest(w.db.rows);
        World(Claimed(w.db, now), id, w.polling, w.claims + [id.value])
    case Finish(answers, now) =>
      if w.worker.None? || w.worker.value !in w.db.rows then w
      else
        var id := w.worker.value;
        World(Settled(w.db, id, OutcomeFor(w.db.rows[id], answers), now), None, w.polling, w.claims)
    case Crash => w.(worker := None)
    case FetchApprovals => w.(polling := AwaitingApproval(w.db.rows))
    case PollOne(id, now, timeout, check) =>
      if id !in w.polling || id !in w.db.rows then w
      else
        var outcome := PollOutcome(w.db.rows[id], now, timeout, check);
        w.(db := Settled(w.db, id, outcome, now), polling := if Raises(w.db, outcome) then {} else w.polling - {id})
  }

  function Run(w: World, es: seq<Event>): World {
    if es == [] then w else Step(Run(w, es[..|es| - 1]), es[|es| - 1])
  }

  // ---- what every state keeps -----------------------------------------------------------

  predicate KnownIds(db: Db) { forall id | id in db.rows :: id < db.nextRow }

  /** The worker's row is in progress and the poller's rows await approval: nobody
      else touches them. */
  predicate Held(w: World) {
    && (w.worker.Some? ==> w.worker.value in w.db.rows && w.db.rows[w.worker.value].status == InProgress)
    && (forall id | id in w.polling :: id in w.db.rows && w.db.rows[id].status == PendingApproval)
  }

  /** Rows leave `pending` by being claimed, and no row is claimed twice. */
  predicate ClaimedOnce(w: World) {
    && (forall i, j | 0 <= i < j < |w.claims| :: w.claims[i] != w.claims[j])
    && (forall i | 0 <= i < |w.claims| :: w.claims[i] in w.db.rows && w.db.rows[w.claims[i]].status != Pending)
  }

  predicate DoneHasChannel(rows: Rows) {
    forall id | id in rows && rows[id].status == Done :: rows[id].channel.Some?
  }

  /** A user has at most one request in flight for a username. */
  predicate OneInFlight(rows: Rows) {
    forall i, j | i in rows && j in rows && i != j && InFlight(rows[i]) && InFlight(rows[j]) && rows[i].kind.Public? ::
      !(rows[i].kind == rows[j].kind && rows[i].user == rows[j].user)
  }

  predicate Sound(w: World) {
    KnownIds(w.db) && Held(w) && ClaimedOnce(w) && DoneHasChannel(w.db.rows) && OneInFlight(w.db.rows)
  }

  /** How far along a row is; a finished row does not change again. */
  function Stage(s: Status): nat {
    match s
    case Pending => 0
    case InProgress => 1
    case PendingApproval => 2
    case Done => 3
    case Failed => 3
  }

  predicate Advances(a: Row, b: Row) {
    && b.kind == a.kind && b.user == a.user && b.created == a.created
    && (b == a || Stage(b.status) > Stage(a.status))
  }

  /** A row replaced by a later stage of itself. */
  lemma AdvanceKeeps(rows: Rows, id: int, row: Row)
    requires id in rows && Advances(rows[id], row) && DoneHasChannel(rows) && OneInFlight(rows)
    requires row.status == Done ==> row.channel.Some?
    ensures DoneHasChannel(rows[id := row]) && OneInFlight(rows[id := row])
  {
    assert InFlight(row) ==> InFlight(rows[id]);
  }

  lemma SettledRow(db: Db, id: int, outcome: Outcome, now: int)
    requires id in db.rows
    ensures var r := Settled(db, id, outcome, now);
      && r.rows == db.rows[id := r.rows[id]] && r.nextRow == db.nextRow
      && (r.rows[id].status == Done && r.rows[id] != db.rows[id] ==> r.rows[id].channel.Some?)
      && (db.rows[id].status == InProgress || (db.rows[id].status == PendingApproval && !outcome.Approval?) ==>
            Advances(db.rows[id], r.rows[id]))
  {
    assert db.rows[id := db.rows[id]] == db.rows;
  }

  lemma PollNeverParks(row: Row, now: int, timeout: int, check: CheckAnswer)
    ensures !PollOutcome(row, now, timeout, check).Approval?
  {
  }

  lemma SettleKeeps(w: World, id: int, outcome: Outcome, now: int)
    requires Sound(w) && id in w.db.rows
    requires w.db.rows[id].status == InProgress || (w.db.rows[id].status == PendingApproval && !outcome.Approval?)
    ensures var r := Settled(w.db, id, outcome, now);
      KnownIds(r) && DoneHasChannel(r.rows) && OneInFlight(r.rows) && ClaimedOnce(w.(db := r))
  {
    SettledRow(w.db, id, outcome, now);
    AdvanceKeeps(w.db.rows, id, Settled(w.db, id, outcome, now).rows[id]);
  }

  lemma InsertKeeps(w: World, kind: Kind, user: int, now: int)
    requires Sound(w) && (kind.Public? ==> Active(w.db.rows, user, kind.username).None?)
    ensures Sound(w.(db := Inserted(w.db, kind, user, now)))
  {
    var rows, id := w.db.rows, w.db.nextRow;
    var r := Inserted(w.db, kind, user, now).rows;
    forall j | j in rows && kind.Public? ensures !Wants(rows[j], user, kind.username) {
      var ids := set i | i in rows && Wants(rows[i], user, kind.username);
      assert ids == {};
      assert j !in ids;
    }
    assert OneInFlight(r);
  }

  lemma ClaimKeeps(w: World, now: int)
    requires Sound(w) && w.worker.None?
    ensures Sound(Step(w, Claim(now)))
  {
    OldestIsLeast(w.db.rows);
    if Oldest(w.db.rows).Some? {
      var id := Oldest(w.db.rows).value;
      AdvanceKeeps(w.db.rows, id, Claimed(w.db, now).rows[id]);
      assert forall i | 0 <= i < |w.claims| :: w.claims[i] != id;
    }
  }

  lemma StepSound(w: World, e: Event)
    requires Sound(w)
    ensures Sound(Step(w, e))
  {
    match e
    case EnqueuePublic(u, name, now) => if Active(w.db.rows, u, name).None? { InsertKeeps(w, Public(name), u, now); }
    case EnqueuePrivate(u, invite, now) => InsertKeeps(w, Private(invite), u, now);
    case Claim(now) => if w.worker.None? { ClaimKeeps(w, now); }
    case Finish(answers, now) =>
      if w.worker.Some? {
        var id := w.worker.value;
        SettleKeeps(w, id, OutcomeFor(w.db.rows[id], answers), now);
        SettledRow(w.db, id, OutcomeFor(w.db.rows[id], answers), now);
      }
    case Crash =>
    case FetchApprovals =>
    case PollOne(id, now, timeout, check) =>
      if id in w.polling {
        PollNeverParks(w.db.rows[id], now, timeout, check);
        SettleKeeps(w, id, PollOutcome(w.db.rows[id], now, timeout, check), now);
        SettledRow(w.db, id, PollOutcome(w.db.rows[id], now, timeout, check), now);
      }
  }

  ghost predicate Fresh(w: World) {
    w.db.rows == map[] && w.worker == None && w.polling == {} && w.claims == []
  }

  /** In every reachable state each row has been claimed at most once, the rows held
      are where their holders left them, a done row has its channel, and each user has
      at most one request in flight for a username. */
  lemma {:induction false} RunSound(w: World, es: seq<Event>)
    requires Fresh(w)
    ensures Sound(Run(w, es))
  {
    RunStaysSound(w, es);
  }

  // ---- one row's life -------------------------------------------------------------------

  lemma ClaimAdvances(db: Db, now: int, id: int)
    requires id in db.rows
    ensures id in Claimed(db, now).rows && Advances(db.rows[id], Claimed(db, now).rows[id])
  {
    OldestIsLeast(db.rows);
  }

  /** A step leaves a row alone or moves it to a later stage, so done and failed are
      for ever. */
  lemma StepAdvances(w: World, e: Event, id: int)
    requires Sound(w) && id in w.db.rows
    ensures id in Step(w, e).db.rows && Advances(w.db.rows[id], Step(w, e).db.rows[id])
  {
    match e
    case EnqueuePublic(_, _, _) =>
    case EnqueuePrivate(_, _, _) =>
    case Claim(now) => ClaimAdvances(w.db, now, id);
    case Finish(answers, now) =>
      if w.worker.Some? {
        SettledRow(w.db, w.worker.value, OutcomeFor(w.db.rows[w.worker.value], answers), now);
      }
    case Crash =>
    case FetchApprovals =>
    case PollOne(i, now, timeout, check) =>
      if i in w.polling {
        PollNeverParks(w.db.rows[i], now, timeout, check);
        SettledRow(w.db, i, PollOutcome(w.db.rows[i], now, timeout, check), now);
      }
  }

  lemma {:induction false} RunAdvances(w: World, es: seq<Event>, id: int)
    requires Sound(w) && id in w.db.rows
    ensures Sound(Run(w, es)) && id in Run(w, es).db.rows && Advances(w.db.rows[id], Run(w, es).db.rows[id])
  {
    if es != [] {
      var mid := Run(w, es[..|es| - 1]);
      RunAdvances(w, es[..|es| - 1], id);
      StepAdvances(mid, es[|es| - 1], id);
      StepSound(mid, es[|es| - 1]);
    }
  }

  /** The row names a Telegram chat's channel, its user follows that channel, and the
      channel carries the invite it was joined by. */
  ghost predicate Linked(db: Db, id: int)
    requires id in db.rows
  {
    var row := db.rows[id];
    && row.channel.Some? && (row.user, row.channel.value) in db.t.sources
    && (exists chat :: chat in db.channels && db.channels[chat] == row.channel.value)
    && (row.kind.Private? && row.kind.invite != "" ==>
          row.channel.value in db.invites && db.invites[row.channel.value] == row.kind.invite)
  }

  lemma PostJoinLinks(db: Db, id: int, chat: Chat, now: int)
    requires id in db.rows && !NameTaken(db, chat)
    ensures Linked(PostJoin(db, id, chat, now), id)
  {
    assert chat.id in Upserted(db, chat).channels;
  }

  lemma SettledLinks(db: Db, id: int, outcome: Outcome, now: int, done: int)
    requires id in db.rows && done in db.rows
    requires db.rows[done].status != Done && Settled(db, id, outcome, now).rows[done].status == Done
    ensures Linked(Settled(db, id, outcome, now), done)
  {
    if outcome.Link? && !Raises(db, outcome) {
      PostJoinLinks(db, id, outcome.chat, now);
    }
  }

  /** The step that makes a row done links its requester to the row's channel. */
  lemma DoneLinksRequester(w: World, e: Event, id: int)
    requires Sound(w) && id in w.db.rows && w.db.rows[id].status != Done && Step(w, e).db.rows[id].status == Done
    ensures Linked(Step(w, e).db, id)
  {
    OldestIsLeast(w.db.rows);
    match e
    case Finish(answers, now) =>
      var held := w.worker.value;
      SettledLinks(w.db, held, OutcomeFor(w.db.rows[held], answers), now, id);
    case PollOne(polled, now, timeout, check) =>
      SettledLinks(w.db, polled, PollOutcome(w.db.rows[polled], now, timeout, check), now, id);
    case _ =>
  }

  lemma StepConserves(w: World, e: Event)
    requires Subscriptions.Conserved(w.db.t)
    ensures Subscriptions.Conserved(Step(w, e).db.t)
  {
    forall u, c ensures Subscriptions.Conserved(Subscriptions.Added(w.db.t, u, c)) {
      Subscriptions.AddConserves(w.db.t, u, c);
    }
  }

  // ---- names in any case ----------------------------------------------------------------

  predicate SameLetter(a: char, b: char) {
    || a == b
    || ('A' <= a <= 'Z' && b as int == a as int + 32)
    || ('A' <= b <= 'Z' && a as int == b as int + 32)
  }

  /** Two spellings of one name. */
  predicate SameName(a: string, b: string) {
    |a| == |b| && forall i | 0 <= i < |a| :: SameLetter(a[i], b[i])
  }

  lemma SameNameIff(a: string, b: string)
    ensures SameName(a, b) <==> Lowered(a) == Lowered(b)
  {
    if Lowered(a) == Lowered(b) {
      forall i | 0 <= i < |a| ensures SameLetter(a[i], b[i]) {
        assert Lowered(a)[i] == Lowered(b)[i];
      }
    }
  }

  lemma LoweredOnce(a: string)
    ensures Lowered(Lowered(a)) == Lowered(a)
  {
  }

  ghost predicate NamesLowered(db: Db) { forall n | n in db.names :: n == Lowered(n) }

  lemma StepNamesLowered(w: World, e: Event)
    requires NamesLowered(w.db)
    ensures NamesLowered(Step(w, e).db)
  {
    forall a ensures Lowered(Lowered(a)) == Lowered(a) {
      LoweredOnce(a);
    }
  }

  /** In every reachable state an insert breaks the index on usernames exactly when the chat
      has no row and its name, in some spelling, is another channel's. */
  lemma {:induction false} RunNameTakenIff(w: World, es: seq<Event>, chat: Chat)
    requires NamesLowered(w.db)
    ensures var db := Run(w, es).db;
      && NamesLowered(db)
      && (NameTaken(db, chat) <==>
            && chat.id !in db.channels && chat.username.Some? && chat.username.value != ""
            && exists n :: n in db.names && SameName(n, chat.username.value))
  {
    if es != [] {
      RunNameTakenIff(w, es[..|es| - 1], chat);
      StepNamesLowered(Run(w, es[..|es| - 1]), es[|es| - 1]);
    }
    var db := Run(w, es).db;
    if chat.username.Some? {
      forall n | n in db.names ensures SameName(n, chat.username.value) <==> n == Lowered(chat.username.value) {
        SameNameIff(n, chat.username.value);
      }
    }
  }

  /** A channel stored by a join is found under its name however a user types it. */
  lemma FoundInAnyCase(db: Db, id: int, chat: Chat, now: int, typed: string)
    requires id in db.rows && chat.id !in db.channels && !NameTaken(db, chat)
    requires chat.username.Some? && chat.username.value != "" && SameName(typed, chat.username.value)
    ensures var r := PostJoin(db, id, chat, now);
      Lowered(typed) in r.names && r.rows[id].channel == Some(r.names[Lowered(typed)])
  {
    SameNameIff(typed, chat.username.value);
  }

  // ---- the request that is never retried ------------------------------------------------

  /** In progress, and the worker has gone on without it. */
  predicate Abandoned(w: World, id: int) {
    id in w.db.rows && w.db.rows[id].status == InProgress && w.worker != Some(id)
  }

  /** Telegram's answers that no branch of the worker turns into a result. */
  predicate Unanswered(kind: Kind, a: Answers) {
    if kind.Public? then a.entity.EntityFlood? || a.entity.EntityError? || (a.entity.Entity? && a.join.JoinFlood?)
    else a.check.CheckError? || (a.check.Preview? && a.imported.ImportError?)
  }

  /** The answers end in a join of that chat. */
  predicate Reaches(kind: Kind, a: Answers, chat: Chat) {
    if kind.Public? then a.entity == Entity(chat) && (a.join.Joined? || a.join.AlreadyIn?)
    else
      || a.check == Member(chat)
      || (a.check.Preview? && a.imported == Participant(Member(chat)))
      || (a.check.Preview? && a.imported.Updates? && a.imported.chats != [] && a.imported.chats[0] == chat)
  }

  /** A claimed request is left in progress exactly on a FloodWait while its name is
      resolved or joined, on an error that nothing catches (for an invite any FloodWait
      of its first check, and an unforeseen error of its import), or when the chat it
      joined has no row and goes by a username that another channel carries. */
  lemma AbandonsIff(w: World, id: int, a: Answers, now: int)
    requires Sound(w) && w.worker == Some(id)
    ensures Abandoned(Step(w, Finish(a, now)), id) <==>
      Unanswered(w.db.rows[id].kind, a) || exists chat :: Reaches(w.db.rows[id].kind, a, chat) && NameTaken(w.db, chat)
  {
    var kind, outcome := w.db.rows[id].kind, OutcomeFor(w.db.rows[id], a);
    assert outcome.Leave? <==> Unanswered(kind, a);
    assert forall chat :: outcome == Link(chat) <==> Reaches(kind, a, chat);
  }

  lemma StepLeavesAbandoned(w: World, e: Event, id: int)
    requires Sound(w) && Abandoned(w, id)
    ensures Abandoned(Step(w, e), id) && Step(w, e).db.rows[id] == w.db.rows[id]
  {
    OldestIsLeast(w.db.rows);
  }

  lemma {:induction false} StaysAbandoned(w: World, es: seq<Event>, id: int)
    requires Sound(w) && Abandoned(w, id)
    ensures Sound(Run(w, es)) && Abandoned(Run(w, es), id) && Run(w, es).db.rows[id] == w.db.rows[id]
  {
    if es != [] {
      var mid := Run(w, es[..|es| - 1]);
      StaysAbandoned(w, es[..|es| - 1], id);
      StepLeavesAbandoned(mid, es[|es| - 1], id);
      StepSound(mid, es[|es| - 1]);
    }
  }

  /** From then on, whatever happens, every request of that user for that username is
      answered with the row that no one will work on again. */
  lemma AbandonedForEver(w: World, es: seq<Event>, id: int)
    requires Sound(w) && Abandoned(w, id) && w.db.rows[id].kind.Public?
    ensures var rows := Run(w, es).db.rows;
      && id in rows && rows[id] == w.db.rows[id]
      && Active(rows, rows[id].user, rows[id].kind.username) == Some(id)
  {
    StaysAbandoned(w, es, id);
    var rows := Run(w, es).db.rows;
    var (user, name) := (rows[id].user, rows[id].kind.username);
    var ids := set i | i in rows && Wants(rows[i], user, name);
    assert id in ids;
    assert Wants(rows[Min(ids)], user, name);
  }

  // ---- a username that moves on ---------------------------------------------------------

  lemma SettledKeepsNames(db: Db, id: int, outcome: Outcome, now: int, name: string)
    requires id in db.rows && name in db.names
    ensures var r := Settled(db, id, outcome, now); name in r.names && r.names[name] == db.names[name]
  {
  }

  lemma StepKeepsNames(w: World, e: Event, name: string)
    requires name in w.db.names
    ensures name in Step(w, e).db.names && Step(w, e).db.names[name] == w.db.names[name]
  {
    match e
    case Finish(answers, now) =>
      if w.worker.Some? && w.worker.value in w.db.rows {
        var id := w.worker.value;
        SettledKeepsNames(w.db, id, OutcomeFor(w.db.rows[id], answers), now, name);
      }
    case PollOne(id, now, timeout, check) =>
      if id in w.db.rows {
        SettledKeepsNames(w.db, id, PollOutcome(w.db.rows[id], now, timeout, check), now, name);
      }
    case Claim(_) => OldestIsLeast(w.db.rows);
    case _ =>
  }

  /** A username stays with the channel that was first stored under it, whatever chat
      Telegram gives it to. */
  lemma {:induction false} RunKeepsNames(w: World, es: seq<Event>, name: string)
    requires name in w.db.names
    ensures name in Run(w, es).db.names && Run(w, es).db.names[name] == w.db.names[name]
  {
    if es != [] {
      RunKeepsNames(w, es[..|es| - 1], name);
      StepKeepsNames(Run(w, es[..|es| - 1]), es[|es| - 1], name);
    }
  }

  /** A channel's username goes to another chat. From then on, however much else happens,
      a request that reaches that chat without a row is left in progress although every
      answer was good: its user gets no link, and later requests are answered with it. */
  lemma NameMovesOn(w: World, name: string, before: seq<Event>, id: int, chat: Chat, now: int, after: seq<Event>)
    requires Sound(w) && name in w.db.names && NameOf(chat) == Some(name)
    requires Run(w, before).worker == Some(id) && chat.id !in Run(w, before).db.channels
    requires id in Run(w, before).db.rows && Run(w, before).db.rows[id].kind.Public?
    ensures var v := Run(w, before);
      var a := Answers(Entity(chat), Joined, Preview, RequestSent);
      var r := Run(Step(v, Finish(a, now)), after);
      && Step(v, Finish(a, now)).db == v.db
      && id in r.db.rows && r.db.rows[id] == v.db.rows[id] && r.db.rows[id].status == InProgress
      && Active(r.db.rows, r.db.rows[id].user, r.db.rows[id].kind.username) == Some(id)
  {
    var v := Run(w, before);
    var a := Answers(Entity(chat), Joined, Preview, RequestSent);
    RunKeepsNames(w, before, name);
    RunStaysSound(w, before);
    assert Reaches(v.db.rows[id].kind, a, chat);
    AbandonsIff(v, id, a, now);
    StepSound(v, Finish(a, now));
    AbandonedForEver(Step(v, Finish(a, now)), after, id);
  }

  /** One request, claimed and answered. */
  function Handle(w: World, user: int, name: string, chat: Chat): World {
    Run(w, [EnqueuePublic(user, name, 0), Claim(0), Finish(Answers(Entity(chat), Joined, Preview, RequestSent), 0)])
  }

  lemma HandleIs(w: World, user: int, name: string, chat: Chat)
    requires KnownIds(w.db) && w.worker == None && PendingIds(w.db.rows) == {}
    requires Active(w.db.rows, user, name) == None
    ensures var id := w.db.nextRow;
      var mid := Claimed(Inserted(w.db, Public(name), user, 0), 0);
      && id in mid.rows && mid.rows[id] == Row(Public(name), user, 0, Some(0), InProgress, None, None, None)
      && Handle(w, user, name, chat) == World(Settled(mid, id, Link(chat), 0), None, w.polling, w.claims + [id])
  {
    var queued := Inserted(w.db, Public(name), user, 0);
    OldestIsLeast(queued.rows);
    var a := Answers(Entity(chat), Joined, Preview, RequestSent);
    var e1, e2, e3 := EnqueuePublic(user, name, 0), Claim(0), Finish(a, 0);
    assert [e1, e2, e3][..2] == [e1, e2] && [e1, e2][..1] == [e1] && [e1][..0] == [];
    assert PendingIds(queued.rows) == {w.db.nextRow};
    assert Run(w, []) == w;
    assert Run(w, [e1]) == w.(db := queued);
    assert Run(w, [e1, e2]) == Step(Run(w, [e1]), e2);
    assert Run(w, [e1, e2, e3]) == Step(Run(w, [e1, e2]), e3);
  }

  /** The only row is done, and chat 1 carries the username. */
  predicate FirstHasName(w: World, one: int, name: string) {
    && w.db.nextRow == one + 1 && w.worker == None && w.db.rows.Keys == {one} && w.db.rows[one].status == Done
    && w.db.channels.Keys == {1} && name in w.db.names
  }

  lemma FirstStores(w: World, name: string)
    requires Fresh(w) && w.db.channels == map[] && w.db.names == map[] && name != "" && Lowered(name) == name
    ensures FirstHasName(Handle(w, 1, name, Chat(1, Some(name))), w.db.nextRow, name)
  {
    HandleIs(w, 1, name, Chat(1, Some(name)));
  }

  /** From an empty queue: one user's request stores chat 1 under a username. When that
      username has gone to chat 2, another user's request is let go of. */
  lemma TwoChatsOneName(w: World, name: string)
    requires Fresh(w) && w.db.channels == map[] && w.db.names == map[] && name != "" && Lowered(name) == name
    ensures var one, two := w.db.nextRow, w.db.nextRow + 1;
      var r := Handle(Handle(w, 1, name, Chat(1, Some(name))), 2, name, Chat(2, Some(name)));
      && one in r.db.rows && r.db.rows[one].status == Done
      && Abandoned(r, two) && r.db.rows[two].kind == Public(name) && r.db.rows[two].user == 2
  {
    FirstStores(w, name);
    SecondIsLetGo(Handle(w, 1, name, Chat(1, Some(name))), w.db.nextRow, name);
  }

  lemma SecondIsLetGo(mid: World, one: int, name: string)
    requires FirstHasName(mid, one, name) && name != "" && Lowered(name) == name
    ensures var r := Handle(mid, 2, name, Chat(2, Some(name)));
      && one in r.db.rows && r.db.rows[one].status == Done
      && Abandoned(r, one + 1) && r.db.rows[one + 1].kind == Public(name) && r.db.rows[one + 1].user == 2
  {
    HandleIs(mid, 2, name, Chat(2, Some(name)));
    OldestIsLeast(Inserted(mid.db, Public(name), 2, 0).rows);
    assert NameTaken(Claimed(Inserted(mid.db, Public(name), 2, 0), 0), Chat(2, Some(name)));
  }

  lemma {:induction false} RunStaysSound(w: World, es: seq<Event>)
    requires Sound(w)
    ensures Sound(Run(w, es))
  {
    if es != [] {
      RunStaysSound(w, es[..|es| - 1]);
      StepSound(Run(w, es[..|es| - 1]), es[|es| - 1]);
    }
  }

  // ---- unserialised enqueues ------------------------------------------------------------

  /** Two requests whose checks both ran before either insert: the second insert keeps
      the rule exactly when no request is in flight at that moment. */
  lemma BlindInsert(w: World, user: int, username: string, now: int)
    requires Sound(w)
    ensures OneInFlight(Inserted(w.db, Public(username), user, now).rows) <==> Active(w.db.rows, user, username).None?
  {
    var r := Inserted(w.db, Public(username), user, now).rows;
    if Active(w.db.rows, user, username).None? {
      InsertKeeps(w, Public(username), user, now);
    } else {
      var id := Active(w.db.rows, user, username).value;
      assert Wants(w.db.rows[id], user, username);
      assert id in r && w.db.nextRow in r && r[id].kind == r[w.db.nextRow].kind;
    }
  }
}
