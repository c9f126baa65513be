/** Who follows which channel: the source links, the reference counts kept beside
    them, and the sweep that parks channels nobody follows. */
module Subscriptions {
  import opened Prelude

  datatype Status = PendingBackfill | Active | Dormant

  datatype Sub = Sub(status: Status, refCount: int)

  /** Links and hides are (user, channel) pairs; `subs` is `channel_subscriptions`. */
  datatype Tables = Tables(
    sources: set<(int, int)>,
    subs: map<int, Sub>,
    hidden: set<(int, int)>,
    catalogHidden: set<(int, int)>)

  function Incremented(subs: map<int, Sub>, channel: int): map<int, Sub> {
    if channel in subs then subs[channel := subs[channel].(refCount := subs[channel].refCount + 1)]
    else subs[channel := Sub(PendingBackfill, 1)]
  }

  /** GREATEST(ref_count - 1, 0); a missing row stays missing. */
  function Decremented(subs: map<int, Sub>, channel: int): map<int, Sub> {
    if channel !in subs then subs
    else
      var n := subs[channel].refCount - 1;
      subs[channel := subs[channel].(refCount := if n < 0 then 0 else n)]
  }

  function Added(t: Tables, user: int, channel: int): Tables {
    Tables(
      t.sources + {(user, channel)},
      if (user, channel) in t.sources then t.subs else Incremented(t.subs, channel),
      t.hidden - {(user, channel)},
      t.catalogHidden - {(user, channel)})
  }

  function Removed(t: Tables, user: int, channel: int): Tables {
    t.(sources := t.sources - {(user, channel)},
       subs := if (user, channel) in t.sources then Decremented(t.subs, channel) else t.subs,
       hidden := t.hidden - {(user, channel)})
  }

  /** `_backfill_channel`'s last statement. */
  function Activated(t: Tables, channel: int): Tables {
    if channel !in t.subs then t else t.(subs := t.subs[channel := t.subs[channel].(status := Active)])
  }

  function Parked(t: Tables, channel: int): Tables {
    if channel !in t.subs then t else t.(subs := t.subs[channel := t.subs[channel].(status := Dormant)])
  }

  /** What the sweep selects. */
  function Targets(t: Tables): set<int> {
    set c | c in t.subs && t.subs[c].refCount == 0 && t.subs[c].status == Active
  }

  /** A whole sweep with nothing in between. */
  function Swept(t: Tables): Tables {
    t.(subs := map c | c in t.subs :: if c in Targets(t) then t.subs[c].(status := Dormant) else t.subs[c])
  }

  /** Telethon's peer id for a supergroup. */
  function Marked(tgChatId: int): int { -1000000000000 - tgChatId }

  class SourceTables {
    var sources: set<(int, int)>
    var subs: map<int, Sub>
    var hidden: set<(int, int)>
    var catalogHidden: set<(int, int)>
    /** `channels.tg_chat_id`, and the live handler's map from peer id to channel. */
    var chats: map<int, int>
    var chatMap: map<int, int>

    function View(): Tables
      reads this
    {
      Tables(sources, subs, hidden, catalogHidden)
    }

    constructor (chats: map<int, int>)
      ensures View() == Tables({}, map[], {}, {}) && this.chats == chats && chatMap == map[]
    {
      sources, subs, hidden, catalogHidden := {}, map[], {}, {};
      this.chats, chatMap := chats, map[];
    }

    method IncrementRefCount(channel: int) returns (sub: Sub)
      modifies this`subs
      ensures subs == Incremented(old(subs), channel) && sub == subs[channel]
    {
      if channel in subs {
        sub := Sub(subs[channel].status, subs[channel].refCount + 1);
      } else {
        sub := Sub(PendingBackfill, 1);
      }
      subs := subs[channel := sub];
    }

    method DecrementRefCount(channel: int) returns (sub: Option<Sub>)
      modifies this`subs
      ensures subs == Decremented(old(subs), channel)
      ensures sub == if channel in subs then Some(subs[channel]) else None
    {
      if channel !in subs {
        return None;
      }
      var n := subs[channel].refCount - 1;
      var row := Sub(subs[channel].status, if n > 0 then n else 0);
      subs := subs[channel := row];
      sub := Some(row);
    }

    method AddUserSource(user: int, channel: int) returns (wasNew: bool, status: Option<Status>)
      modifies this`sources, this`subs, this`hidden, this`catalogHidden
      ensures View() == Added(old(View()), user, channel)
      ensures wasNew == ((user, channel) !in old(sources))
      ensures status == if channel in subs then Some(subs[channel].status) else None
    {
      wasNew := (user, channel) !in sources;
      sources := sources + {(user, channel)};
      hidden := hidden - {(user, channel)};
      if wasNew {
        var sub := IncrementRefCount(channel);
        status := Some(sub.status);
      } else {
        status := if channel in subs then Some(subs[channel].status) else None;
      }
      catalogHidden := catalogHidden - {(user, channel)};
    }

    method RemoveUserSource(user: int, channel: int) returns (removed: bool)
      modifies this`sources, this`subs, this`hidden
      ensures View() == Removed(old(View()), user, channel)
      ensures removed == ((user, channel) in old(sources))
    {
      removed := (user, channel) in sources;
      sources := sources - {(user, channel)};
      hidden := hidden - {(user, channel)};
      if removed {
        var _ := DecrementRefCount(channel);
      }
    }

    /** `_sweep_once`, uninterrupted: the targets are read first and parked one by one. */
    method SweepOnce()
      requires subs.Keys <= chats.Keys
      modifies this`subs, this`chatMap
      ensures View() == Swept(old(View()))
      ensures chatMap == old(chatMap) - set c | c in Targets(old(View())) :: Marked(chats[c])
    {
      ghost var before, map0 := View(), chatMap;
      var targets := Ascending(Targets(View()));
      var i := 0;
      while i < |targets|
        invariant 0 <= i <= |targets|
        invariant subs == ParkedAll(before.subs, targets[..i])
        invariant chatMap == Dropped(map0, chats, targets[..i])
      {
        var c := targets[i];
        assert c in targets;
        SweepNext(before.subs, map0, chats, targets, i);
        subs := subs[c := subs[c].(status := Dormant)];
        chatMap := chatMap - {Marked(chats[c])};
        i := i + 1;
      }
      assert targets[..i] == targets;
      SweepDone(before, map0, chats, targets);
    }
  }

  function ParkedAll(subs: map<int, Sub>, done: seq<int>): map<int, Sub> {
    map c | c in subs :: if c in done then subs[c].(status := Dormant) else subs[c]
  }

  function Dropped(chatMap: map<int, int>, chats: map<int, int>, done: seq<int>): map<int, int> {
    chatMap - set c | c in done && c in chats :: Marked(chats[c])
  }

  lemma SweepNext(subs: map<int, Sub>, chatMap: map<int, int>, chats: map<int, int>, targets: seq<int>, i: nat)
    requires i < |targets| && targets[i] in subs && targets[i] in chats
    ensures var c := targets[i];
      && ParkedAll(subs, targets[..i + 1]) == ParkedAll(subs, targets[..i])[c := subs[c].(status := Dormant)]
      && Dropped(chatMap, chats, targets[..i + 1]) == Dropped(chatMap, chats, targets[..i]) - {Marked(chats[c])}
  {
    assert targets[..i + 1] == targets[..i] + [targets[i]];
  }

  lemma SweepDone(t: Tables, chatMap: map<int, int>, chats: map<int, int>, targets: seq<int>)
    requires t.subs.Keys <= chats.Keys && targets == Ascending(Targets(t))
    ensures ParkedAll(t.subs, targets) == Swept(t).subs
    ensures Dropped(chatMap, chats, targets) == chatMap - set c | c in Targets(t) :: Marked(chats[c])
  {
    assert forall c :: c in targets <==> c in Targets(t);
  }

  // ---- conservation ---------------------------------------------------------------------

  function Followers(t: Tables, channel: int): set<int> {
    set p | p in t.sources && p.1 == channel :: p.0
  }

  function RefCount(t: Tables, channel: int): int {
    if channel in t.subs then t.subs[channel].refCount else 0
  }

  /** Every channel's count is the number of its links. */
  ghost predicate Conserved(t: Tables) {
    forall c :: RefCount(t, c) == |Followers(t, c)|
  }

  /** A channel somebody follows has a row, so taking a follower away never reaches
      the clamp. */
  lemma ClampIdle(t: Tables, user: int, channel: int)
    requires Conserved(t) && (user, channel) in t.sources
    ensures channel in t.subs && t.subs[channel].refCount >= 1
    ensures RefCount(Removed(t, user, channel), channel) == RefCount(t, channel) - 1
  {
    assert (user, channel).0 in Followers(t, channel);
    assert RefCount(t, channel) == |Followers(t, channel)|;
    assert Followers(t, channel) == (Followers(t, channel) - {user}) + {user};
  }

  lemma FollowerIff(t: Tables, user: int, channel: int)
    ensures user in Followers(t, channel) <==> (user, channel) in t.sources
  {
    assert (user, channel) in t.sources ==> (user, channel).0 in Followers(t, channel);
  }

  lemma FollowersAdded(t: Tables, user: int, channel: int, c: int)
    ensures Followers(Added(t, user, channel), c) == Followers(t, c) + if c == channel then {user} else {}
    ensures user in Followers(t, channel) <==> (user, channel) in t.sources
  {
    var r := Added(t, user, channel);
    FollowerIff(t, user, channel);
    forall u ensures u in Followers(r, c) <==> u in Followers(t, c) || (c == channel && u == user) {
      FollowerIff(t, u, c);
      FollowerIff(r, u, c);
    }
  }

  lemma FollowersRemoved(t: Tables, user: int, channel: int, c: int)
    ensures Followers(Removed(t, user, channel), c) == Followers(t, c) - if c == channel then {user} else {}
    ensures user in Followers(t, channel) <==> (user, channel) in t.sources
  {
    var r := Removed(t, user, channel);
    FollowerIff(t, user, channel);
    forall u ensures u in Followers(r, c) <==> u in Followers(t, c) && !(c == channel && u == user) {
      FollowerIff(t, u, c);
      FollowerIff(r, u, c);
    }
  }

  lemma AddConserves(t: Tables, user: int, channel: int)
    requires Conserved(t)
    ensures Conserved(Added(t, user, channel))
  {
    var r := Added(t, user, channel);
    forall c ensures RefCount(r, c) == |Followers(r, c)| {
      FollowersAdded(t, user, channel, c);
      assert RefCount(t, c) == |Followers(t, c)|;
      assert (user, channel) in t.sources ==> t.sources + {(user, channel)} == t.sources;
    }
  }

  lemma RemoveConserves(t: Tables, user: int, channel: int)
    requires Conserved(t)
    ensures Conserved(Removed(t, user, channel))
  {
    var r := Removed(t, user, channel);
    forall c ensures RefCount(r, c) == |Followers(r, c)| {
      FollowersRemoved(t, user, channel, c);
      assert RefCount(t, c) == |Followers(t, c)|;
      if (user, channel) in t.sources {
        ClampIdle(t, user, channel);
      }
    }
  }

  /** Removing a link just added gives back every link and every count, and neither
      call leaves the channel hidden for the user or touches another pair's hides. */
  lemma RemoveUndoesAdd(t: Tables, user: int, channel: int)
    requires Conserved(t) && (user, channel) !in t.sources
    ensures var a := Added(t, user, channel); var r := Removed(a, user, channel);
      && r.sources == t.sources
      && (forall c :: RefCount(r, c) == RefCount(t, c))
      && RefCount(a, channel) == RefCount(t, channel) + 1
      && a.hidden == r.hidden == t.hidden - {(user, channel)}
      && a.catalogHidden == t.catalogHidden - {(user, channel)}
  {
    var a := Added(t, user, channel);
    var r := Removed(a, user, channel);
    assert RefCount(t, channel) == |Followers(t, channel)|;
    assert r.sources == t.sources;
  }

  lemma StatusConserves(t: Tables, r: Tables)
    requires Conserved(t) && r.sources == t.sources && r.subs.Keys == t.subs.Keys
    requires forall c | c in t.subs :: r.subs[c].refCount == t.subs[c].refCount
    ensures Conserved(r)
  {
    forall c ensures RefCount(r, c) == |Followers(r, c)| {
      assert Followers(r, c) == Followers(t, c);
      assert RefCount(t, c) == |Followers(t, c)|;
    }
  }

  // ---- runs -----------------------------------------------------------------------------

  /** Committed transactions. `Joined` links a requester when a join completes and
      `Backfilled` activates the channel some time later; `Park` is one update of a
      sweep that others come in between, `Sweep` a sweep nobody interrupts. */
  datatype Event =
    | Subscribe(user: int, channel: int)
    | Unsubscribe(user: int, channel: int)
    | Joined(user: int, channel: int)
    | Backfilled(channel: int)
    | Sweep
    | Park(channel: int)

  /** `rejoining` are the channels joined and not yet backfilled. */
  datatype World = World(t: Tables, rejoining: set<int>)

  /** The handlers link a user directly only while the channel is being ingested. */
  predicate Direct(t: Tables, channel: int) {
    channel in t.subs && (t.subs[channel].status == Active || t.subs[channel].status == PendingBackfill)
  }

  function Step(w: World, e: Event): World {
    match e
    case Subscribe(u, c) => if Direct(w.t, c) then w.(t := Added(w.t, u, c)) else w
    case Unsubscribe(u, c) => w.(t := Removed(w.t, u, c))
    case Joined(u, c) => World(Added(w.t, u, c), w.rejoining + {c})
    case Backfilled(c) => World(Activated(w.t, c), w.rejoining - {c})
    case Sweep => w.(t := Swept(w.t))
    case Park(c) => w.(t := Parked(w.t, c))
  }

  function Run(w: World, es: seq<Event>): World {
    if es == [] then w else Step(Run(w, es[..|es| - 1]), es[|es| - 1])
  }

  const START := World(Tables({}, map[], {}, {}), {})

  lemma StepConserves(w: World, e: Event)
    requires Conserved(w.t)
    ensures Conserved(Step(w, e).t)
  {
    match e
    case Subscribe(u, c) => AddConserves(w.t, u, c);
    case Unsubscribe(u, c) => RemoveConserves(w.t, u, c);
    case Joined(u, c) => AddConserves(w.t, u, c);
    case Backfilled(c) => StatusConserves(w.t, Activated(w.t, c));
    case Sweep => StatusConserves(w.t, Swept(w.t));
    case Park(c) => StatusConserves(w.t, Parked(w.t, c));
  }

  /** In every reachable state, however sweeps are interleaved, each count equals the
      number of links. */
  lemma {:induction false} RunConserves(es: seq<Event>)
    ensures Conserved(Run(START, es).t)
  {
    if es == [] {
      forall c ensures RefCount(START.t, c) == |Followers(START.t, c)| {
        assert Followers(START.t, c) == {};
      }
    } else {
      RunConserves(es[..|es| - 1]);
      StepConserves(Run(START, es[..|es| - 1]), es[|es| - 1]);
    }
  }

  // ---- what a step does -----------------------------------------------------------------

  function StatusOf(t: Tables, c: int): Option<Status> {
    if c in t.subs then Some(t.subs[c].status) else None
  }

  lemma UnfollowedIff(t: Tables, c: int)
    ensures Followers(t, c) == {} <==> forall u :: (u, c) !in t.sources
  {
    if Followers(t, c) != {} {
      FollowerIff(t, Any(Followers(t, c)), c);
    }
    forall u ensures u in Followers(t, c) <==> (u, c) in t.sources {
      FollowerIff(t, u, c);
    }
  }

  /** A channel's first link makes its row, waiting for its backfill; the backfill makes it
      active, and an update or a sweep that finds no link parks it; nothing else moves it. */
  lemma StepStatus(w: World, e: Event, c: int)
    requires Conserved(w.t)
    ensures var (before, after) := (StatusOf(w.t, c), StatusOf(Step(w, e).t, c));
      match e
      case Subscribe(_, _) => after == before
      case Unsubscribe(_, _) => after == before
      case Joined(_, d) => after == if c == d && before.None? then Some(PendingBackfill) else before
      case Backfilled(d) => after == if c == d && before.Some? then Some(Active) else before
      case Park(d) => after == if c == d && before.Some? then Some(Dormant) else before
      case Sweep =>
        after == if before == Some(Active) && (forall u :: (u, c) !in w.t.sources) then Some(Dormant) else before
  {
    match e
    case Joined(u, d) =>
      if (u, d) in w.t.sources {
        ClampIdle(w.t, u, d);
      }
    case Sweep =>
      NoFollowers(w.t, c);
      UnfollowedIff(w.t, c);
    case _ =>
  }

  /** A user is linked by a join, and directly to a channel that is active or waits for its
      backfill; a link goes only when its user takes it away. */
  lemma StepLinks(w: World, e: Event)
    ensures Step(w, e).t.sources ==
      match e
      case Subscribe(u, c) =>
        if StatusOf(w.t, c) in {Some(Active), Some(PendingBackfill)} then w.t.sources + {(u, c)} else w.t.sources
      case Unsubscribe(u, c) => w.t.sources - {(u, c)}
      case Joined(u, c) => w.t.sources + {(u, c)}
      case _ => w.t.sources
  {
  }

  /** The user takes the channel up or away. */
  predicate Touches(w: World, e: Event, user: int, channel: int) {
    match e
    case Subscribe(u, c) => u == user && c == channel && StatusOf(w.t, c) in {Some(Active), Some(PendingBackfill)}
    case Unsubscribe(u, c) => u == user && c == channel
    case Joined(u, c) => u == user && c == channel
    case _ => false
  }

  predicate TakesUp(w: World, e: Event, user: int, channel: int) { Touches(w, e, user, channel) && !e.Unsubscribe? }

  ghost predicate Never(w: World, es: seq<Event>, happens: (World, Event) -> bool) {
    forall k | 0 <= k < |es| :: !happens(Run(w, es[..k]), es[k])
  }

  lemma NeverYet(w: World, es: seq<Event>, happens: (World, Event) -> bool)
    requires es != []
    ensures var front, e := es[..|es| - 1], es[|es| - 1];
      Never(w, es, happens) <==> Never(w, front, happens) && !happens(Run(w, front), e)
  {
    var front := es[..|es| - 1];
    assert forall k | 0 <= k < |front| :: front[k] == es[k] && front[..k] == es[..k];
  }

  /** A hidden channel stays hidden until its user takes it up or away, and in the catalog
      until it is taken up. */
  lemma {:induction false} HiddenUntil(w: World, es: seq<Event>, user: int, channel: int)
    ensures (user, channel) in Run(w, es).t.hidden
      <==> (user, channel) in w.t.hidden && Never(w, es, (x, e) => Touches(x, e, user, channel))
    ensures (user, channel) in Run(w, es).t.catalogHidden
      <==> (user, channel) in w.t.catalogHidden && Never(w, es, (x, e) => TakesUp(x, e, user, channel))
  {
    if es != [] {
      HiddenUntil(w, es[..|es| - 1], user, channel);
      NeverYet(w, es, (x, e) => Touches(x, e, user, channel));
      NeverYet(w, es, (x, e) => TakesUp(x, e, user, channel));
      HideStep(Run(w, es[..|es| - 1]), es[|es| - 1], user, channel);
    }
  }

  lemma HideStep(w: World, e: Event, user: int, channel: int)
    ensures (user, channel) in Step(w, e).t.hidden <==> (user, channel) in w.t.hidden && !Touches(w, e, user, channel)
    ensures (user, channel) in Step(w, e).t.catalogHidden
      <==> (user, channel) in w.t.catalogHidden && !TakesUp(w, e, user, channel)
  {
  }

  // ---- the sweep ------------------------------------------------------------------------

  lemma NoFollowers(t: Tables, channel: int)
    requires Conserved(t)
    ensures RefCount(t, channel) == 0 <==> Followers(t, channel) == {}
  {
    assert RefCount(t, channel) == |Followers(t, channel)|;
  }

  /** An uninterrupted sweep parks exactly the active channels nobody follows. */
  lemma SweepParksUnfollowed(t: Tables, channel: int)
    requires Conserved(t) && channel in t.subs
    ensures var r := Swept(t);
      && r.subs[channel].status == (if t.subs[channel].status == Active && Followers(t, channel) == {} then Dormant
        else t.subs[channel].status)
      && (r.subs[channel].status == Active ==> Followers(r, channel) != {})
  {
    NoFollowers(t, channel);
    assert Followers(Swept(t), channel) == Followers(t, channel);
  }

  /** The channels the rule speaks of. */
  predicate Resting(w: World, c: int) {
    c in w.t.subs && w.t.subs[c].status == Dormant && c !in w.rejoining
  }

  /** A dormant channel has no follower, unless it is just being joined again. */
  ghost predicate DormantUnfollowed(w: World) {
    forall c | Resting(w, c) :: Followers(w.t, c) == {}
  }

  lemma LinkKeepsDormant(w: World, user: int, channel: int, c: int)
    requires DormantUnfollowed(w) && (Direct(w.t, channel) || channel in w.rejoining || c != channel)
    requires Resting(w.(t := Added(w.t, user, channel)), c)
    ensures Followers(Added(w.t, user, channel), c) == {}
  {
    FollowersAdded(w.t, user, channel, c);
  }

  lemma SweepKeepsDormant(w: World, c: int)
    requires Conserved(w.t) && DormantUnfollowed(w) && Resting(w.(t := Swept(w.t)), c)
    ensures Followers(Swept(w.t), c) == {}
  {
    NoFollowers(w.t, c);
    assert Followers(Swept(w.t), c) == Followers(w.t, c);
  }

  lemma StepKeepsDormant(w: World, e: Event)
    requires Conserved(w.t) && DormantUnfollowed(w) && !e.Park?
    ensures DormantUnfollowed(Step(w, e))
  {
    var r := Step(w, e);
    forall c | Resting(r, c) ensures Followers(r.t, c) == {} {
      match e
      case Subscribe(u, d) => if Direct(w.t, d) { LinkKeepsDormant(w, u, d, c); }
      case Unsubscribe(u, d) => FollowersRemoved(w.t, u, d, c);
      case Joined(u, d) => LinkKeepsDormant(w, u, d, c);
      case Backfilled(d) => assert Followers(r.t, c) == Followers(w.t, c);
      case Sweep => SweepKeepsDormant(w, c);
    }
  }

  predicate SweepsWhole(es: seq<Event>) { forall k | 0 <= k < |es| :: !es[k].Park? }

  /** While sweeps are not interrupted, dormant means unfollowed in every reachable
      state, but for channels between their join and their backfill. */
  lemma {:induction false} RunKeepsDormant(es: seq<Event>)
    requires SweepsWhole(es)
    ensures DormantUnfollowed(Run(START, es))
  {
    if es != [] {
      var front := es[..|es| - 1];
      RunKeepsDormant(front);
      RunConserves(front);
      StepKeepsDormant(Run(START, front), es[|es| - 1]);
    }
  }

  /** The update of an interrupted sweep does not look at the count again: it keeps
      the rule exactly when nobody follows the channel at that moment. */
  lemma ParkKeepsDormant(w: World, channel: int)
    requires Conserved(w.t) && DormantUnfollowed(w) && channel in w.t.subs
    ensures DormantUnfollowed(Step(w, Park(channel))) <==> channel in w.rejoining || w.t.subs[channel].refCount == 0
  {
    var r := Step(w, Park(channel));
    NoFollowers(w.t, channel);
    forall c ensures Followers(r.t, c) == Followers(w.t, c) {
    }
    assert channel !in w.rejoining ==> Resting(r, channel);
    assert forall c | Resting(r, c) && c != channel :: Resting(w, c);
  }

  /** So a user who subscribes between a sweep's select and its update ends up
      following a dormant channel. */
  lemma SubscribeDuringSweep(w: World, user: int, channel: int)
    requires Conserved(w.t) && channel in Targets(w.t) && channel !in w.rejoining
    ensures !DormantUnfollowed(Step(Step(w, Subscribe(user, channel)), Park(channel)))
  {
    var mid := Step(w, Subscribe(user, channel));
    var r := Step(mid, Park(channel));
    FollowersAdded(w.t, user, channel, channel);
    assert Followers(r.t, channel) == Followers(mid.t, channel);
    assert user in Followers(mid.t, channel) && Resting(r, channel);
  }
}
