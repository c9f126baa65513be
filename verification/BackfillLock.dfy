/** `channel_backfill_state`: the history cursor and the TTL lock of each channel. */
module BackfillLock {
  import opened Prelude

  datatype State = State(
    fully: bool,
    oldest: Option<int>,
    lastBackfill: Option<int>,
    lockedUntil: Option<int>)

  type States = map<int, State>

  predicate Free(s: State, now: int) {
    s.lockedUntil.None? || s.lockedUntil.value < now
  }

  /** `try_acquire_lock` succeeds on a missing row and on a free one. */
  predicate Grants(states: States, channel: int, now: int) {
    channel in states ==> Free(states[channel], now)
  }

  function Acquired(states: States, channel: int, ttl: int, now: int): States {
    if !Grants(states, channel, now) then states
    else if channel in states then states[channel := states[channel].(lockedUntil := Some(now + ttl))]
    else states[channel := State(false, None, None, Some(now + ttl))]
  }

  function Released(states: States, channel: int, oldest: int, now: int): States {
    if channel !in states then states
    else states[channel := states[channel].(lockedUntil := None, lastBackfill := Some(now), oldest := Some(oldest))]
  }

  function Completed(states: States, channel: int, now: int): States {
    if channel !in states then states
    else states[channel := states[channel].(fully := true, lockedUntil := None, lastBackfill := Some(now))]
  }

  function Deferred(states: States, channel: int, seconds: int, now: int): States {
    if channel !in states then states
    else states[channel := states[channel].(lockedUntil := Some(now + seconds))]
  }

  class StateTable {
    var states: States

    constructor ()
      ensures states == map[]
    {
      states := map[];
    }

    method TryAcquireLock(channel: int, ttl: int, now: int) returns (got: bool)
      modifies this
      ensures got == Grants(old(states), channel, now)
      ensures states == Acquired(old(states), channel, ttl, now)
    {
      var expiry := now + ttl;
      if channel !in states {
        states := states[channel := State(false, None, None, Some(expiry))];
        return true;
      }
      got := Free(states[channel], now);
      if got {
        states := states[channel := states[channel].(lockedUntil := Some(expiry))];
      }
    }

    method ReleaseLock(channel: int, oldest: int, now: int)
      modifies this
      ensures states == Released(old(states), channel, oldest, now)
    {
      if channel in states {
        var s := states[channel];
        states := states[channel := State(s.fully, Some(oldest), Some(now), None)];
      }
    }

    method MarkFullyBackfilled(channel: int, now: int)
      modifies this
      ensures states == Completed(old(states), channel, now)
    {
      if channel in states {
        states := states[channel := State(true, states[channel].oldest, Some(now), None)];
      }
    }

    method DeferAfterFloodWait(channel: int, seconds: int, now: int)
      modifies this
      ensures states == Deferred(old(states), channel, seconds, now)
    {
      if channel in states {
        states := states[channel := states[channel].(lockedUntil := Some(now + seconds))];
      }
    }
  }

  // ---- exclusion ------------------------------------------------------------------

  /** How a pass on a channel ends: its row is released, completed or deferred, or
      the worker dies and touches nothing. */
  datatype Ending = Release(oldest: int) | Complete | Defer(seconds: nat) | Crash

  /** What workers do to one channel, each at a time on one shared clock. */
  datatype Event =
    | Try(time: int, channel: int, pass: int, ttl: nat)
    | End(time: int, channel: int, pass: int, ending: Ending)

  /** A pass under way: its channel, and when its lock runs out. */
  datatype Pass = Pass(channel: int, expiry: int)

  datatype World = World(states: States, passes: map<int, Pass>, clock: int)

  function EndStates(states: States, channel: int, ending: Ending, now: int): States {
    match ending
    case Release(oldest) => Released(states, channel, oldest, now)
    case Complete => Completed(states, channel, now)
    case Defer(seconds) => Deferred(states, channel, seconds, now)
    case Crash => states
  }

  function Step(w: World, e: Event): World {
    match e
    case Try(t, c, p, ttl) =>
      World(Acquired(w.states, c, ttl, t), if Grants(w.states, c, t) then w.passes[p := Pass(c, t + ttl)]
        else w.passes, t)
    case End(t, c, p, ending) =>
      World(EndStates(w.states, c, ending, t), w.passes - {p}, t)
  }

  function Run(w: World, es: seq<Event>): World {
    if es == [] then w else Step(Run(w, es[..|es| - 1]), es[|es| - 1])
  }

  // ---- any passes, however long -----------------------------------------------------

  predicate Ordered(es: seq<Event>) {
    forall i, j | 0 <= i < j < |es| :: es[i].time <= es[j].time
  }

  /** The end of a pass that writes the channel's row. */
  predicate Unlocks(e: Event, channel: int) {
    e.End? && e.channel == channel && !e.ending.Crash?
  }

  predicate LockedTill(states: States, channel: int, until: int) {
    channel in states && states[channel].lockedUntil == Some(until)
  }

  lemma StepKeepsLock(w: World, e: Event, channel: int, until: int)
    requires LockedTill(w.states, channel, until) && e.time <= until && !Unlocks(e, channel)
    ensures LockedTill(Step(w, e).states, channel, until)
  {
  }

  lemma {:induction false} LockStays(w: World, es: seq<Event>, i: nat, j: nat, channel: int, until: int)
    requires i <= j <= |es| && LockedTill(Run(w, es[..i]).states, channel, until)
    requires forall k | i <= k < j :: es[k].time <= until && !Unlocks(es[k], channel)
    ensures LockedTill(Run(w, es[..j]).states, channel, until)
    decreases j
  {
    if j > i {
      LockStays(w, es, i, j - 1, channel, until);
      assert es[..j][..j - 1] == es[..j - 1];
      StepKeepsLock(Run(w, es[..j - 1]), es[j - 1], channel, until);
    }
  }

  /** Two successful acquisitions of a channel's lock are separated by its expiry or by
      the end of a pass on the channel: a release, a completion or a deferral. */
  lemma AcquisitionsAreSeparated(w: World, es: seq<Event>, i: nat, j: nat)
    requires Ordered(es) && i < j < |es|
    requires es[i].Try? && es[j].Try? && es[i].channel == es[j].channel
    requires Grants(Run(w, es[..i]).states, es[i].channel, es[i].time)
    requires Grants(Run(w, es[..j]).states, es[j].channel, es[j].time)
    ensures es[j].time > es[i].time + es[i].ttl || exists k | i < k < j :: Unlocks(es[k], es[i].channel)
  {
    assert es[..i + 1][..i] == es[..i];
    if es[j].time <= es[i].time + es[i].ttl && forall k | i < k < j :: !Unlocks(es[k], es[i].channel) {
      LockStays(w, es, i + 1, j, es[i].channel, es[i].time + es[i].ttl);
    }
  }

  /** After a FloodWait an attempt on the channel succeeds only when the wait is over, or
      after the end of a pass on it. */
  lemma DeferralBlocks(w: World, es: seq<Event>, i: nat, j: nat)
    requires Ordered(es) && i < j < |es|
    requires es[i].End? && es[i].ending.Defer? && es[i].channel in Run(w, es[..i]).states
    requires es[j].Try? && es[j].channel == es[i].channel
    requires Grants(Run(w, es[..j]).states, es[j].channel, es[j].time)
    ensures es[j].time > es[i].time + es[i].ending.seconds || exists k | i < k < j :: Unlocks(es[k], es[i].channel)
  {
    assert es[..i + 1][..i] == es[..i];
    if es[j].time <= es[i].time + es[i].ending.seconds && forall k | i < k < j :: !Unlocks(es[k], es[i].channel) {
      LockStays(w, es, i + 1, j, es[i].channel, es[i].time + es[i].ending.seconds);
    }
  }

  ghost predicate Protects(states: States, channel: int, until: int) {
    forall now | now <= until :: !Grants(states, channel, now)
  }

  /** The end of a pass does not ask whose lock is on the row: it keeps the newest
      pass's lock exactly when it writes another row or none, or defers that far. */
  lemma EndKeepsLock(w: World, e: Event, channel: int, until: int)
    requires LockedTill(w.states, channel, until) && e.End?
    ensures Protects(Step(w, e).states, channel, until)
      <==> !Unlocks(e, channel) || (e.ending.Defer? && e.time + e.ending.seconds >= until)
  {
    var after := Step(w, e).states;
    if Unlocks(e, channel) && e.ending.Defer? && e.time + e.ending.seconds < until {
      assert Grants(after, channel, until);
    } else if Unlocks(e, channel) && !e.ending.Defer? {
      assert Grants(after, channel, until);
    }
  }

  /** So a pass that outlived its TTL frees the lock of its successor when it ends, and
      a third pass starts while the second is well within its own TTL. */
  lemma OverdueReleaseLetsThirdIn(w: World, c: int, p: int, q: int, r: int, ttl: nat, t0: int, t1: int, t2: int,
      t3: int, oldest: int)
    requires Grants(w.states, c, t0) && p != q && q != r && p != r
    requires t0 + ttl < t1 <= t2 <= t3 <= t1 + ttl
    ensures var w2 := Step(Step(w, Try(t0, c, p, ttl)), Try(t1, c, q, ttl));
      var w4 := Step(Step(w2, End(t2, c, p, Release(oldest))), Try(t3, c, r, ttl));
      q in w4.passes && r in w4.passes && w4.passes[q] == Pass(c, t1 + ttl) && w4.passes[r] == Pass(c, t3 + ttl)
  {
  }

  // ---- passes within their TTL ------------------------------------------------------

  /** Workers in order: pass names are new, only a pass under way ends, and no pass
      outlives the TTL it took its lock with. */
  ghost predicate Fair(w: World, e: Event) {
    && w.clock <= e.time
    && (forall p | p in w.passes :: e.time <= w.passes[p].expiry)
    && (e.Try? ==> e.pass !in w.passes)
    && (e.End? ==> e.pass in w.passes && w.passes[e.pass].channel == e.channel)
  }

  ghost predicate FairRun(w: World, es: seq<Event>) {
    es == [] || (FairRun(w, es[..|es| - 1]) && Fair(Run(w, es[..|es| - 1]), es[|es| - 1]))
  }

  /** A channel has at most one pass under way, and its row is locked until that
      pass's time is up. */
  ghost predicate Exclusive(w: World) {
    && (forall p, q | p in w.passes && q in w.passes && w.passes[p].channel == w.passes[q].channel :: p == q)
    && (forall p | p in w.passes ::
          w.passes[p].channel in w.states && w.states[w.passes[p].channel].lockedUntil == Some(w.passes[p].expiry))
  }

  /** The TTL is what keeps a second worker out: while a pass is under way, the lock
      is granted exactly from the moment the pass outlives its TTL. */
  lemma GrantedOnceOverdue(w: World, p: int, now: int)
    requires Exclusive(w) && p in w.passes
    ensures Grants(w.states, w.passes[p].channel, now) <==> w.passes[p].expiry < now
  {
  }

  lemma StepExclusive(w: World, e: Event)
    requires Exclusive(w) && Fair(w, e)
    ensures Exclusive(Step(w, e))
  {
  }

  lemma {:induction false} FairPrefix(w: World, es: seq<Event>, k: nat)
    requires FairRun(w, es) && k <= |es|
    ensures FairRun(w, es[..k])
    ensures k < |es| ==> Fair(Run(w, es[..k]), es[k]) && Run(w, es[..k + 1]) == Step(Run(w, es[..k]), es[k])
    decreases |es|
  {
    var n := |es| - 1;
    if k == |es| {
      assert es[..k] == es;
    } else if k == n {
      assert es[..n + 1] == es;
    } else {
      assert es[..n][..k] == es[..k] && es[..n][..k + 1] == es[..k + 1];
      FairPrefix(w, es[..n], k);
    }
  }

  /** Passes shorter than the TTL never overlap on a channel: at every point of
      every run each channel has at most one. */
  lemma {:induction false} RunExclusive(w: World, es: seq<Event>)
    requires Exclusive(w) && FairRun(w, es)
    ensures Exclusive(Run(w, es))
  {
    if es != [] {
      var n := |es| - 1;
      FairPrefix(w, es, n);
      RunExclusive(w, es[..n]);
      StepExclusive(Run(w, es[..n]), es[n]);
    }
  }

  /** When no pass outlives its TTL, the first of two passes ends before the second
      gets the lock. */
  lemma PunctualPassesAreSeparated(w: World, es: seq<Event>, i: nat, j: nat)
    requires Exclusive(w) && FairRun(w, es) && i < j < |es|
    requires es[i].Try? && es[j].Try? && es[i].channel == es[j].channel
    requires Grants(Run(w, es[..i]).states, es[i].channel, es[i].time)
    requires Grants(Run(w, es[..j]).states, es[j].channel, es[j].time)
    ensures exists k | i < k < j :: es[k].End? && es[k].pass == es[i].pass
  {
    FairPrefix(w, es, j);
    RunExclusive(w, es[..j]);
    if forall k | i < k < j :: !(es[k].End? && es[k].pass == es[i].pass) {
      PassStays(w, es, i, j);
    }
  }

  lemma PassKept(w: World, e: Event, p: int, pass: Pass)
    requires Fair(w, e) && p in w.passes && w.passes[p] == pass
    requires !(e.End? && e.pass == p)
    ensures var r := Step(w, e); p in r.passes && r.passes[p] == pass
  {
  }

  lemma {:induction false} PassStays(w: World, es: seq<Event>, i: nat, j: nat)
    requires FairRun(w, es) && i < j <= |es| && es[i].Try?
    requires Grants(Run(w, es[..i]).states, es[i].channel, es[i].time)
    requires forall k | i < k < j :: !(es[k].End? && es[k].pass == es[i].pass)
    ensures var r := Run(w, es[..j]);
      es[i].pass in r.passes && r.passes[es[i].pass] == Pass(es[i].channel, es[i].time + es[i].ttl)
    decreases j
  {
    FairPrefix(w, es, j - 1);
    if j > i + 1 {
      PassStays(w, es, i, j - 1);
      PassKept(Run(w, es[..j - 1]), es[j - 1], es[i].pass, Pass(es[i].channel, es[i].time + es[i].ttl));
    }
  }

  /** The channel is locked until `until`, with no pass under way. */
  ghost predicate Waiting(w: World, channel: int, until: int) {
    && channel in w.states && w.states[channel].lockedUntil == Some(until)
    && (forall p | p in w.passes :: w.passes[p].channel != channel)
  }

  lemma DeferralWaits(w: World, e: Event)
    requires Exclusive(w) && Fair(w, e) && e.End? && e.ending.Defer?
    ensures Waiting(Step(w, e), e.channel, e.time + e.ending.seconds)
  {
  }

  lemma WaitingKept(w: World, e: Event, channel: int, until: int)
    requires Fair(w, e) && Waiting(w, channel, until) && e.time <= until
    ensures Waiting(Step(w, e), channel, until)
  {
  }

  lemma {:induction false} StaysWaiting(w: World, es: seq<Event>, i: nat, j: nat, channel: int, until: int)
    requires FairRun(w, es) && i <= j < |es| && es[j].time <= until
    requires Waiting(Run(w, es[..i]), channel, until)
    ensures Waiting(Run(w, es[..j]), channel, until)
    decreases j
  {
    if j > i {
      FairPrefix(w, es, j - 1);
      FairPrefix(w, es, j);
      StaysWaiting(w, es, i, j - 1, channel, until);
      WaitingKept(Run(w, es[..j - 1]), es[j - 1], channel, until);
    }
  }

  /** When no pass outlives its TTL, no attempt after a FloodWait succeeds until the
      wait is over. */
  lemma PunctualDeferralBlocks(w: World, es: seq<Event>, i: nat, j: nat)
    requires Exclusive(w) && FairRun(w, es) && i < j < |es|
    requires es[i].End? && es[i].ending.Defer?
    requires es[j].Try? && es[j].channel == es[i].channel && es[j].time <= es[i].time + es[i].ending.seconds
    ensures !Grants(Run(w, es[..j]).states, es[j].channel, es[j].time)
  {
    FairPrefix(w, es, i);
    RunExclusive(w, es[..i]);
    DeferralWaits(Run(w, es[..i]), es[i]);
    StaysWaiting(w, es, i + 1, j, es[i].channel, es[i].time + es[i].ending.seconds);
  }
}
