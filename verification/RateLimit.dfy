/** The sliding-window limiter: a pruned, expiring sorted set that decides as if it
    kept the whole history. */
module RateLimit {
  import opened Prelude

  /** One key of the store: a sorted set from member to score (milliseconds), and
      when the key expires. */
  datatype Key = Key(scores: map<string, nat>, expiry: Option<nat>)

  const EMPTY := Key(map[], None)

  datatype Rule = Rule(limit: int, windowSeconds: nat) {
    function WindowMs(): nat { windowSeconds * 1000 }
  }

  datatype Request = Request(now: nat, member: string)

  /** ZREMRANGEBYSCORE 0 cutoff. */
  function Pruned(scores: map<string, nat>, cutoff: int): map<string, nat> {
    map m | m in scores && scores[m] > cutoff :: scores[m]
  }

  /** The key as a command finds it: gone once its time is over, and gone when empty. */
  function Live(k: Key, now: nat): Key {
    if k.expiry.Some? && now > k.expiry.value then EMPTY else k
  }

  function Kept(k: Key, rule: Rule, now: nat): Key {
    var live := Live(k, now);
    var left := Pruned(live.scores, now - rule.WindowMs());
    if left == map[] then EMPTY else live.(scores := left)
  }

  predicate Allows(k: Key, rule: Rule, now: nat) { |Kept(k, rule, now).scores| < rule.limit }

  function Checked(k: Key, rule: Rule, r: Request): Key {
    var kept := Kept(k, rule, r.now);
    if |kept.scores| < rule.limit then
      Key(kept.scores[r.member := r.now], Some(r.now + (rule.windowSeconds + 1) * 1000))
    else kept
  }

  class SortedSet {
    var scores: map<string, nat>
    var expiry: Option<nat>

    function View(): Key
      reads this
    {
      Key(scores, expiry)
    }

    constructor ()
      ensures View() == EMPTY
    {
      scores, expiry := map[], None;
    }

    /** The Lua script, run atomically. */
    method CheckAndRegister(rule: Rule, r: Request) returns (allowed: bool)
      modifies this
      ensures allowed == Allows(old(View()), rule, r.now)
      ensures View() == Checked(old(View()), rule, r)
    {
      ghost var live := Live(View(), r.now);
      if expiry.Some? && r.now > expiry.value {
        scores, expiry := map[], None;
      }
      var cutoff := r.now - rule.windowSeconds * 1000;
      scores := map m | m in scores && !(0 <= scores[m] <= cutoff) :: scores[m];
      assert scores == Pruned(live.scores, cutoff);
      if scores == map[] {
        expiry := None;
      }
      assert View() == Kept(old(View()), rule, r.now);
      var count := |scores|;
      if count >= rule.limit {
        return false;
      }
      scores := scores[r.member := r.now];
      expiry := Some(r.now + (rule.windowSeconds + 1) * 1000);
      allowed := true;
    }
  }

  // ---- the full history -----------------------------------------------------------------

  /** How many requests of a history came after `lo` and not after `hi`. */
  function Count(log: seq<Request>, lo: int, hi: int): nat {
    if log == [] then 0
    else Count(log[..|log| - 1], lo, hi) + if lo < log[|log| - 1].now <= hi then 1 else 0
  }

  /** Fewer than `limit` passed in the window that ends with the request. */
  predicate Fits(rule: Rule, log: seq<Request>, r: Request) {
    Count(log, r.now - rule.WindowMs(), r.now) < rule.limit
  }

  function Admit(rule: Rule, log: seq<Request>, r: Request): seq<Request> {
    if Fits(rule, log, r) then log + [r] else log
  }

  /** The requests a limiter without pruning or expiry lets through. */
  function Passed(rule: Rule, rs: seq<Request>): seq<Request> {
    if rs == [] then [] else Admit(rule, Passed(rule, rs[..|rs| - 1]), rs[|rs| - 1])
  }

  function Run(rule: Rule, rs: seq<Request>): Key {
    if rs == [] then EMPTY else Checked(Run(rule, rs[..|rs| - 1]), rule, rs[|rs| - 1])
  }

  /** What the limiter answers to a run's last request. */
  predicate Allowed(rule: Rule, rs: seq<Request>)
    requires rs != []
  {
    Allows(Run(rule, rs[..|rs| - 1]), rule, rs[|rs| - 1].now)
  }

  /** A clock that does not run backwards, and a member of its own for each request. */
  predicate InOrder(rs: seq<Request>) {
    forall i, j | 0 <= i < j < |rs| :: rs[i].now <= rs[j].now && rs[i].member != rs[j].member
  }

  // ---- refinement -----------------------------------------------------------------------

  /** The part of a history that the set still holds after pruning at `lo`. */
  function Since(log: seq<Request>, lo: int): map<string, nat> {
    if log == [] then map[]
    else
      var r, front := log[|log| - 1], Since(log[..|log| - 1], lo);
      if r.now > lo then front[r.member := r.now] else front
  }

  predicate NotIn(log: seq<Request>, member: string) {
    forall i | 0 <= i < |log| :: log[i].member != member
  }

  lemma {:induction false} SinceMembers(log: seq<Request>, lo: int, m: string)
    requires NotIn(log, m)
    ensures m !in Since(log, lo)
  {
    if log != [] {
      SinceMembers(log[..|log| - 1], lo, m);
    }
  }

  lemma {:induction false} SinceCount(log: seq<Request>, lo: int, hi: int)
    requires InOrder(log) && forall i | 0 <= i < |log| :: log[i].now <= hi
    ensures |Since(log, lo)| == Count(log, lo, hi)
  {
    if log != [] {
      SinceCount(log[..|log| - 1], lo, hi);
      SinceMembers(log[..|log| - 1], lo, log[|log| - 1].member);
    }
  }

  lemma {:induction false} NoneSince(log: seq<Request>, lo: int)
    requires forall i | 0 <= i < |log| :: log[i].now <= lo
    ensures Since(log, lo) == map[]
  {
    if log != [] {
      NoneSince(log[..|log| - 1], lo);
    }
  }

  /** Pruned anywhere from `lo` on, the set is what is left of the history. */
  ghost predicate Agrees(scores: map<string, nat>, log: seq<Request>, lo: int) {
    forall c: int | c >= lo :: Pruned(scores, c) == Since(log, c)
  }

  /** The set agrees with the history on the window, and the key outlives everything
      in it. */
  ghost predicate Holds(k: Key, rule: Rule, log: seq<Request>, now: int) {
    && InOrder(log) && (forall i | 0 <= i < |log| :: log[i].now <= now)
    && Agrees(k.scores, log, now - rule.WindowMs())
    && (k.expiry.Some? ==> forall i | 0 <= i < |log| :: log[i].now + (rule.windowSeconds + 1) * 1000 <= k.expiry.value)
  }

  /** Neither pruning nor expiry forgets a request that still counts. */
  lemma KeptHolds(k: Key, rule: Rule, log: seq<Request>, before: int, now: nat)
    requires Holds(k, rule, log, before) && before <= now
    ensures Kept(k, rule, now).scores == Since(log, now - rule.WindowMs())
    ensures Holds(Kept(k, rule, now), rule, log, now)
  {
    var cutoff, kept := now - rule.WindowMs(), Kept(k, rule, now);
    if Live(k, now) != k {
      forall c: int | c >= cutoff ensures Since(log, c) == map[] {
        NoneSince(log, c);
      }
    } else {
      forall c: int | c >= cutoff ensures Pruned(kept.scores, c) == Since(log, c) {
        assert Pruned(k.scores, c) == Pruned(Pruned(k.scores, cutoff), c);
      }
    }
  }

  lemma AddHolds(k: Key, rule: Rule, log: seq<Request>, r: Request)
    requires Holds(k, rule, log, r.now)
    requires NotIn(log, r.member)
    ensures Holds(Key(k.scores[r.member := r.now], Some(r.now + (rule.windowSeconds + 1) * 1000)), rule, log + [r],
      r.now)
  {
    assert (log + [r])[..|log|] == log;
    forall c: int | c >= r.now - rule.WindowMs()
      ensures Pruned(k.scores[r.member := r.now], c) == Since(log + [r], c)
    {
      SinceMembers(log, c, r.member);
      assert Pruned(k.scores, c) == Since(log, c);
    }
  }

  lemma Decides(k: Key, rule: Rule, log: seq<Request>, before: int, r: Request)
    requires Holds(k, rule, log, before) && before <= r.now
    ensures Allows(k, rule, r.now) <==> Fits(rule, log, r)
  {
    KeptHolds(k, rule, log, before, r.now);
    SinceCount(log, r.now - rule.WindowMs(), r.now);
  }

  lemma CheckedHolds(k: Key, rule: Rule, log: seq<Request>, before: int, r: Request)
    requires Holds(k, rule, log, before) && before <= r.now
    requires NotIn(log, r.member)
    ensures Allows(k, rule, r.now) ==> Holds(Checked(k, rule, r), rule, log + [r], r.now)
    ensures !Allows(k, rule, r.now) ==> Holds(Checked(k, rule, r), rule, log, r.now)
  {
    KeptHolds(k, rule, log, before, r.now);
    AddHolds(Kept(k, rule, r.now), rule, log, r);
  }

  lemma {:induction false} PassedAreRequests(rule: Rule, rs: seq<Request>, i: nat) returns (j: nat)
    requires i < |Passed(rule, rs)|
    ensures j < |rs| && rs[j] == Passed(rule, rs)[i]
  {
    var front := rs[..|rs| - 1];
    if i < |Passed(rule, front)| {
      j := PassedAreRequests(rule, front, i);
    } else {
      j := |rs| - 1;
    }
  }

  function Clock(rs: seq<Request>): nat { if rs == [] then 0 else rs[|rs| - 1].now }

  lemma NewMember(rule: Rule, rs: seq<Request>)
    requires InOrder(rs) && rs != []
    ensures NotIn(Passed(rule, rs[..|rs| - 1]), rs[|rs| - 1].member)
  {
    var front := rs[..|rs| - 1];
    var log := Passed(rule, front);
    forall i | 0 <= i < |log| ensures log[i].member != rs[|rs| - 1].member {
      var j := PassedAreRequests(rule, front, i);
    }
  }

  lemma {:induction false} RunHolds(rule: Rule, rs: seq<Request>)
    requires InOrder(rs)
    ensures Holds(Run(rule, rs), rule, Passed(rule, rs), Clock(rs))
  {
    if rs != [] {
      var front, r := rs[..|rs| - 1], rs[|rs| - 1];
      var k, log := Run(rule, front), Passed(rule, front);
      RunHolds(rule, front);
      NewMember(rule, rs);
      var before := Clock(front);
      assert before <= r.now;
      assert Run(rule, rs) == Checked(k, rule, r);
      Decides(k, rule, log, before, r);
      CheckedHolds(k, rule, log, before, r);
    }
  }

  /** The limiter accepts a request exactly when fewer than `limit` of the requests it
      accepted before lie in the window that ends with it. */
  lemma AcceptsByHistory(rule: Rule, rs: seq<Request>)
    requires InOrder(rs) && rs != []
    ensures var log, now := Passed(rule, rs[..|rs| - 1]), rs[|rs| - 1].now;
      Allowed(rule, rs) <==> Count(log, now - rule.WindowMs(), now) < rule.limit
  {
    var front := rs[..|rs| - 1];
    RunHolds(rule, front);
    Decides(Run(rule, front), rule, Passed(rule, front), Clock(front), rs[|rs| - 1]);
  }

  // ---- the guarantee --------------------------------------------------------------------

  lemma {:induction false} CountMonotone(log: seq<Request>, lo: int, hi: int, lo': int, hi': int)
    requires lo' <= lo && forall i | 0 <= i < |log| :: log[i].now <= hi'
    ensures Count(log, lo, hi) <= Count(log, lo', hi')
  {
    if log != [] {
      CountMonotone(log[..|log| - 1], lo, hi, lo', hi');
    }
  }

  /** At most `limit` requests of a history in an interval as long as the window. */
  predicate Bounded(rule: Rule, log: seq<Request>, x: int) {
    Count(log, x, x + rule.WindowMs()) <= if rule.limit < 0 then 0 else rule.limit
  }

  lemma CountAdd(log: seq<Request>, r: Request, lo: int, hi: int)
    ensures Count(log + [r], lo, hi) == Count(log, lo, hi) + if lo < r.now <= hi then 1 else 0
  {
    assert (log + [r])[..|log|] == log;
  }

  lemma AdmitBounded(rule: Rule, log: seq<Request>, r: Request, x: int)
    requires Bounded(rule, log, x) && forall i | 0 <= i < |log| :: log[i].now <= r.now
    ensures Bounded(rule, Admit(rule, log, r), x)
  {
    var w := rule.WindowMs();
    CountAdd(log, r, x, x + w);
    if x < r.now <= x + w {
      CountMonotone(log, x, x + w, r.now - w, r.now);
    }
  }

  /** Over any run no interval as long as the window, wherever it starts, sees more
      than `limit` requests accepted. */
  lemma {:induction false} WindowBound(rule: Rule, rs: seq<Request>, x: int)
    requires InOrder(rs)
    ensures Bounded(rule, Passed(rule, rs), x)
  {
    if rs != [] {
      var front, r := rs[..|rs| - 1], rs[|rs| - 1];
      var log := Passed(rule, front);
      WindowBound(rule, front, x);
      forall i | 0 <= i < |log| ensures log[i].now <= r.now {
        var j := PassedAreRequests(rule, front, i);
      }
      AdmitBounded(rule, log, r, x);
    }
  }
}
