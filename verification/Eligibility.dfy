/** `select_eligible_channels`: what its joins and its HAVING clause say. */
module Eligibility {
  import opened Prelude
  import opened BackfillLock

  datatype Source = Source(user: int, channel: int)

  datatype Read = Read(user: int, post: int)

  datatype PostRow = PostRow(channel: int, msgId: int)

  datatype Tables = Tables(
    banned: map<int, bool>,
    status: map<int, string>,
    posts: map<int, PostRow>,
    sources: set<Source>,
    readPosts: set<Read>,
    states: States)

  function PostsOf(t: Tables, channel: int): set<int> {
    set p | p in t.posts && t.posts[p].channel == channel
  }

  // ---- the query --------------------------------------------------------------------

  /** A row of the `read_counts` subquery. */
  datatype ReadCount = ReadCount(user: int, channel: int, readN: nat)

  /** The joined rows behind one of its groups: posts of the channel the user read. */
  function ReadRows(t: Tables, s: Source): set<int> {
    set p | p in PostsOf(t, s.channel) && Read(s.user, p) in t.readPosts
  }

  /** An inner join: a follower who has read nothing has no row. */
  function ReadCounts(t: Tables): set<ReadCount> {
    set s | s in t.sources && ReadRows(t, s) != {} :: ReadCount(s.user, s.channel, |ReadRows(t, s)|)
  }

  function CountsOf(t: Tables, channel: int): set<ReadCount> {
    set rc | rc in ReadCounts(t) && rc.channel == channel
  }

  /** A row of the outer join, for a channel: every post is repeated for every read
      count, or once with nulls when there is none. */
  datatype JoinRow = JoinRow(post: int, count: Option<ReadCount>)

  function JoinRows(t: Tables, channel: int): set<JoinRow> {
    if CountsOf(t, channel) == {} then set p | p in PostsOf(t, channel) :: JoinRow(p, None)
    else set p, rc | p in PostsOf(t, channel) && rc in CountsOf(t, channel) :: JoinRow(p, Some(rc))
  }

  /** `count(distinct(Post.id))`. */
  function CountDistinct(rows: set<JoinRow>): nat {
    |set r | r in rows :: r.post|
  }

  function Counts(rows: set<JoinRow>): set<int> {
    set r | r in rows && r.count.Some? :: r.count.value.readN
  }

  /** `min_unread`. */
  function MinUnread(t: Tables, channel: int): int {
    var rows := JoinRows(t, channel);
    CountDistinct(rows) - (if Counts(rows) == {} then 0 else Max(Counts(rows)))
  }

  predicate HasFollower(t: Tables, channel: int) {
    exists s | s in t.sources :: s.channel == channel
  }

  /** The WHERE and HAVING clauses, with the inner joins on posts and subscription. */
  predicate Selects(t: Tables, channel: int, threshold: int, now: int) {
    && channel in t.banned && !t.banned[channel]
    && channel in t.status && t.status[channel] == "active"
    && PostsOf(t, channel) != {}
    && (channel in t.states ==> !t.states[channel].fully && Free(t.states[channel], now))
    && HasFollower(t, channel)
    && MinUnread(t, channel) <= threshold
  }

  // ---- what it means ------------------------------------------------------------------

  function Followers(t: Tables, channel: int): set<int> {
    set s | s in t.sources && s.channel == channel :: s.user
  }

  function Unread(t: Tables, user: int, channel: int): set<int> {
    set p | p in PostsOf(t, channel) && Read(user, p) !in t.readPosts
  }

  lemma UnreadCount(t: Tables, user: int, channel: int)
    ensures |Unread(t, user, channel)| == |PostsOf(t, channel)| - |ReadRows(t, Source(user, channel))|
  {
    var read := ReadRows(t, Source(user, channel));
    assert PostsOf(t, channel) == Unread(t, user, channel) + read;
    assert Unread(t, user, channel) !! read;
  }

  lemma JoinPosts(t: Tables, channel: int, p: int)
    requires p in PostsOf(t, channel)
    ensures exists r | r in JoinRows(t, channel) :: r.post == p
  {
    var counts := CountsOf(t, channel);
    if counts == {} {
      assert JoinRow(p, None) in JoinRows(t, channel);
    } else {
      assert JoinRow(p, Some(Any(counts))) in JoinRows(t, channel);
    }
  }

  lemma DistinctPosts(t: Tables, channel: int)
    ensures CountDistinct(JoinRows(t, channel)) == |PostsOf(t, channel)|
  {
    var joined := set r | r in JoinRows(t, channel) :: r.post;
    forall p | p in PostsOf(t, channel) ensures p in joined {
      JoinPosts(t, channel, p);
    }
    assert joined == PostsOf(t, channel);
  }

  /** The fan-out of the joins changes neither aggregate. */
  lemma JoinAggregates(t: Tables, channel: int)
    requires PostsOf(t, channel) != {}
    ensures CountDistinct(JoinRows(t, channel)) == |PostsOf(t, channel)|
    ensures Counts(JoinRows(t, channel)) == set rc | rc in CountsOf(t, channel) :: rc.readN
  {
    DistinctPosts(t, channel);
    var p := Any(PostsOf(t, channel));
    forall rc | rc in CountsOf(t, channel) ensures rc.readN in Counts(JoinRows(t, channel)) {
      assert JoinRow(p, Some(rc)) in JoinRows(t, channel);
    }
  }

  lemma CountOfFollower(t: Tables, user: int, channel: int)
    requires Source(user, channel) in t.sources
    ensures ReadRows(t, Source(user, channel)) != {}
            ==> ReadCount(user, channel, |ReadRows(t, Source(user, channel))|) in CountsOf(t, channel)
  {
  }

  /** `min_unread` is the least number of unread posts over the channel's followers,
      those who have read nothing included. */
  lemma MinUnreadIsMinimum(t: Tables, channel: int)
    requires PostsOf(t, channel) != {} && HasFollower(t, channel)
    ensures exists u | u in Followers(t, channel) :: |Unread(t, u, channel)| == MinUnread(t, channel)
    ensures forall u | u in Followers(t, channel) :: MinUnread(t, channel) <= |Unread(t, u, channel)|
  {
    var counts := Counts(JoinRows(t, channel));
    JoinAggregates(t, channel);
    forall u | u in Followers(t, channel)
      ensures MinUnread(t, channel) <= |Unread(t, u, channel)|
    {
      UnreadCount(t, u, channel);
      CountOfFollower(t, u, channel);
      if ReadRows(t, Source(u, channel)) != {} {
        assert |ReadRows(t, Source(u, channel))| in counts;
      }
    }
    if counts == {} {
      var s :| s in t.sources && s.channel == channel;
      assert s == Source(s.user, channel);
      assert s.user in Followers(t, channel);
      UnreadCount(t, s.user, channel);
      CountOfFollower(t, s.user, channel);
      assert ReadRows(t, s) != {} ==> |ReadRows(t, s)| in counts;
    } else {
      var rc :| rc in CountsOf(t, channel) && rc.readN == Max(counts);
      UnreadCount(t, rc.user, channel);
      assert rc.user in Followers(t, channel);
    }
  }

  /** The query selects exactly the active, unbanned, unfinished, unlocked channels
      with a post and with a follower who has at most `threshold` posts unread. */
  lemma SelectsNearlyCaughtUp(t: Tables, channel: int, threshold: int, now: int)
    ensures Selects(t, channel, threshold, now) <==>
      && channel in t.banned && !t.banned[channel]
      && channel in t.status && t.status[channel] == "active"
      && PostsOf(t, channel) != {}
      && (channel in t.states ==> !t.states[channel].fully)
      && Grants(t.states, channel, now)
      && exists u | u in Followers(t, channel) :: |Unread(t, u, channel)| <= threshold
  {
    if PostsOf(t, channel) != {} {
      if HasFollower(t, channel) {
        MinUnreadIsMinimum(t, channel);
      } else {
        assert Followers(t, channel) == {};
      }
    }
  }
}
