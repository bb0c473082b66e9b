/** Channels: the posts of a channel form a list that is linked backwards, and are read in pages,
    newest first. */
module Channel {
  import opened Wrappers
  import GroupState

  type ChannelId = Bytes

  type PostId = Bytes

  type PublicKey = Bytes

  datatype Post = Post(id: PostId, channel: ChannelId, author: PublicKey, timestamp: nat, content: Bytes,
                       previous: Option<PostId>)

  datatype State = State(
    id: ChannelId, name: Bytes, description: Bytes, kind: GroupState.Kind, owner: PublicKey,
    createdAt: nat, updatedAt: nat, latest: Option<PostId>, subscribers: nat)

  datatype Error = InvalidChannelType | ChannelNotFound | NotChannelOwner

  type Posts = map<PostId, Post>

  datatype View = View(channels: map<ChannelId, State>, posts: map<ChannelId, Posts>)

  // ---------------------------------------------------------------- creating

  function CreateChannel(me: PublicKey, s: View, id: ChannelId, name: Bytes, description: Bytes, kind: GroupState.Kind,
                         now: nat)
    : Result<View, Error>
  {
    if !kind.PrivateChannel? && !kind.PublicChannel? then Failure(InvalidChannelType)
    else Success(View(s.channels[id := State(id, name, description, kind, me, now, now, None, 0)],
                      s.posts[id := map[]]))
  }

  function PostsOf(s: View, id: ChannelId): Posts {
    if id in s.posts then s.posts[id] else map[]
  }

  function CreatePost(me: PublicKey, s: View, id: ChannelId, content: Bytes, post: PostId, now: nat)
    : Result<View, Error>
  {
    if id !in s.channels then Failure(ChannelNotFound)
    else
      var c := s.channels[id];
      if c.kind.PrivateChannel? && c.owner != me then Failure(NotChannelOwner)
      else
        var subscribers := if c.kind.PublicChannel? then c.subscribers + 1 else c.subscribers;
        Success(View(s.channels[id := c.(latest := Some(post), updatedAt := now, subscribers := subscribers)],
                     s.posts[id := PostsOf(s, id)[post := Post(post, id, me, now, content, c.latest)]]))
  }

  // ---------------------------------------------------------------- reading

  predicate Descending(posts: seq<Post>) {
    forall j, k | 0 <= j < k < |posts| :: posts[j].timestamp >= posts[k].timestamp
  }

  /** The posts, newest first. */
  ghost predicate IsOrder(order: seq<Post>, posts: Posts) {
    Descending(order) && multiset(order) == multiset(posts.Values)
  }

  /** `limit` posts after the first `offset`; without a positive limit, all of them. */
  function Page(posts: seq<Post>, limit: int, offset: nat): seq<Post> {
    if offset >= |posts| then []
    else if 0 < limit < |posts| - offset then posts[offset..offset + limit]
    else posts[offset..]
  }

  class ChannelService {
    const me: PublicKey
    var channels: map<ChannelId, State>
    var posts: map<ChannelId, Posts>

    ghost function Now(): View
      reads this
    {
      View(channels, posts)
    }

    /** Posts are filed under their identifier. */
    ghost predicate Valid()
      reads this
    {
      forall id, p | id in posts && p in posts[id] :: posts[id][p].id == p
    }

    constructor (me: PublicKey)
      ensures this.me == me && Valid() && Now() == View(map[], map[])
    {
      this.me, channels, posts := me, map[], map[];
    }

    method NewChannel(id: ChannelId, name: Bytes, description: Bytes, kind: GroupState.Kind, now: nat)
      returns (r: Result<State, Error>)
      requires Valid()
      modifies this
      ensures Valid()
      ensures match CreateChannel(me, old(Now()), id, name, description, kind, now)
              case Success(s) => Now() == s && r == Success(s.channels[id])
              case Failure(e) => Now() == old(Now()) && r == Failure(e)
    {
      if kind != GroupState.PrivateChannel && kind != GroupState.PublicChannel {
        return Failure(InvalidChannelType);
      }
      var state := State(id, name, description, kind, me, now, now, None, 0);
      channels := channels[id := state];
      posts := posts[id := map[]];
      return Success(state);
    }

    method NewPost(id: ChannelId, content: Bytes, postId: PostId, now: nat) returns (r: Result<Post, Error>)
      requires Valid()
      modifies this
      ensures Valid()
      ensures match CreatePost(me, old(Now()), id, content, postId, now)
              case Success(s) => Now() == s && r == Success(s.posts[id][postId])
              case Failure(e) => Now() == old(Now()) && r == Failure(e)
    {
      if id !in channels {
        return Failure(ChannelNotFound);
      }
      var state := channels[id];
      if state.kind.PrivateChannel? && state.owner != me {
        return Failure(NotChannelOwner);
      }
      var post := Post(postId, id, me, now, content, state.latest);
      state := state.(latest := Some(postId), updatedAt := now);
      if id !in posts {
        posts := posts[id := map[]];
      }
      assert posts[id] == PostsOf(old(Now()), id) && forall p | p in posts[id] :: posts[id][p].id == p;
      posts := posts[id := posts[id][postId := post]];
      assert Valid();
      assert posts == old(posts)[id := PostsOf(old(Now()), id)[postId := post]];
      if state.kind.PublicChannel? {
        state := state.(subscribers := state.subscribers + 1);
      }
      channels := channels[id := state];
      return Success(post);
    }

    method GetPosts(id: ChannelId, limit: int, offset: nat) returns (page: seq<Post>)
      requires Valid()
      ensures exists order :: IsOrder(order, PostsOf(Now(), id)) && page == Page(order, limit, offset)
    {
      if id !in posts {
        assert IsOrder([], PostsOf(Now(), id)) && Page([], limit, offset) == [];
        return [];
      }
      var list := ListPosts(posts[id]);
      ghost var order := list[..];
      assert IsOrder(order, PostsOf(Now(), id));
      page := list[..];
      if offset >= |page| {
        return [];
      }
      page := page[offset..];
      if limit > 0 && |page| > limit {
        page := page[..limit];
      }
      assert page == Page(order, limit, offset);
    }
  }

  /** Collects the posts in some order and sorts them. */
  method ListPosts(posts: Posts) returns (list: array<Post>)
    requires forall p | p in posts :: posts[p].id == p
    ensures fresh(list) && Descending(list[..]) && multiset(list[..]) == multiset(posts.Values)
  {
    var collected: seq<Post> := [];
    var rest := posts.Keys;
    while rest != {}
      invariant rest <= posts.Keys
      invariant multiset(collected) == multiset(set p | p in posts && p !in rest :: posts[p])
      decreases |rest|
    {
      var p :| p in rest;
      assert (set q | q in posts && q !in rest - {p} :: posts[q])
             == (set q | q in posts && q !in rest :: posts[q]) + {posts[p]};
      assert posts[p] !in set q | q in posts && q !in rest :: posts[q];
      collected := collected + [posts[p]];
      rest := rest - {p};
    }
    assert (set p | p in posts && p !in rest :: posts[p]) == posts.Values;
    list := new Post[|collected|](i requires 0 <= i < |collected| => collected[i]);
    assert list[..] == collected;
    SortByTimestamp(list);
  }

  /** Positions below `i` hold the latest posts in order. */
  ghost predicate SortedUpTo(posts: seq<Post>, i: int) {
    forall j, k | 0 <= j < k < |posts| && j < i :: posts[j].timestamp >= posts[k].timestamp
  }

  method SortByTimestamp(a: array<Post>)
    modifies a
    ensures Descending(a[..]) && multiset(a[..]) == multiset(old(a[..]))
  {
    var i := 0;
    while i < a.Length - 1
      invariant 0 <= i && SortedUpTo(a[..], i) && multiset(a[..]) == multiset(old(a[..]))
    {
      var j := i + 1;
      while j < a.Length
        invariant i < j <= a.Length
        invariant SortedUpTo(a[..], i) && multiset(a[..]) == multiset(old(a[..]))
        invariant forall k | i < k < j :: a[i].timestamp >= a[k].timestamp
      {
        if a[i].timestamp < a[j].timestamp {
          Exchange(a, i, j);
        }
        j := j + 1;
      }
      i := i + 1;
    }
  }

  method Exchange(a: array<Post>, i: nat, j: nat)
    requires i < j < a.Length && SortedUpTo(a[..], i)
    modifies a
    ensures a[i] == old(a[j]) && a[j] == old(a[i])
    ensures forall k | 0 <= k < a.Length && k != i && k != j :: a[k] == old(a[k])
    ensures SortedUpTo(a[..], i) && multiset(a[..]) == multiset(old(a[..]))
  {
    a[i], a[j] := a[j], a[i];
  }

  // ---------------------------------------------------------------- the linked list

  /** The identifiers on the way from a post back to the end; none if the way leaves the posts or
      returns to a post. */
  function Walk(posts: Posts, at: Option<PostId>): Option<seq<PostId>>
    decreases |posts|
  {
    match at
    case None => Some([])
    case Some(p) =>
      if p !in posts then None
      else
        assert |(posts - {p}).Keys| == |posts - {p}| && (posts - {p}).Keys == posts.Keys - {p};
        match Walk(posts - {p}, posts[p].previous)
        case None => None
        case Some(ids) => Some([p] + ids)
  }

  function Reversed(ids: seq<PostId>): (r: seq<PostId>)
    ensures |r| == |ids| && forall k | 0 <= k < |ids| :: r[k] == ids[|ids| - 1 - k]
  {
    if ids == [] then [] else [ids[|ids| - 1]] + Reversed(ids[..|ids| - 1])
  }

  function Latest(made: seq<PostId>): Option<PostId> {
    Before(made, |made|)
  }

  /** The post that was the latest when the k-th one was made. */
  function Before(made: seq<PostId>, k: nat): Option<PostId>
    requires k <= |made|
  {
    if k == 0 then None else Some(made[k - 1])
  }

  predicate NoRepeats(made: seq<PostId>) {
    forall j, k | 0 <= j < k < |made| :: made[j] != made[k]
  }

  predicate Link(posts: Posts, made: seq<PostId>, k: nat)
    requires k < |made|
  {
    made[k] in posts && posts[made[k]].id == made[k] && posts[made[k]].previous == Before(made, k)
  }

  /** The posts were made in this order, each linked to the one before it. */
  ghost predicate Linked(posts: Posts, made: seq<PostId>) {
    && NoRepeats(made) && (forall p | p in posts :: p in made)
    && (forall k | 0 <= k < |made| :: Link(posts, made, k))
  }

  lemma {:induction false} WalkLinked(posts: Posts, made: seq<PostId>)
    requires Linked(posts, made)
    ensures Walk(posts, Latest(made)) == Some(Reversed(made))
    decreases |made|
  {
    if made != [] {
      var n := |made| - 1;
      LinkedLess(posts, made);
      WalkLinked(posts - {made[n]}, made[..n]);
      assert Before(made, n) == Latest(made[..n]);
    }
  }

  lemma LinkedLess(posts: Posts, made: seq<PostId>)
    requires Linked(posts, made) && made != []
    ensures Linked(posts - {made[|made| - 1]}, made[..|made| - 1])
    ensures Link(posts, made, |made| - 1)
  {
    var n := |made| - 1;
    var front, rest := made[..n], posts - {made[n]};
    assert made == front + [made[n]];
    forall k | 0 <= k < n
      ensures Link(rest, front, k)
    {
      assert Link(posts, made, k) && Before(front, k) == Before(made, k);
    }
  }

  datatype Op =
    | Channel(id: ChannelId, name: Bytes, description: Bytes, kind: GroupState.Kind)
    | NewPost(id: ChannelId, content: Bytes, post: PostId)

  datatype Timed = Timed(op: Op, now: nat)

  /** The service, and the posts of each channel in the order in which they were made. */
  datatype Log = Log(view: View, made: map<ChannelId, seq<PostId>>)

  const START := Log(View(map[], map[]), map[])

  function Step(me: PublicKey, log: Log, e: Timed): Log {
    match e.op
    case Channel(id, name, description, kind) =>
      (match CreateChannel(me, log.view, id, name, description, kind, e.now)
       case Failure(_) => log
       case Success(view) => Log(view, log.made[id := []]))
    case NewPost(id, content, post) =>
      (match CreatePost(me, log.view, id, content, post, e.now)
       case Failure(_) => log
       case Success(view) => Log(view, log.made[id := (if id in log.made then log.made[id] else []) + [post]]))
  }

  function After(me: PublicKey, log: Log, run: seq<Timed>): Log
    decreases |run|
  {
    if run == [] then log else After(me, Step(me, log, run[0]), run[1..])
  }

  /** Identifiers are new: they are random. */
  predicate Enabled(log: Log, op: Op) {
    match op
    case Channel(id, _, _, _) => id !in log.view.channels
    case NewPost(id, _, post) => post !in PostsOf(log.view, id)
  }

  ghost predicate Fresh(me: PublicKey, log: Log, run: seq<Timed>)
    decreases |run|
  {
    run != [] ==> Enabled(log, run[0].op) && Fresh(me, Step(me, log, run[0]), run[1..])
  }

  predicate Ordered(start: nat, run: seq<Timed>)
    decreases |run|
  {
    run != [] ==> start <= run[0].now && Ordered(run[0].now, run[1..])
  }

  ghost predicate ChannelOk(log: Log, id: ChannelId) {
    && id in log.made && id in log.view.posts && id in log.view.channels
    && Linked(log.view.posts[id], log.made[id]) && log.view.channels[id].latest == Latest(log.made[id])
  }

  ghost predicate Inv(log: Log) {
    forall id | id in log.view.channels :: ChannelOk(log, id)
  }

  lemma NoRepeatsMore(made: seq<PostId>, p: PostId)
    requires NoRepeats(made) && forall k | 0 <= k < |made| :: made[k] != p
    ensures NoRepeats(made + [p])
  {
  }

  lemma LinkMore(posts: Posts, made: seq<PostId>, post: Post, k: nat)
    requires k < |made| && Link(posts, made, k) && post.id !in posts
    ensures Link(posts[post.id := post], made + [post.id], k) && made[k] != post.id
  {
    assert Before(made + [post.id], k) == Before(made, k);
  }

  lemma LinkedMore(posts: Posts, made: seq<PostId>, post: Post)
    requires Linked(posts, made) && post.id !in posts && post.previous == Latest(made)
    ensures Linked(posts[post.id := post], made + [post.id])
  {
    var more, all := made + [post.id], posts[post.id := post];
    forall k | 0 <= k < |more|
      ensures Link(all, more, k) && (k < |made| ==> made[k] != post.id)
    {
      if k < |made| {
        LinkMore(posts, made, post, k);
      } else {
        assert Before(more, k) == Latest(made);
      }
    }
    NoRepeatsMore(made, post.id);
    forall p | p in all
      ensures p in more
    {
      if p != post.id {
        assert p in posts && p in made;
      }
    }
    LinkedParts(all, more);
  }

  lemma LinkedParts(posts: Posts, made: seq<PostId>)
    requires NoRepeats(made) && (forall p | p in posts :: p in made)
    requires forall k | 0 <= k < |made| :: Link(posts, made, k)
    ensures Linked(posts, made)
  {
  }

  lemma StepInv(me: PublicKey, log: Log, e: Timed)
    requires Inv(log) && Enabled(log, e.op)
    ensures Inv(Step(me, log, e))
  {
    var log' := Step(me, log, e);
    forall id | id in log'.view.channels
      ensures ChannelOk(log', id)
    {
      if id != e.op.id || log' == log {
        assert ChannelOk(log, id);
      } else if e.op.NewPost? {
        assert ChannelOk(log, id);
        var posts, made := log.view.posts[id], log.made[id];
        LinkedMore(posts, made, log'.view.posts[id][e.op.post]);
        assert Latest(made + [e.op.post]) == Some(e.op.post);
      }
    }
  }

  lemma {:induction false} RunInv(me: PublicKey, log: Log, run: seq<Timed>)
    requires Inv(log) && Fresh(me, log, run)
    ensures Inv(After(me, log, run))
    decreases |run|
  {
    if run != [] {
      StepInv(me, log, run[0]);
      RunInv(me, Step(me, log, run[0]), run[1..]);
    }
  }

  /** After any run, walking back from the latest post of a channel visits every one of its posts once,
      in reverse order of creation, and ends. */
  lemma PostsFormList(me: PublicKey, run: seq<Timed>, id: ChannelId)
    requires Fresh(me, START, run) && id in After(me, START, run).view.channels
    ensures var log := After(me, START, run);
            && id in log.made && id in log.view.posts
            && Walk(log.view.posts[id], log.view.channels[id].latest) == Some(Reversed(log.made[id]))
            && (forall p :: p in log.view.posts[id] <==> p in Reversed(log.made[id]))
            && (forall j, k | 0 <= j < k < |log.made[id]| :: Reversed(log.made[id])[j] != Reversed(log.made[id])[k])
  {
    RunInv(me, START, run);
    var log := After(me, START, run);
    assert ChannelOk(log, id);
    WalkLinked(log.view.posts[id], log.made[id]);
    WalkVisits(log.view.posts[id], log.made[id]);
  }

  /** The reversed order of creation has every post once. */
  lemma WalkVisits(posts: Posts, made: seq<PostId>)
    requires Linked(posts, made)
    ensures forall p :: p in posts <==> p in Reversed(made)
    ensures forall j, k | 0 <= j < k < |made| :: Reversed(made)[j] != Reversed(made)[k]
  {
    forall p | p in posts
      ensures p in Reversed(made)
    {
      var k :| 0 <= k < |made| && made[k] == p;
      assert Reversed(made)[|made| - 1 - k] == p;
    }
    forall p | p in Reversed(made)
      ensures p in posts
    {
      var k :| 0 <= k < |made| && Reversed(made)[k] == p;
      assert Link(posts, made, |made| - 1 - k);
    }
  }

  // ---------------------------------------------------------------- pages follow the list

  function TimeAt(posts: Posts, made: seq<PostId>, k: nat): nat
    requires k < |made|
  {
    if made[k] in posts then posts[made[k]].timestamp else 0
  }

  /** The posts of a channel were made at times that do not fall. */
  predicate Timely(posts: Posts, made: seq<PostId>, now: nat) {
    && (forall k | 0 <= k < |made| :: TimeAt(posts, made, k) <= now)
    && (forall j, k | 0 <= j < k < |made| :: TimeAt(posts, made, j) <= TimeAt(posts, made, k))
  }

  ghost predicate TimelyInv(log: Log, now: nat) {
    && Inv(log)
    && forall id | id in log.view.channels :: ChannelOk(log, id) && Timely(log.view.posts[id], log.made[id], now)
  }

  lemma TimelyStep(me: PublicKey, log: Log, e: Timed)
    requires TimelyInv(log, e.now) && Enabled(log, e.op)
    ensures TimelyInv(Step(me, log, e), e.now)
  {
    StepInv(me, log, e);
    var log' := Step(me, log, e);
    forall id | id in log'.view.channels
      ensures ChannelOk(log', id) && Timely(log'.view.posts[id], log'.made[id], e.now)
    {
      assert ChannelOk(log', id);
      if id in log.view.channels {
        assert ChannelOk(log, id) && Timely(log.view.posts[id], log.made[id], e.now);
        if log' != log && id == e.op.id {
          TimelyMore(log.view.posts[id], log.made[id], log'.view.posts[id][e.op.post], e.now);
        }
      }
    }
  }

  lemma TimelyMore(posts: Posts, made: seq<PostId>, post: Post, now: nat)
    requires Linked(posts, made) && Timely(posts, made, now)
    requires post.id !in posts && post.previous == Latest(made) && post.timestamp == now
    ensures Linked(posts[post.id := post], made + [post.id])
    ensures Timely(posts[post.id := post], made + [post.id], now)
  {
    LinkedMore(posts, made, post);
    var more, all := made + [post.id], posts[post.id := post];
    forall k | 0 <= k < |made|
      ensures TimeAt(all, more, k) == TimeAt(posts, made, k)
    {
      assert Link(posts, made, k);
    }
    assert TimeAt(all, more, |made|) == now;
  }

  lemma TimelyLater(log: Log, now: nat, later: nat)
    requires TimelyInv(log, now) && now <= later
    ensures TimelyInv(log, later)
  {
    forall id | id in log.view.channels
      ensures ChannelOk(log, id) && Timely(log.view.posts[id], log.made[id], later)
    {
      assert ChannelOk(log, id) && Timely(log.view.posts[id], log.made[id], now);
    }
  }

  lemma {:induction false} TimelyRun(me: PublicKey, log: Log, run: seq<Timed>, start: nat) returns (now: nat)
    requires TimelyInv(log, start) && Fresh(me, log, run) && Ordered(start, run)
    ensures TimelyInv(After(me, log, run), now)
    decreases |run|
  {
    now := start;
    if run != [] {
      TimelyLater(log, start, run[0].now);
      TimelyStep(me, log, run[0]);
      now := TimelyRun(me, Step(me, log, run[0]), run[1..], run[0].now);
    }
  }

  lemma {:induction false} DistinctCount(s: seq<Post>)
    requires forall j, k | 0 <= j < k < |s| :: s[j] != s[k]
    ensures |set p | p in s| == |s|
  {
    if s != [] {
      var n := |s| - 1;
      DistinctCount(s[..n]);
      assert (set p | p in s) == (set p | p in s[..n]) + {s[n]};
    }
  }

  lemma {:induction false} SetCount(s: seq<Post>)
    ensures |set p | p in s| <= |s|
  {
    if s != [] {
      var n := |s| - 1;
      SetCount(s[..n]);
      assert (set p | p in s) == (set p | p in s[..n]) + {s[n]};
    }
  }

  /** Two orders of the same posts, newest first, cannot differ in the times. */
  lemma SameTimes(a: seq<Post>, b: seq<Post>, k: nat)
    requires Descending(a) && Descending(b) && k < |a| && k < |b|
    requires forall i, j | 0 <= i < j < |a| :: a[i] != a[j]
    requires forall p | p in a :: p in b
    ensures a[k].timestamp <= b[k].timestamp
  {
    if a[k].timestamp > b[k].timestamp {
      var newer, older := a[..k + 1], b[..k];
      DistinctCount(newer);
      SetCount(older);
      forall p | p in newer
        ensures p in older
      {
        var i :| 0 <= i < |newer| && newer[i] == p;
        assert a[i] in a;
        assert p == a[i] && a[i].timestamp >= a[k].timestamp;
        var j :| 0 <= j < |b| && b[j] == p;
        assert j < k;
        assert older[j] == p;
      }
      SubsetCount(set p | p in newer, set p | p in older);
    }
  }

  lemma SubsetCount(a: set<Post>, b: set<Post>)
    requires a <= b
    ensures |a| <= |b|
  {
    assert |b - a| == |b| - |a|;
  }

  lemma {:induction false} MultisetDistinct(s: seq<Post>, values: set<Post>)
    requires multiset(s) == multiset(values)
    ensures forall j, k | 0 <= j < k < |s| :: s[j] != s[k]
    ensures |s| == |values| && forall p :: p in s <==> p in values
  {
    forall p
      ensures p in s <==> p in values
    {
      assert p in s <==> p in multiset(s);
    }
    forall j, k | 0 <= j < k < |s|
      ensures s[j] != s[k]
    {
      assert s == s[..j] + [s[j]] + s[j + 1..k] + [s[k]] + s[k + 1..];
      assert s[j] == s[k] ==> multiset(s)[s[j]] >= 2;
      assert multiset(values)[s[j]] <= 1;
    }
    assert |multiset(s)| == |s|;
  }

  /** What `Walk` visits, as posts. */
  function Visited(posts: Posts, ids: seq<PostId>): seq<Post>
    requires forall p | p in ids :: p in posts
  {
    seq(|ids|, k requires 0 <= k < |ids| => posts[ids[k]])
  }

  /** With a clock that does not fall, the order of `GetPosts` has at each position the time of the post
      that the walk visits there, and that very post if no two posts have the same time. */
  lemma PagesFollowList(me: PublicKey, run: seq<Timed>, id: ChannelId, order: seq<Post>)
    requires Fresh(me, START, run) && Ordered(0, run) && id in After(me, START, run).view.channels
    requires IsOrder(order, PostsOf(After(me, START, run).view, id))
    ensures id in After(me, START, run).made && id in After(me, START, run).view.posts
    ensures var ids := Reversed(After(me, START, run).made[id]);
            && |order| == |ids| && (forall p | p in ids :: p in After(me, START, run).view.posts[id])
            && forall k | 0 <= k < |order| ::
                 order[k].timestamp == Visited(After(me, START, run).view.posts[id], ids)[k].timestamp
    ensures DistinctTimes(order) ==>
              order == Visited(After(me, START, run).view.posts[id], Reversed(After(me, START, run).made[id]))
  {
    PostsFormList(me, run, id);
    var now := TimelyRun(me, START, run, 0);
    var log := After(me, START, run);
    assert ChannelOk(log, id) && Timely(log.view.posts[id], log.made[id], now);
    ListedOrder(log.view.posts[id], log.made[id], now, order);
  }

  /** The visited posts are those of the channel, once each, newest first. */
  lemma VisitedList(posts: Posts, made: seq<PostId>, now: nat)
    requires Linked(posts, made) && Timely(posts, made, now)
    requires forall p :: p in posts <==> p in Reversed(made)
    ensures var list := Visited(posts, Reversed(made));
            Descending(list) && (forall j, k | 0 <= j < k < |list| :: list[j] != list[k])
            && forall p :: p in list <==> p in posts.Values
  {
    var ids := Reversed(made);
    var list := Visited(posts, ids);
    forall k: nat | k < |list|
      ensures list[k].id == ids[k] && list[k].timestamp == TimeAt(posts, made, |made| - 1 - k)
              && list[k] in posts.Values
    {
      assert Link(posts, made, |made| - 1 - k);
    }
    forall j, k | 0 <= j < k < |list|
      ensures list[j] != list[k] && list[j].timestamp >= list[k].timestamp
    {
      assert made[|made| - 1 - k] != made[|made| - 1 - j];
      assert TimeAt(posts, made, |made| - 1 - k) <= TimeAt(posts, made, |made| - 1 - j);
    }
    AllVisited(posts, ids);
  }

  lemma AllVisited(posts: Posts, ids: seq<PostId>)
    requires forall p :: p in posts <==> p in ids
    ensures forall p | p in posts.Values :: p in Visited(posts, ids)
  {
    forall p | p in posts.Values
      ensures p in Visited(posts, ids)
    {
      var q :| q in posts && posts[q] == p;
      var k :| 0 <= k < |ids| && ids[k] == q;
      assert Visited(posts, ids)[k] == p;
    }
  }

  predicate DistinctTimes(posts: seq<Post>) {
    forall p, q | p in posts && q in posts && p != q :: p.timestamp != q.timestamp
  }

  lemma SameOrders(list: seq<Post>, order: seq<Post>)
    requires Descending(list) && forall j, k | 0 <= j < k < |list| :: list[j] != list[k]
    requires Descending(order) && forall j, k | 0 <= j < k < |order| :: order[j] != order[k]
    requires forall p :: p in list <==> p in order
    ensures |order| == |list| && (forall k | 0 <= k < |order| :: order[k].timestamp == list[k].timestamp)
    ensures DistinctTimes(order) ==> order == list
  {
    DistinctCount(list);
    DistinctCount(order);
    assert (set p | p in list) == (set p | p in order);
    forall k | 0 <= k < |order|
      ensures order[k].timestamp == list[k].timestamp
      ensures DistinctTimes(order) ==> order[k] == list[k]
    {
      SameTimes(order, list, k);
      SameTimes(list, order, k);
      assert order[k] in order && list[k] in list;
    }
  }

  lemma ListedOrder(posts: Posts, made: seq<PostId>, now: nat, order: seq<Post>)
    requires Linked(posts, made) && Timely(posts, made, now)
    requires forall p :: p in posts <==> p in Reversed(made)
    requires IsOrder(order, posts)
    ensures var list := Visited(posts, Reversed(made));
            && |order| == |list| && (forall k | 0 <= k < |order| :: order[k].timestamp == list[k].timestamp)
            && (DistinctTimes(order) ==> order == list)
  {
    MultisetDistinct(order, posts.Values);
    VisitedList(posts, made, now);
    SameOrders(Visited(posts, Reversed(made)), order);
  }
}
