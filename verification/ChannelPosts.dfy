/** What the posts of a channel say, who may post, and how its pages fit together. */
module ChannelPosts {
  import opened Wrappers
  import GroupState
  import opened Channel

  // ---------------------------------------------------------------- pages

  /** A page starts after the first `offset` posts and has as many of the rest as the limit allows. */
  lemma PageIs(posts: seq<Post>, limit: int, offset: nat)
    ensures var page, rest := Page(posts, limit, offset), if offset < |posts| then |posts| - offset else 0;
            && |page| == (if 0 < limit < rest then limit else rest)
            && forall k | 0 <= k < |page| :: page[k] == posts[offset + k]
  {
  }

  /** Reading page after page, each of `limit` posts and after the ones before it. */
  function Browsed(posts: seq<Post>, limit: nat, offset: nat): seq<Post>
    requires limit > 0
    decreases |posts| - offset
  {
    if offset >= |posts| then [] else Page(posts, limit, offset) + Browsed(posts, limit, offset + limit)
  }

  /** Page after page gives every post once, in order, whatever the limit; without a limit one page does. */
  lemma {:induction false} PagesCover(posts: seq<Post>, limit: nat, offset: nat)
    requires limit > 0 && offset <= |posts|
    ensures Browsed(posts, limit, offset) == posts[offset..] == Page(posts, 0, offset)
    decreases |posts| - offset
  {
    if offset < |posts| {
      PageIs(posts, limit, offset);
      if offset + limit <= |posts| {
        PagesCover(posts, limit, offset + limit);
        assert posts[offset..] == posts[offset..offset + limit] + posts[offset + limit..];
      } else {
        assert Browsed(posts, limit, offset + limit) == [];
      }
    }
  }

  // ---------------------------------------------------------------- who may post

  /** A post is refused exactly if there is no such channel, or it is a private one of another owner; its author
      is who made it, whoever owns the channel, and no other post changes. */
  lemma PostAllowedExactly(me: PublicKey, s: View, id: ChannelId, content: Bytes, post: PostId, now: nat)
    ensures CreatePost(me, s, id, content, post, now).Success?
            <==> id in s.channels && (s.channels[id].kind == GroupState.PrivateChannel ==> s.channels[id].owner == me)
    ensures var r := CreatePost(me, s, id, content, post, now);
            r.Success? ==>
              && id in r.value.posts && post in r.value.posts[id]
              && r.value.posts[id][post].author == me && r.value.posts[id][post].previous == s.channels[id].latest
              && (forall other, p | other in s.posts && p in s.posts[other] && (other != id || p != post) ::
                    other in r.value.posts && p in r.value.posts[other] && r.value.posts[other][p] == s.posts[other][p])
  {
  }

  /** A channel is made exactly if its type is one of a channel. */
  lemma ChannelAllowedExactly(me: PublicKey, s: View, id: ChannelId, name: Bytes, description: Bytes,
                              kind: GroupState.Kind, now: nat)
    ensures CreateChannel(me, s, id, name, description, kind, now).Success?
            <==> kind != GroupState.PrivateGroup && kind != GroupState.PublicGroup
  {
  }

  // ---------------------------------------------------------------- what a run says

  datatype Note = Note(content: Bytes, time: nat)

  /** What the run says of a channel: how it was made, when it last changed, and its posts. */
  datatype About = About(name: Bytes, description: Bytes, kind: GroupState.Kind, createdAt: nat, updatedAt: nat,
                         notes: map<PostId, Note>, posts: nat)

  function Told(run: seq<Timed>, id: ChannelId): Option<About> {
    if run == [] then None
    else Tell(run[|run| - 1], id, Told(run[..|run| - 1], id))
  }

  function Tell(e: Timed, id: ChannelId, before: Option<About>): Option<About> {
    if e.op.id != id then before
    else
      match e.op
      case Channel(_, name, description, kind) =>
        if kind == GroupState.PrivateGroup || kind == GroupState.PublicGroup then before
        else Some(About(name, description, kind, e.now, e.now, map[], 0))
      case NewPost(_, content, post) =>
        if before.None? then None
        else Some(before.value.(updatedAt := e.now, notes := before.value.notes[post := Note(content, e.now)],
                                posts := before.value.posts + 1))
  }

  ghost predicate ChannelIs(me: PublicKey, s: View, id: ChannelId, told: Option<About>) {
    && (id in s.channels <==> told.Some?)
    && (told.Some? ==>
          var c, a := s.channels[id], told.value;
          && c.id == id && c.name == a.name && c.description == a.description && c.kind == a.kind && c.owner == me
          && c.createdAt == a.createdAt && c.updatedAt == a.updatedAt
          && c.subscribers == (if c.kind == GroupState.PublicChannel then a.posts else 0)
          && NotesAre(me, PostsOf(s, id), id, a.notes))
  }

  ghost predicate NotesAre(me: PublicKey, posts: Posts, id: ChannelId, notes: map<PostId, Note>) {
    && (forall p :: p in posts <==> p in notes)
    && (forall p | p in posts ::
          posts[p].id == p && posts[p].channel == id && posts[p].author == me
          && posts[p].content == notes[p].content && posts[p].timestamp == notes[p].time)
  }

  lemma TellStep(me: PublicKey, log: Log, e: Timed, id: ChannelId, told: Option<About>)
    requires ChannelIs(me, log.view, id, told)
    ensures ChannelIs(me, Step(me, log, e).view, id, Tell(e, id, told))
  {
  }

  lemma AfterMore(me: PublicKey, log: Log, run: seq<Timed>, e: Timed)
    ensures After(me, log, run + [e]) == Step(me, After(me, log, run), e)
    decreases |run|
  {
    if run == [] {
      assert (run + [e])[1..] == [] && (run + [e])[0] == e;
      assert After(me, Step(me, log, e), []) == Step(me, log, e);
    } else {
      assert (run + [e])[1..] == run[1..] + [e];
      AfterMore(me, Step(me, log, run[0]), run[1..], e);
    }
  }

  /** Over any run a channel exists exactly if it was made, as it was made and by this node; and its posts are
      those that were made since, each with its content, time, channel and author. */
  lemma {:induction false} PostsAreTold(me: PublicKey, run: seq<Timed>, id: ChannelId)
    ensures ChannelIs(me, After(me, START, run).view, id, Told(run, id))
    decreases |run|
  {
    if run != [] {
      var front, e := run[..|run| - 1], run[|run| - 1];
      PostsAreTold(me, front, id);
      AfterMore(me, START, front, e);
      assert run == front + [e];
      TellStep(me, After(me, START, front), e, id, Told(front, id));
    }
  }
}
