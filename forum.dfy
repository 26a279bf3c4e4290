/**
 * app/forum/page.tsx: the forum page's list of threads and its handlers,
 * including the two recursive `updateComments` traversals (toggle a like,
 * append a reply) and the demo comment generator.
 */
module Forum {
  import opened Wrappers
  import opened Auth
  import Text
  import opened Comments
  import opened PostCard

  // ---------------------------------------------------------------------
  // The like traversal (`updateComments` of `handleLikeComment`).

  /**
   * One node of the like traversal: a matching comment has its flag flipped
   * (absent counts as not liked) and `likes` moved by one, and its replies
   * are not visited; otherwise the traversal descends into present replies.
   */
  function ToggleLike(c: Comment, id: int): (r: Comment)
    ensures r.id == c.id && Size(r) == Size(c)
    ensures c.id == id ==> r.replies == c.replies && r.liked == Some(!IsLiked(c))
    ensures c.id == id ==> r.likes == (if IsLiked(c) then c.likes - 1 else c.likes + 1)
    ensures c.id != id ==> r.liked == c.liked && r.likes == c.likes && r.replies.Present? == c.replies.Present?
    ensures c.id == id ==> r.(liked := c.liked, likes := c.likes) == c
    ensures c.id != id ==> r.(replies := c.replies) == c
    decreases c
  {
    if c.id == id then
      var newLiked := !IsLiked(c);
      c.(liked := Some(newLiked), likes := if newLiked then c.likes + 1 else c.likes - 1)
    else
      match c.replies
      case Absent => c
      case Present(rs) => c.(replies := Present(ToggleLikes(rs, id)))
  }

  /** The like traversal over a list of comments, in order. */
  function ToggleLikes(cs: seq<Comment>, id: int): (rs: seq<Comment>)
    ensures |rs| == |cs| && ForestSize(rs) == ForestSize(cs)
    ensures forall i :: 0 <= i < |cs| ==> rs[i] == ToggleLike(cs[i], id)
    decreases cs
  {
    if cs == [] then [] else
      var rest := ToggleLikes(cs[1..], id);
      assert ForestSize([ToggleLike(cs[0], id)] + rest) == Size(ToggleLike(cs[0], id)) + ForestSize(rest) by {
        ForestSizeAppend([ToggleLike(cs[0], id)], rest);
      }
      [ToggleLike(cs[0], id)] + rest
  }

  /** Nodes the traversals stop at: matching nodes not below another matching node. */
  function Hits(c: Comment, id: int): nat
    decreases c
  {
    if c.id == id then 1 else
      match c.replies
      case Absent => 0
      case Present(rs) => ForestHits(rs, id)
  }

  function ForestHits(cs: seq<Comment>, id: int): nat
    decreases cs
  {
    if cs == [] then 0 else Hits(cs[0], id) + ForestHits(cs[1..], id)
  }

  /** The traversal stops at some node exactly when the id occurs, and never at more nodes than carry it. */
  lemma {:induction false} HitsBound(c: Comment, id: int)
    ensures Hits(c, id) <= Occurrences(c, id)
    ensures Hits(c, id) == 0 <==> Occurrences(c, id) == 0
    decreases c
  {
    match c.replies
    case Absent =>
    case Present(rs) => ForestHitsBound(rs, id);
  }

  lemma {:induction false} ForestHitsBound(cs: seq<Comment>, id: int)
    ensures ForestHits(cs, id) <= ForestOccurrences(cs, id)
    ensures ForestHits(cs, id) == 0 <==> ForestOccurrences(cs, id) == 0
    decreases cs
  {
    if cs != [] {
      HitsBound(cs[0], id);
      ForestHitsBound(cs[1..], id);
    }
  }

  /** A forest in which no comment carries `id` is returned unchanged by the like traversal. */
  lemma {:induction false} ToggleLikeAbsent(c: Comment, id: int)
    requires Occurrences(c, id) == 0
    ensures ToggleLike(c, id) == c
    decreases c
  {
    match c.replies
    case Absent =>
    case Present(rs) =>
      ToggleLikesAbsent(rs, id);
  }

  lemma {:induction false} ToggleLikesAbsent(cs: seq<Comment>, id: int)
    requires ForestOccurrences(cs, id) == 0
    ensures ToggleLikes(cs, id) == cs
    decreases cs
  {
    if cs != [] {
      ToggleLikeAbsent(cs[0], id);
      ToggleLikesAbsent(cs[1..], id);
      assert cs == [cs[0]] + cs[1..];
    }
  }

  /** Every node's `liked` field is present, as in all comments the pages create. */
  ghost predicate LikedKnown(c: Comment)
    decreases c
  {
    c.liked.Some? && forall i :: 0 <= i < |Replies(c)| ==> LikedKnown(Replies(c)[i])
  }

  /** Liking the same id twice restores every comment, when the `liked` flags are present. */
  lemma {:induction false} ToggleLikeTwice(c: Comment, id: int)
    requires LikedKnown(c)
    ensures ToggleLike(ToggleLike(c, id), id) == c
    decreases c
  {
    if c.id == id {
      var b := c.liked.value;
      var once := c.(liked := Some(!b), likes := if !b then c.likes + 1 else c.likes - 1);
      assert ToggleLike(c, id) == once;
      assert ToggleLike(once, id) == once.(liked := Some(b), likes := c.likes);
    } else if c.replies.Present? {
      var rs := c.replies.items;
      var once := ToggleLikes(rs, id);
      var twice := ToggleLikes(once, id);
      forall i | 0 <= i < |rs| ensures twice[i] == rs[i] {
        assert rs[i] == Replies(c)[i];
        ToggleLikeTwice(rs[i], id);
      }
      assert twice == rs;
      assert ToggleLike(c, id) == c.(replies := Present(once));
    }
  }

  lemma ToggleLikesTwice(cs: seq<Comment>, id: int)
    requires forall i :: 0 <= i < |cs| ==> LikedKnown(cs[i])
    ensures ToggleLikes(ToggleLikes(cs, id), id) == cs
  {
    forall i | 0 <= i < |cs| ensures ToggleLike(ToggleLike(cs[i], id), id) == cs[i] {
      ToggleLikeTwice(cs[i], id);
    }
  }

  /** With `liked` absent, two likes restore the count but leave an explicit `false`. */
  lemma ToggleLikeTwiceAbsentFlag(c: Comment)
    requires c.liked.None?
    ensures ToggleLike(ToggleLike(c, c.id), c.id) == c.(liked := Some(false))
  {
  }

  /** The comment a like targets, as the like handler leaves it. */
  function Flipped(c: Comment): Comment {
    c.(liked := Some(!IsLiked(c)), likes := if IsLiked(c) then c.likes - 1 else c.likes + 1)
  }

  /** The depth-first lookup of `id` after liking `id` finds the comment it found before, flipped. */
  lemma {:induction false} FindAfterToggleLike(c: Comment, id: int)
    ensures FindIn(ToggleLike(c, id), id) == (if FindIn(c, id).Some? then Some(Flipped(FindIn(c, id).value)) else None)
    decreases c
  {
    if c.id != id {
      match c.replies
      case Absent =>
      case Present(rs) => FindAfterToggleLikes(rs, id);
    }
  }

  lemma {:induction false} FindAfterToggleLikes(cs: seq<Comment>, id: int)
    ensures Find(ToggleLikes(cs, id), id) == (if Find(cs, id).Some? then Some(Flipped(Find(cs, id).value)) else None)
    decreases cs
  {
    if cs != [] {
      assert ToggleLikes(cs, id)[1..] == ToggleLikes(cs[1..], id);
      FindAfterToggleLike(cs[0], id);
      FindAfterToggleLikes(cs[1..], id);
    }
  }

  /**
   * Liking an id that occurs anywhere in a thread flips the comment that
   * carries it, at whatever depth it sits (the first one in pre-order, the
   * only one when ids are unique), and changes nothing else about it.
   */
  lemma LikeReachesAnyDepth(cs: seq<Comment>, id: int)
    requires ForestOccurrences(cs, id) > 0
    ensures Find(cs, id).Some? && Find(ToggleLikes(cs, id), id).Some?
    ensures var f := Find(cs, id).value; var g := Find(ToggleLikes(cs, id), id).value;
      f.id == id && g.liked == Some(!IsLiked(f)) &&
      g.likes == (if IsLiked(f) then f.likes - 1 else f.likes + 1) &&
      g.(liked := f.liked, likes := f.likes) == f
  {
    FindSomeIff(cs, id);
    FindAfterToggleLikes(cs, id);
  }

  /** Liking `id` leaves whatever the lookup of another id finds as it was, except possibly its replies. */
  lemma {:induction false} ToggleLikeKeepsOthers(c: Comment, id: int, other: int)
    requires other != id
    ensures var a := FindIn(ToggleLike(c, id), other); var b := FindIn(c, other);
      a.Some? == b.Some? && (a.Some? ==> a.value.(replies := b.value.replies) == b.value)
    decreases c
  {
    if c.id != other && c.id != id {
      match c.replies
      case Absent =>
      case Present(rs) => ToggleLikesKeepOthers(rs, id, other);
    }
  }

  lemma {:induction false} ToggleLikesKeepOthers(cs: seq<Comment>, id: int, other: int)
    requires other != id
    ensures var a := Find(ToggleLikes(cs, id), other); var b := Find(cs, other);
      a.Some? == b.Some? && (a.Some? ==> a.value.(replies := b.value.replies) == b.value)
    decreases cs
  {
    if cs != [] {
      assert ToggleLikes(cs, id)[1..] == ToggleLikes(cs[1..], id);
      ToggleLikeKeepsOthers(cs[0], id, other);
      ToggleLikesKeepOthers(cs[1..], id, other);
    }
  }

  // ---------------------------------------------------------------------
  // The reply traversal (`updateComments` of `handleReplyToComment`).

  /**
   * One node of the reply traversal: a matching comment gets `reply`
   * appended at the end of its replies (creating the list), and its replies
   * are not visited; otherwise the traversal descends into present replies.
   */
  function AddReply(c: Comment, id: int, reply: Comment): (r: Comment)
    ensures r.(replies := c.replies) == c
    ensures c.id == id ==> r.replies == Present(Replies(c) + [reply])
    ensures c.id != id ==> r.replies.Present? == c.replies.Present?
    decreases c
  {
    if c.id == id then
      c.(replies := Present(Replies(c) + [reply]))
    else
      match c.replies
      case Absent => c
      case Present(rs) => c.(replies := Present(AddReplies(rs, id, reply)))
  }

  /** The reply traversal over a list of comments, in order. */
  function AddReplies(cs: seq<Comment>, id: int, reply: Comment): (rs: seq<Comment>)
    ensures |rs| == |cs|
    ensures forall i :: 0 <= i < |cs| ==> rs[i] == AddReply(cs[i], id, reply)
    decreases cs
  {
    if cs == [] then [] else [AddReply(cs[0], id, reply)] + AddReplies(cs[1..], id, reply)
  }

  /** The reply traversal adds one copy of `reply` per node it stops at. */
  lemma {:induction false} AddReplySize(c: Comment, id: int, reply: Comment)
    ensures Size(AddReply(c, id, reply)) == Size(c) + Hits(c, id) * Size(reply)
    decreases c
  {
    if c.id == id {
      ForestSizeAppend(Replies(c), [reply]);
      SingletonForest(reply, id);
    } else {
      match c.replies
      case Absent =>
      case Present(rs) => AddRepliesSize(rs, id, reply);
    }
  }

  lemma {:induction false} AddRepliesSize(cs: seq<Comment>, id: int, reply: Comment)
    ensures ForestSize(AddReplies(cs, id, reply)) == ForestSize(cs) + ForestHits(cs, id) * Size(reply)
    decreases cs
  {
    if cs != [] {
      var first := AddReply(cs[0], id, reply);
      var rest := AddReplies(cs[1..], id, reply);
      assert AddReplies(cs, id, reply) == [first] + rest;
      ForestSizeAppend([first], rest);
      SingletonForest(first, id);
      AddReplySize(cs[0], id, reply);
      AddRepliesSize(cs[1..], id, reply);
      Distribute(Hits(cs[0], id), ForestHits(cs[1..], id), Size(reply));
    }
  }

  lemma Distribute(a: nat, b: nat, k: nat)
    ensures (a + b) * k == a * k + b * k
  {
  }

  lemma SingletonForest(c: Comment, id: int)
    ensures ForestSize([c]) == Size(c) && ForestOccurrences([c], id) == Occurrences(c, id)
  {
    assert [c][1..] == [];
  }

  /** A forest in which no comment carries `id` is returned unchanged by the reply traversal. */
  lemma {:induction false} AddReplyAbsent(c: Comment, id: int, reply: Comment)
    requires Occurrences(c, id) == 0
    ensures AddReply(c, id, reply) == c
    decreases c
  {
    match c.replies
    case Absent =>
    case Present(rs) =>
      AddRepliesAbsent(rs, id, reply);
  }

  lemma {:induction false} AddRepliesAbsent(cs: seq<Comment>, id: int, reply: Comment)
    requires ForestOccurrences(cs, id) == 0
    ensures AddReplies(cs, id, reply) == cs
    decreases cs
  {
    if cs != [] {
      AddReplyAbsent(cs[0], id, reply);
      AddRepliesAbsent(cs[1..], id, reply);
      assert cs == [cs[0]] + cs[1..];
    }
  }

  /** The comment a reply targets, as the reply handler leaves it. */
  function WithReply(c: Comment, reply: Comment): Comment {
    c.(replies := Present(Replies(c) + [reply]))
  }

  /** The depth-first lookup of `id` after replying to `id` finds the comment it found before, with the reply appended. */
  lemma {:induction false} FindAfterAddReply(c: Comment, id: int, reply: Comment)
    ensures FindIn(AddReply(c, id, reply), id) ==
      (if FindIn(c, id).Some? then Some(WithReply(FindIn(c, id).value, reply)) else None)
    decreases c
  {
    if c.id != id {
      match c.replies
      case Absent =>
      case Present(rs) => FindAfterAddReplies(rs, id, reply);
    }
  }

  lemma {:induction false} FindAfterAddReplies(cs: seq<Comment>, id: int, reply: Comment)
    ensures Find(AddReplies(cs, id, reply), id) ==
      (if Find(cs, id).Some? then Some(WithReply(Find(cs, id).value, reply)) else None)
    decreases cs
  {
    if cs != [] {
      assert AddReplies(cs, id, reply)[1..] == AddReplies(cs[1..], id, reply);
      FindAfterAddReply(cs[0], id, reply);
      FindAfterAddReplies(cs[1..], id, reply);
    }
  }

  /**
   * Replying to an id that occurs anywhere in a thread appends the reply at
   * the end of that comment's replies, at whatever depth it sits (the first
   * one in pre-order, the only one when ids are unique), creating the list
   * when it was absent, and changes nothing else about it.
   */
  lemma ReplyReachesAnyDepth(cs: seq<Comment>, id: int, reply: Comment)
    requires ForestOccurrences(cs, id) > 0
    ensures Find(cs, id).Some? && Find(AddReplies(cs, id, reply), id).Some?
    ensures var f := Find(cs, id).value; var g := Find(AddReplies(cs, id, reply), id).value;
      f.id == id && g.replies == Present(Replies(f) + [reply]) && g.(replies := f.replies) == f
  {
    FindSomeIff(cs, id);
    FindAfterAddReplies(cs, id, reply);
  }

  /** With unique ids, replying to an existing comment adds exactly the reply's nodes; to a missing id, nothing. */
  lemma ReplyAddsOneTree(cs: seq<Comment>, id: int, reply: Comment)
    requires UniqueIds(cs)
    ensures ForestOccurrences(cs, id) == 1 ==> ForestSize(AddReplies(cs, id, reply)) == ForestSize(cs) + Size(reply)
    ensures ForestOccurrences(cs, id) == 0 ==> AddReplies(cs, id, reply) == cs
  {
    ForestHitsBound(cs, id);
    AddRepliesSize(cs, id, reply);
    if ForestOccurrences(cs, id) == 0 {
      AddRepliesAbsent(cs, id, reply);
    }
  }

  // ---------------------------------------------------------------------
  // Post-level updates.

  /** A comment or reply as the handlers build it: no likes, not liked, no replies. */
  function NewComment(user: User, content: string, id: int, now: int): (c: Comment)
    ensures Size(c) == 1 && c.likes == 0 && !IsLiked(c) && !HasReplies(c)
    ensures c.author.name == user.name && c.author.initials == Text.FirstChar(user.name)
  {
    Comment(id, Author(user.name, None, Text.FirstChar(user.name)), content, 0, now, Some(false), Absent)
  }

  /** One post under `handleVote`: only the matching post takes `direction`, scored by the table. */
  function VotePost(p: Post, postId: int, direction: Vote): (r: Post)
    ensures p.id != postId ==> r == p
    ensures p.id == postId ==> r.userVote == Some(direction) && r.(likes := p.likes, userVote := p.userVote) == p
  {
    if p.id == postId then p.(userVote := Some(direction), likes := p.likes + Delta(p.userVote, direction))
    else p
  }

  function VotePosts(posts: seq<Post>, postId: int, direction: Vote): (r: seq<Post>)
    ensures |r| == |posts|
    ensures forall i :: 0 <= i < |posts| && posts[i].id != postId ==> r[i] == posts[i]
    ensures forall i :: 0 <= i < |posts| && posts[i].id == postId ==>
              r[i].userVote == Some(direction) &&
              r[i].likes == posts[i].likes + Delta(posts[i].userVote, direction) &&
              r[i].(likes := posts[i].likes, userVote := posts[i].userVote) == posts[i]
  {
    seq(|posts|, i requires 0 <= i < |posts| => VotePost(posts[i], postId, direction))
  }

  /** One post under `handleAddComment`: the matching post gets `c` at the end of its comments. */
  function AddCommentTo(p: Post, postId: int, c: Comment): (r: Post)
    ensures p.id != postId ==> r == p
    ensures p.id == postId ==> r.comments == p.comments + 1 && r.(comments := p.comments, commentData := p.commentData) == p
  {
    if p.id == postId then
      p.(comments := p.comments + 1, commentData := Some(p.commentData.GetOr([]) + [c]))
    else p
  }

  function AddCommentPosts(posts: seq<Post>, postId: int, c: Comment): (r: seq<Post>)
    ensures |r| == |posts|
    ensures forall i :: 0 <= i < |posts| && posts[i].id != postId ==> r[i] == posts[i]
    ensures forall i :: 0 <= i < |posts| && posts[i].id == postId ==>
              r[i].comments == posts[i].comments + 1 &&
              r[i].commentData == Some(posts[i].commentData.GetOr([]) + [c]) &&
              ForestSize(r[i].commentData.value) == ForestSize(posts[i].commentData.GetOr([])) + Size(c) &&
              r[i].(comments := posts[i].comments, commentData := posts[i].commentData) == posts[i]
  {
    var r := seq(|posts|, i requires 0 <= i < |posts| => AddCommentTo(posts[i], postId, c));
    forall i | 0 <= i < |posts| && posts[i].id == postId
      ensures ForestSize(r[i].commentData.value) == ForestSize(posts[i].commentData.GetOr([])) + Size(c)
    {
      ForestSizeAppend(posts[i].commentData.GetOr([]), [c]);
      assert [c][1..] == [];
    }
    r
  }

  /** One post under `handleLikeComment`: posts without `commentData` are returned as they are. */
  function LikeIn(p: Post, id: int): (r: Post)
    ensures r.(commentData := p.commentData) == p
    ensures r.commentData.Some? <==> p.commentData.Some?
  {
    match p.commentData
    case None => p
    case Some(cs) => p.(commentData := Some(ToggleLikes(cs, id)))
  }

  function LikePosts(posts: seq<Post>, id: int): (r: seq<Post>)
    ensures |r| == |posts|
    ensures forall i :: 0 <= i < |posts| && posts[i].commentData.None? ==> r[i] == posts[i]
    ensures forall i :: 0 <= i < |posts| && posts[i].commentData.Some? ==>
              r[i].commentData == Some(ToggleLikes(posts[i].commentData.value, id)) &&
              r[i].(commentData := posts[i].commentData) == posts[i]
  {
    seq(|posts|, i requires 0 <= i < |posts| => LikeIn(posts[i], id))
  }

  /**
   * One post under `handleReplyToComment`: every post that has
   * `commentData` counts one more comment, whether or not `id` is in it.
   */
  function ReplyIn(p: Post, id: int, reply: Comment): (r: Post)
    ensures p.commentData.None? ==> r == p
    ensures p.commentData.Some? ==> r.comments == p.comments + 1 && r.(comments := p.comments, commentData := p.commentData) == p
  {
    match p.commentData
    case None => p
    case Some(cs) => p.(comments := p.comments + 1, commentData := Some(AddReplies(cs, id, reply)))
  }

  function ReplyPosts(posts: seq<Post>, id: int, reply: Comment): (r: seq<Post>)
    ensures |r| == |posts|
    ensures forall i :: 0 <= i < |posts| && posts[i].commentData.None? ==> r[i] == posts[i]
    ensures forall i :: 0 <= i < |posts| && posts[i].commentData.Some? ==>
              r[i].comments == posts[i].comments + 1 &&
              r[i].commentData == Some(AddReplies(posts[i].commentData.value, id, reply)) &&
              r[i].(comments := posts[i].comments, commentData := posts[i].commentData) == posts[i]
  {
    seq(|posts|, i requires 0 <= i < |posts| => ReplyIn(posts[i], id, reply))
  }

  /** Liking leaves every post's ids, counters and node count as they were; only like fields move. */
  lemma LikeKeepsCounts(posts: seq<Post>, id: int)
    ensures forall i :: 0 <= i < |posts| ==>
      LikePosts(posts, id)[i].(commentData := posts[i].commentData) == posts[i] &&
      (posts[i].commentData.Some? ==>
         ForestSize(LikePosts(posts, id)[i].commentData.value) == ForestSize(posts[i].commentData.value))
  {
  }

  /** Liking the same id twice restores every post, when the `liked` flags are present. */
  lemma LikePostsTwice(posts: seq<Post>, id: int)
    requires forall i, k :: 0 <= i < |posts| && posts[i].commentData.Some? && 0 <= k < |posts[i].commentData.value| ==>
               LikedKnown(posts[i].commentData.value[k])
    ensures LikePosts(LikePosts(posts, id), id) == posts
  {
    forall i | 0 <= i < |posts| ensures LikeIn(LikeIn(posts[i], id), id) == posts[i] {
      match posts[i].commentData
      case None =>
      case Some(cs) => ToggleLikesTwice(cs, id);
    }
  }

  /** Sum of the `comments` counters. */
  function TotalComments(posts: seq<Post>): int {
    if posts == [] then 0 else posts[0].comments + TotalComments(posts[1..])
  }

  /** Number of posts that carry `commentData`. */
  function Threads(posts: seq<Post>): nat {
    if posts == [] then 0 else (if posts[0].commentData.Some? then 1 else 0) + Threads(posts[1..])
  }

  /** As written, one reply raises the sum of the counters by the number of threads, not by one. */
  lemma {:induction false} ReplyBumpsEveryThread(posts: seq<Post>, id: int, reply: Comment)
    ensures TotalComments(ReplyPosts(posts, id, reply)) == TotalComments(posts) + Threads(posts)
  {
    if posts != [] {
      ReplyBumpsEveryThread(posts[1..], id, reply);
      assert ReplyPosts(posts, id, reply)[1..] == ReplyPosts(posts[1..], id, reply);
    }
  }

  /** Concretely: a reply under the first of two threads also bumps the second thread's counter. */
  lemma ReplyBumpsUnrelatedThread(p: Post, q: Post, target: Comment, reply: Comment)
    requires p.commentData == Some([target]) && q.commentData == Some([])
    ensures ReplyPosts([p, q], target.id, reply)[1].comments == q.comments + 1
    ensures ReplyPosts([p, q], target.id, reply)[1].commentData == Some([])
  {
  }

  // ---------------------------------------------------------------------
  // Demo data.

  /** The reply the second base comment carries. */
  function BaseReply(threadId: int, now: int): Comment {
    Comment(threadId * 100 + 3, Author("Taylor Wilson", None, "TW"),
      "I agree! useContext + useReducer is a great combination for many use cases.",
      2, now - 3600000 * 4, Some(false), Absent)
  }

  /** The two base comments of `generateComments`; `now` stands for `Date.now()`. */
  function BaseComments(threadId: int, now: int): (r: seq<Comment>)
    ensures |r| == 2
  {
    [ Comment(threadId * 100 + 1, Author("Alex Johnson", None, "AJ"),
        "This is really insightful! I've been working with React for a while and still learned something new.",
        5, now - 3600000 * 2, Some(false), Absent),
      Comment(threadId * 100 + 2, Author("Jamie Smith", None, "JS"),
        "Have you tried using the new React hooks API? It's a game changer for state management.",
        3, now - 3600000 * 5, Some(false), Present([BaseReply(threadId, now)])) ]
  }

  /** `generateComments(threadId)`: the first base comment for an even id, none for other multiples of 3, both otherwise. */
  function GenerateComments(threadId: int, now: int): seq<Comment> {
    var base := BaseComments(threadId, now);
    if threadId % 2 == 0 then base[..1]
    else if threadId % 3 == 0 then []
    else base
  }

  /** Each of the ids `threadId * 100 + 1 .. 3` occurs once among the base comments, no other id at all. */
  lemma BaseOccurrences(threadId: int, now: int, id: int)
    ensures ForestOccurrences(BaseComments(threadId, now), id) ==
      (if id == threadId * 100 + 1 then 1 else 0) +
      (if id == threadId * 100 + 2 then 1 else 0) +
      (if id == threadId * 100 + 3 then 1 else 0)
  {
    var base := BaseComments(threadId, now);
    assert base[1..] == [base[1]];
    SingletonForest(base[1], id);
    SingletonForest(BaseReply(threadId, now), id);
  }

  lemma BaseSize(threadId: int, now: int)
    ensures ForestSize(BaseComments(threadId, now)) == 3
  {
    var base := BaseComments(threadId, now);
    assert base[1..] == [base[1]];
    SingletonForest(base[1], 0);
    SingletonForest(BaseReply(threadId, now), 0);
  }

  /** Even thread ids get only the first base comment. */
  lemma GenerateEven(threadId: int, now: int)
    requires threadId % 2 == 0
    ensures var r := GenerateComments(threadId, now);
      |r| == 1 && r[0].id == threadId * 100 + 1 && ForestSize(r) == 1 && UniqueIds(r)
  {
    var base := BaseComments(threadId, now);
    var c := base[0];
    assert c.replies == Absent;
    assert GenerateComments(threadId, now) == [c];
    LeafForest(c);
  }

  /** A forest holding one comment without replies has one node and no repeated id. */
  lemma LeafForest(c: Comment)
    requires c.replies == Absent
    ensures ForestSize([c]) == 1 && UniqueIds([c])
  {
    SingletonForest(c, 0);
    forall id ensures ForestOccurrences([c], id) <= 1 {
      SingletonForest(c, id);
    }
  }

  /** Odd thread ids that are not multiples of 3 get both base comments, three nodes with distinct ids. */
  lemma GenerateBoth(threadId: int, now: int)
    requires threadId % 2 != 0 && threadId % 3 != 0
    ensures var r := GenerateComments(threadId, now);
      |r| == 2 && r[0].id == threadId * 100 + 1 && r[1].id == threadId * 100 + 2 &&
      Replies(r[1]) == [BaseReply(threadId, now)] && ForestSize(r) == 3 && UniqueIds(r)
  {
    BaseSize(threadId, now);
    forall id ensures ForestOccurrences(BaseComments(threadId, now), id) <= 1 {
      BaseOccurrences(threadId, now, id);
    }
  }

  /** Odd multiples of 3 get no comments at all. */
  lemma GenerateNone(threadId: int, now: int)
    requires threadId % 2 != 0 && threadId % 3 == 0
    ensures GenerateComments(threadId, now) == []
  {
  }

  /** Every generated comment has its `liked` flag set and a positive like count. */
  lemma GenerateLiked(threadId: int, now: int)
    ensures forall i :: 0 <= i < |GenerateComments(threadId, now)| ==>
      LikedKnown(GenerateComments(threadId, now)[i]) && GenerateComments(threadId, now)[i].likes > 0
  {
    var base := BaseComments(threadId, now);
    assert LikedKnown(base[0]);
    assert LikedKnown(base[1]) by {
      assert Replies(base[1]) == [BaseReply(threadId, now)];
      assert LikedKnown(BaseReply(threadId, now));
    }
  }

  /** The demo thread 1 starts with 3 comment nodes, while its counter says 12. */
  lemma DemoCounterDisagrees(now: int)
    ensures ForestSize(GenerateComments(1, now)) == 3 != 12
  {
    GenerateBoth(1, now);
  }

  // ---------------------------------------------------------------------
  // The page.

  /** The toast a handler raises. */
  datatype Notice = LoginRequired | CommentAdded | ReplyAdded | NoNotice

  /** The forum page's `posts` state and its handlers. */
  class ForumPage {
    var posts: seq<Post>

    constructor(threads: seq<Post>)
      ensures posts == threads
    {
      posts := threads;
    }

    /** `handleVote(postId, direction)`, with `direction` the card's new vote state. */
    method HandleVote(postId: int, direction: Vote)
      modifies this
      ensures posts == VotePosts(old(posts), postId, direction)
    {
      var updated: seq<Post> := [];
      var i := 0;
      while i < |posts|
        invariant 0 <= i <= |posts|
        invariant |updated| == i
        invariant forall k :: 0 <= k < i ==> updated[k] == VotePost(posts[k], postId, direction)
      {
        var post := posts[i];
        if post.id == postId {
          var newLikes := post.likes;
          if post.userVote == Some(Up) && direction == Down {
            newLikes := newLikes - 2;
          } else if post.userVote == Some(Down) && direction == Up {
            newLikes := newLikes + 2;
          } else if post.userVote == Some(Up) && direction == Null {
            newLikes := newLikes - 1;
          } else if post.userVote == Some(Down) && direction == Null {
            newLikes := newLikes + 1;
          } else if post.userVote == Some(Null) && direction == Up {
            newLikes := newLikes + 1;
          } else if post.userVote == Some(Null) && direction == Down {
            newLikes := newLikes - 1;
          }
          post := post.(userVote := Some(direction), likes := newLikes);
        }
        updated := updated + [post];
        i := i + 1;
      }
      posts := updated;
    }

    /** `handleAddComment`; `newId` and `now` stand for `Date.now()` and `new Date()`. */
    method HandleAddComment(user: Option<User>, postId: int, content: string, newId: int, now: int)
      returns (notice: Notice)
      modifies this
      ensures user.None? ==> notice == LoginRequired && posts == old(posts)
      ensures user.Some? ==> (notice == CommentAdded &&
                posts == AddCommentPosts(old(posts), postId, NewComment(user.value, content, newId, now)))
    {
      if user.None? {
        return LoginRequired;
      }
      posts := AddCommentPosts(posts, postId, NewComment(user.value, content, newId, now));
      notice := CommentAdded;
    }

    /** `handleLikeComment`. */
    method HandleLikeComment(user: Option<User>, commentId: int) returns (notice: Notice)
      modifies this
      ensures user.None? ==> notice == LoginRequired && posts == old(posts)
      ensures user.Some? ==> notice == NoNotice && posts == LikePosts(old(posts), commentId)
    {
      if user.None? {
        return LoginRequired;
      }
      posts := LikePosts(posts, commentId);
      notice := NoNotice;
    }

    /** `handleReplyToComment`; `newId` and `now` stand for `Date.now()` and `new Date()`. */
    method HandleReplyToComment(user: Option<User>, commentId: int, content: string, newId: int, now: int)
      returns (notice: Notice)
      modifies this
      ensures user.None? ==> notice == LoginRequired && posts == old(posts)
      ensures user.Some? ==> (notice == ReplyAdded &&
                posts == ReplyPosts(old(posts), commentId, NewComment(user.value, content, newId, now)))
    {
      if user.None? {
        return LoginRequired;
      }
      posts := ReplyPosts(posts, commentId, NewComment(user.value, content, newId, now));
      notice := ReplyAdded;
    }
  }
}
