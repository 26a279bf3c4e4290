/**
 * app/feed/page.tsx: the feed's post list, its vote handler (which records
 * only the new vote state) and post creation, whose delayed completion
 * works on the list and the draft captured when the button was clicked.
 */
module Feed {
  import opened Wrappers
  import opened Auth
  import opened Comments
  import opened PostCard
  import Text
  import Forum

  /** `handleVote` of the feed and the profile: the matching posts take the new vote state, nothing else changes. */
  function SetUserVote(posts: seq<Post>, postId: int, direction: Vote): (r: seq<Post>)
    ensures |r| == |posts|
    ensures forall i :: 0 <= i < |posts| && posts[i].id != postId ==> r[i] == posts[i]
    ensures forall i :: 0 <= i < |posts| && posts[i].id == postId ==> r[i] == posts[i].(userVote := Some(direction))
  {
    seq(|posts|, i requires 0 <= i < |posts| =>
      if posts[i].id == postId then posts[i].(userVote := Some(direction)) else posts[i])
  }

  /** Recording a vote state in the feed never changes a score. */
  lemma SetUserVoteKeepsScores(posts: seq<Post>, postId: int, direction: Vote)
    ensures forall i :: 0 <= i < |posts| ==> SetUserVote(posts, postId, direction)[i].likes == posts[i].likes
  {
  }

  /** The last vote state recorded for a post wins. */
  lemma SetUserVoteLastWins(posts: seq<Post>, postId: int, d1: Vote, d2: Vote)
    ensures SetUserVote(SetUserVote(posts, postId, d1), postId, d2) == SetUserVote(posts, postId, d2)
  {
    var once := SetUserVote(posts, postId, d1);
    var twice := SetUserVote(once, postId, d2);
    var direct := SetUserVote(posts, postId, d2);
    forall i | 0 <= i < |posts|
      ensures twice[i] == direct[i]
    {
      assert once[i].id == posts[i].id;
    }
  }

  /**
   * The feed keeps the same vote states as the forum's `handleVote` but not
   * its scores: the two lists differ only in `likes`.
   */
  lemma FeedAndForumVotesAgreeOnState(posts: seq<Post>, postId: int, direction: Vote)
    ensures var feed := SetUserVote(posts, postId, direction);
      var forum := Forum.VotePosts(posts, postId, direction);
      |feed| == |forum| &&
      forall i :: 0 <= i < |feed| ==> forum[i].(likes := feed[i].likes) == feed[i]
  {
  }

  /** `user?.name || "Anonymous"`: the author name of a new post. */
  function AuthorName(user: Option<User>): (r: string)
    ensures r != []
    ensures user.Some? && user.value.name != [] ==> r == user.value.name
    ensures user.None? || user.value.name == [] ==> r == "Anonymous"
  {
    if user.Some? && user.value.name != [] then user.value.name else "Anonymous"
  }

  /** `user?.name?.charAt(0) || "A"`: the initials of a new post's author. */
  function AuthorInitials(user: Option<User>): (r: string)
    ensures |r| == 1
    ensures user.Some? && user.value.name != [] ==> r == user.value.name[..1]
    ensures user.None? || user.value.name == [] ==> r == "A"
  {
    var first := if user.Some? then Text.FirstChar(user.value.name) else [];
    if first != [] then first else "A"
  }

  /** The initials are always the first character of the displayed author name. */
  lemma InitialsMatchAuthorName(user: Option<User>)
    ensures AuthorInitials(user) == Text.FirstChar(AuthorName(user))
  {
  }

  /** `user.name.split(" ")[0]`: the part of the name before its first space, used in the draft's placeholder. */
  function FirstWord(name: string): (r: string)
    ensures |r| <= |name| && r == name[..|r|]
    ensures ' ' !in r
    ensures |r| < |name| ==> name[|r|] == ' '
  {
    if name == [] || name[0] == ' ' then [] else [name[0]] + FirstWord(name[1..])
  }

  /** The post `handleCreatePost` publishes; `now` stands for `Date.now()`. */
  function NewPost(user: Option<User>, content: string, now: int): (p: Post)
    ensures p.id == now && p.content == content
    ensures p.author == Author(AuthorName(user), None, AuthorInitials(user))
    ensures p.community == Community("Web Development", 1)
    ensures p.likes == 0 && p.comments == 0 && p.image.None? && p.time == "Just now"
    ensures p.userVote == Some(Null) && p.commentData.None?
  {
    Post(now, Author(AuthorName(user), None, AuthorInitials(user)), Community("Web Development", 1),
      content, None, 0, 0, "Just now", Some(Null), None)
  }

  /** What the timer scheduled by a click on Post captured: the user, the draft and the list of that render. */
  datatype Pending = Pending(user: Option<User>, content: string, snapshot: seq<Post>)

  /** The result of clicking Post: nothing while disabled, the "Empty post" toast, or a scheduled publication. */
  datatype CreateStart = Disabled | EmptyPost | Scheduled(pending: Pending)

  /** The label of the Post button. */
  function PostButtonLabel(isSubmitting: bool): (r: string)
    ensures isSubmitting ==> r == "Posting..."
    ensures !isSubmitting ==> r == "Post"
  {
    if isSubmitting then "Posting..." else "Post"
  }

  /** The list after publication: the new post first, then the captured list. */
  function Publish(pending: Pending, now: int): (r: seq<Post>)
    ensures |r| == |pending.snapshot| + 1
    ensures r[0] == NewPost(pending.user, pending.content, now) && r[1..] == pending.snapshot
  {
    [NewPost(pending.user, pending.content, now)] + pending.snapshot
  }

  /**
   * A vote recorded while the publication is pending is lost: publishing
   * overwrites the list with the captured one, so the voted post comes
   * back with its old vote state.
   */
  lemma VoteDuringDelayIsLost(pending: Pending, postId: int, direction: Vote, now: int, i: int)
    requires 0 <= i < |pending.snapshot| && pending.snapshot[i].id == postId
    requires pending.snapshot[i].userVote != Some(direction)
    ensures SetUserVote(pending.snapshot, postId, direction)[i] != Publish(pending, now)[i + 1]
  {
  }

  /** The feed page's state. */
  class FeedPage {
    var posts: seq<Post>
    var newPostContent: string
    var isSubmitting: bool

    constructor(initialPosts: seq<Post>)
      ensures posts == initialPosts && newPostContent == "" && !isSubmitting
    {
      posts := initialPosts;
      newPostContent := "";
      isSubmitting := false;
    }

    /** Typing in the draft textarea. */
    method EditDraft(text: string)
      modifies this
      ensures newPostContent == text && posts == old(posts) && isSubmitting == old(isSubmitting)
    {
      newPostContent := text;
    }

    /** `handleVote`, the `onVote` of every card. */
    method HandleVote(postId: int, direction: Vote)
      modifies this
      ensures posts == SetUserVote(old(posts), postId, direction)
      ensures newPostContent == old(newPostContent) && isSubmitting == old(isSubmitting)
    {
      posts := SetUserVote(posts, postId, direction);
    }

    /**
     * A click on Post: ignored while the button is disabled; a blank draft
     * raises "Empty post" and changes nothing; otherwise the page is marked
     * submitting and the publication is scheduled with what this render saw.
     */
    method StartCreatePost(user: Option<User>) returns (outcome: CreateStart)
      modifies this
      ensures old(isSubmitting) ==> outcome == Disabled && isSubmitting
      ensures !old(isSubmitting) && Text.IsBlank(old(newPostContent)) ==> outcome == EmptyPost && !isSubmitting
      ensures !old(isSubmitting) && !Text.IsBlank(old(newPostContent)) ==>
                outcome == Scheduled(Pending(user, old(newPostContent), old(posts))) && isSubmitting
      ensures posts == old(posts) && newPostContent == old(newPostContent)
    {
      if isSubmitting {
        return Disabled;
      }
      Text.TrimEmptyIffBlank(newPostContent);
      if Text.Trim(newPostContent) == [] {
        return EmptyPost;
      }
      isSubmitting := true;
      outcome := Scheduled(Pending(user, newPostContent, posts));
    }

    /** The timer firing: the captured list gets the new post in front, the draft is cleared. */
    method FinishCreatePost(pending: Pending, now: int)
      modifies this
      ensures posts == Publish(pending, now)
      ensures newPostContent == "" && !isSubmitting
    {
      posts := [NewPost(pending.user, pending.content, now)] + pending.snapshot;
      newPostContent := "";
      isSubmitting := false;
    }
  }
}
