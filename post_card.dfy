/**
 * components/post-card.tsx: the `Post` record, the vote state machine of a
 * post card (retraction rule and six-row score table) and the card's local
 * comment counter.
 */
module PostCard {
  import opened Wrappers
  import opened Comments

  /** A vote state: `"up" | "down" | null`. */
  datatype Vote = Up | Down | Null

  /** A clicked vote button: `"up" | "down"`. */
  type Direction = v: Vote | v != Null witness Up

  /** `PostCommunity`. */
  datatype Community = Community(name: string, id: int)

  /**
   * `Post`. `userVote` is optional: `None` is the field left out
   * (`undefined`), `Some(Null)` is an explicit `null`.
   */
  datatype Post = Post(
    id: int,
    author: Author,
    community: Community,
    content: string,
    image: Option<string>,
    likes: int,
    comments: int,
    time: string,
    userVote: Option<Vote>,
    commentData: Option<seq<Comment>>)

  /** What a vote state contributes to the score: +1, -1 or 0. */
  function Weight(v: Vote): (w: int)
    ensures -1 <= w <= 1
    ensures w == 0 <==> v == Null
  {
    match v
    case Up => 1
    case Down => -1
    case Null => 0
  }

  /** The vote state after clicking `d`: clicking the current direction retracts the vote. */
  function NextVote(prior: Option<Vote>, d: Direction): (v: Vote)
    ensures v == Null <==> prior == Some(d)
    ensures v != Null ==> v == d
  {
    if prior == Some(d) then Null else d
  }

  /**
   * The score change for moving from `prior` to `next`: the six listed
   * transitions, and 0 for every other pair, including an absent prior.
   */
  function Delta(prior: Option<Vote>, next: Vote): (delta: int)
    ensures prior.Some? ==> delta == Weight(next) - Weight(prior.value)
    ensures prior.None? ==> delta == 0
  {
    match (prior, next)
    case (Some(Up), Down) => -2
    case (Some(Down), Up) => 2
    case (Some(Up), Null) => -1
    case (Some(Down), Null) => 1
    case (Some(Null), Up) => 1
    case (Some(Null), Down) => -1
    case _ => 0
  }

  /** The post after a logged-in click on `d`; only `likes` and `userVote` change. */
  function Click(p: Post, d: Direction): (q: Post)
    ensures q.userVote == Some(NextVote(p.userVote, d))
    ensures q.likes == p.likes + Delta(p.userVote, NextVote(p.userVote, d))
    ensures q.(likes := p.likes, userVote := p.userVote) == p
  {
    var next := NextVote(p.userVote, d);
    p.(likes := p.likes + Delta(p.userVote, next), userVote := Some(next))
  }

  /** The post after a sequence of logged-in clicks. */
  function Clicks(p: Post, ds: seq<Direction>): (q: Post)
    ensures q.(likes := p.likes, userVote := p.userVote) == p
    ensures ds != [] ==> q.userVote.Some?
    decreases |ds|
  {
    if ds == [] then p else Clicks(Click(p, ds[0]), ds[1..])
  }

  /** Once `userVote` is set, `likes` minus the caller's own vote weight never changes. */
  lemma ClickKeepsBaseScore(p: Post, d: Direction)
    requires p.userVote.Some?
    ensures Click(p, d).userVote.Some?
    ensures Click(p, d).likes - Weight(Click(p, d).userVote.value) == p.likes - Weight(p.userVote.value)
  {
  }

  /**
   * Starting from `userVote == null`, after any sequence of clicks the score
   * has moved by exactly the weight of the final vote state: +1, -1 or 0.
   */
  lemma {:induction false} ClicksFromNull(p: Post, ds: seq<Direction>)
    requires p.userVote == Some(Null)
    ensures Clicks(p, ds).userVote.Some?
    ensures Clicks(p, ds).likes - p.likes == Weight(Clicks(p, ds).userVote.value)
    ensures Clicks(p, ds).(likes := p.likes, userVote := p.userVote) == p
  {
    if ds != [] {
      var q := Click(p, ds[0]);
      ClicksKeepBaseScore(q, ds[1..]);
    }
  }

  /** Invariant form of `ClicksFromNull`, for any set starting state. */
  lemma {:induction false} ClicksKeepBaseScore(p: Post, ds: seq<Direction>)
    requires p.userVote.Some?
    ensures Clicks(p, ds).userVote.Some?
    ensures Clicks(p, ds).likes - Weight(Clicks(p, ds).userVote.value) == p.likes - Weight(p.userVote.value)
    ensures Clicks(p, ds).(likes := p.likes, userVote := p.userVote) == p
    decreases |ds|
  {
    if ds != [] {
      ClickKeepsBaseScore(p, ds[0]);
      ClicksKeepBaseScore(Click(p, ds[0]), ds[1..]);
    }
  }

  /**
   * Clicking the same button twice restores the post exactly when the
   * caller had no vote or had already voted that way; from the opposite
   * vote it ends retracted, and from an absent `userVote` it ends one off.
   */
  lemma ClickTwiceRestores(p: Post, d: Direction)
    ensures Click(Click(p, d), d) == p <==> p.userVote == Some(Null) || p.userVote == Some(d)
  {
    var once := Click(p, d);
    var twice := Click(once, d);
    if p.userVote != Some(Null) && p.userVote != Some(d) {
      assert twice.userVote == Some(Null) || twice.likes != p.likes;
    }
  }

  /**
   * With `userVote` absent, the first click is scored 0 (the table has no
   * row for `undefined`), so clicking twice leaves the score one vote off.
   */
  lemma AbsentVoteClickedTwice(p: Post)
    requires p.userVote.None?
    ensures Click(p, Up).likes == p.likes && Click(p, Up).userVote == Some(Up)
    ensures Click(Click(p, Up), Up).likes == p.likes - 1
    ensures Click(Click(p, Up), Up) != p
  {
  }

  /** The exhaustive transition table: each (prior state, button) pair and its (new state, score change). */
  lemma TransitionTable()
    ensures NextVote(Some(Null), Up) == Up && Delta(Some(Null), Up) == 1
    ensures NextVote(Some(Null), Down) == Down && Delta(Some(Null), Down) == -1
    ensures NextVote(Some(Up), Up) == Null && Delta(Some(Up), Null) == -1
    ensures NextVote(Some(Up), Down) == Down && Delta(Some(Up), Down) == -2
    ensures NextVote(Some(Down), Down) == Null && Delta(Some(Down), Null) == 1
    ensures NextVote(Some(Down), Up) == Up && Delta(Some(Down), Up) == 2
    ensures forall d: Direction :: NextVote(None, d) == d && Delta(None, d) == 0
  {
  }

  /** The call `onVote(postId, newVoteState)` the card makes to its parent. */
  datatype VoteCall = VoteCall(postId: int, vote: Vote)

  /** What `handleVote` does: refuse (toast "Login required") or apply the vote. */
  datatype VoteOutcome = NeedsLogin | Voted(onVote: Option<VoteCall>)

  /** The state of one mounted `PostCard`: its local copy of the post and the voting flag. */
  class PostCardState {
    var currentPost: Post
    var isVoting: bool

    constructor(post: Post)
      ensures currentPost == post && !isVoting
    {
      currentPost := post;
      isVoting := false;
    }

    /**
     * `handleVote`. Without a user nothing changes. Otherwise the new vote
     * state and the score change are computed, the post is updated, and the
     * parent's `onVote` (when given) receives the new state, not the button.
     */
    method HandleVote(loggedIn: bool, hasOnVote: bool, direction: Direction) returns (outcome: VoteOutcome)
      modifies this
      ensures !loggedIn ==> outcome == NeedsLogin && currentPost == old(currentPost) && isVoting == old(isVoting)
      ensures loggedIn ==> currentPost == Click(old(currentPost), direction) && !isVoting
      ensures loggedIn ==> outcome == Voted(
        if hasOnVote then Some(VoteCall(old(currentPost).id, NextVote(old(currentPost).userVote, direction))) else None)
    {
      if !loggedIn {
        return NeedsLogin;
      }
      isVoting := true;

      var newVoteState: Vote := direction;
      if currentPost.userVote == Some(direction) {
        newVoteState := Null;
      }

      var voteChange := 0;
      if currentPost.userVote == Some(Up) && newVoteState == Down {
        voteChange := -2;
      } else if currentPost.userVote == Some(Down) && newVoteState == Up {
        voteChange := 2;
      } else if currentPost.userVote == Some(Up) && newVoteState == Null {
        voteChange := -1;
      } else if currentPost.userVote == Some(Down) && newVoteState == Null {
        voteChange := 1;
      } else if currentPost.userVote == Some(Null) && newVoteState == Up {
        voteChange := 1;
      } else if currentPost.userVote == Some(Null) && newVoteState == Down {
        voteChange := -1;
      }

      var id := currentPost.id;
      currentPost := currentPost.(likes := currentPost.likes + voteChange, userVote := Some(newVoteState));
      outcome := Voted(if hasOnVote then Some(VoteCall(id, newVoteState)) else None);
      isVoting := false;
    }

    /** `handleAddComment`: forwards `(postId, content)` to the parent and counts one more comment locally. */
    method HandleAddComment(hasOnAddComment: bool, postId: int, content: string)
      returns (onAddComment: Option<(int, string)>)
      modifies this
      ensures onAddComment == (if hasOnAddComment then Some((postId, content)) else None)
      ensures currentPost == old(currentPost).(comments := old(currentPost).comments + 1)
      ensures isVoting == old(isVoting)
    {
      onAddComment := if hasOnAddComment then Some((postId, content)) else None;
      currentPost := currentPost.(comments := currentPost.comments + 1);
    }
  }
}
