/**
 * components/comment-section.tsx: the drafts of a post's comment section,
 * the one open reply editor, the "View N comments" button and the
 * submit handlers, which forward nothing for a blank draft.
 */
module CommentSection {
  import opened Wrappers
  import opened Comments
  import Text

  /** The noun of the "View N comment(s)" button: singular exactly for one comment. */
  function CommentNoun(n: int): (r: string)
    ensures r == "comment" <==> n == 1
    ensures r == "comments" <==> n != 1
  {
    if n == 1 then "comment" else "comments"
  }

  /** The collapsed button, when shown: the number of top-level comments and the noun. */
  datatype ViewButton = ViewButton(count: nat, noun: string)

  /** The "View N comments" button appears only while the section is collapsed and has comments. */
  function ViewButtonFor(isExpanded: bool, comments: seq<Comment>): (b: Option<ViewButton>)
    ensures b.Some? <==> !isExpanded && |comments| > 0
    ensures b.Some? ==> b.value.count == |comments| && b.value.noun == CommentNoun(|comments|)
  {
    if !isExpanded && |comments| > 0 then Some(ViewButton(|comments|, CommentNoun(|comments|))) else None
  }

  /** The reply editor is rendered under the top-level comment at index `i` exactly when it is the one being answered. */
  predicate ShowsReplyEditor(isExpanded: bool, replyingTo: Option<int>, comments: seq<Comment>, i: int)
  {
    isExpanded && 0 <= i < |comments| && replyingTo == Some(comments[i].id)
  }

  /** The new-comment editor is rendered only in the expanded section and only for a logged-in user. */
  predicate ShowsCommentEditor(isExpanded: bool, loggedIn: bool)
  {
    isExpanded && loggedIn
  }

  /**
   * `handleReply` is handed down to nested replies too, but the editor is
   * rendered only under top-level comments: answering an id that no
   * top-level comment carries shows no editor at all, and closes the one
   * that was open.
   */
  lemma NestedReplyShowsNoEditor(isExpanded: bool, id: int, comments: seq<Comment>)
    requires forall k :: 0 <= k < |comments| ==> comments[k].id != id
    ensures forall i :: !ShowsReplyEditor(isExpanded, Some(id), comments, i)
  {
  }

  /** Every top-level comment counts towards the occurrences of its own id. */
  lemma {:induction false} TopLevelOccurs(cs: seq<Comment>, k: int)
    requires 0 <= k < |cs|
    ensures ForestOccurrences(cs, cs[k].id) >= 1
    decreases |cs|
  {
    if k > 0 {
      assert cs[1..][k - 1] == cs[k];
      TopLevelOccurs(cs[1..], k - 1);
    }
  }

  /** Two top-level comments at different positions with one id make that id occur twice. */
  lemma {:induction false} TopLevelTwice(cs: seq<Comment>, i: int, j: int)
    requires 0 <= i < j < |cs| && cs[i].id == cs[j].id
    ensures ForestOccurrences(cs, cs[i].id) >= 2
    decreases |cs|
  {
    assert cs[1..][j - 1] == cs[j];
    if i == 0 {
      TopLevelOccurs(cs[1..], j - 1);
    } else {
      assert cs[1..][i - 1] == cs[i];
      TopLevelTwice(cs[1..], i - 1, j - 1);
    }
  }

  /** With unique comment ids, at most one reply editor is open in the section. */
  lemma AtMostOneReplyEditor(isExpanded: bool, replyingTo: Option<int>, comments: seq<Comment>, i: int, j: int)
    requires UniqueIds(comments)
    requires ShowsReplyEditor(isExpanded, replyingTo, comments, i)
    requires ShowsReplyEditor(isExpanded, replyingTo, comments, j)
    ensures i == j
  {
    if i < j {
      TopLevelTwice(comments, i, j);
    } else if j < i {
      TopLevelTwice(comments, j, i);
    }
  }

  /** The local state of one mounted `CommentSection`. */
  class CommentSectionState {
    const postId: int
    var newComment: string
    var replyingTo: Option<int>
    var replyContent: string
    var isExpanded: bool

    constructor(postId: int)
      ensures this.postId == postId
      ensures newComment == "" && replyingTo == None && replyContent == "" && !isExpanded
    {
      this.postId := postId;
      newComment := "";
      replyingTo := None;
      replyContent := "";
      isExpanded := false;
    }

    /** Typing in the new-comment textarea. */
    method EditComment(text: string)
      modifies this
      ensures newComment == text
      ensures replyingTo == old(replyingTo) && replyContent == old(replyContent) && isExpanded == old(isExpanded)
    {
      newComment := text;
    }

    /** Typing in the reply textarea. */
    method EditReply(text: string)
      modifies this
      ensures replyContent == text
      ensures newComment == old(newComment) && replyingTo == old(replyingTo) && isExpanded == old(isExpanded)
    {
      replyContent := text;
    }

    /** The "View N comments" button expands the section. */
    method Expand()
      modifies this
      ensures isExpanded
      ensures newComment == old(newComment) && replyingTo == old(replyingTo) && replyContent == old(replyContent)
    {
      isExpanded := true;
    }

    /**
     * `handleSubmitComment`: a draft that is not blank after trimming is
     * forwarded untrimmed as `onAddComment(postId, draft)` and then cleared;
     * a blank draft is neither forwarded nor cleared.
     */
    method SubmitComment() returns (onAddComment: Option<(int, string)>)
      modifies this
      ensures onAddComment.None? <==> Text.IsBlank(old(newComment))
      ensures onAddComment.Some? ==> onAddComment.value == (postId, old(newComment)) && newComment == ""
      ensures onAddComment.None? ==> newComment == old(newComment)
      ensures Text.IsBlank(newComment)
      ensures replyingTo == old(replyingTo) && replyContent == old(replyContent) && isExpanded == old(isExpanded)
    {
      Text.TrimEmptyIffBlank(newComment);
      if Text.Trim(newComment) != [] {
        onAddComment := Some((postId, newComment));
        newComment := "";
      } else {
        onAddComment := None;
      }
    }

    /**
     * `handleSubmitReply(commentId)`: a non-blank reply draft is forwarded as
     * `onReplyToComment(commentId, draft)`, then the draft is cleared and the
     * editor closed; a blank draft leaves everything as it was.
     */
    method SubmitReply(commentId: int) returns (onReply: Option<(int, string)>)
      modifies this
      ensures onReply.None? <==> Text.IsBlank(old(replyContent))
      ensures onReply.Some? ==> onReply.value == (commentId, old(replyContent)) && replyContent == "" && replyingTo == None
      ensures onReply.None? ==> replyContent == old(replyContent) && replyingTo == old(replyingTo)
      ensures newComment == old(newComment) && isExpanded == old(isExpanded)
    {
      Text.TrimEmptyIffBlank(replyContent);
      if Text.Trim(replyContent) != [] {
        onReply := Some((commentId, replyContent));
        replyContent := "";
        replyingTo := None;
      } else {
        onReply := None;
      }
    }

    /**
     * `handleReply(commentId)`: records the comment being answered and
     * clears the reply draft. The editor appears only when that comment is
     * a top-level one (`NestedReplyShowsNoEditor`).
     */
    method Reply(commentId: int)
      modifies this
      ensures replyingTo == Some(commentId) && replyContent == ""
      ensures newComment == old(newComment) && isExpanded == old(isExpanded)
    {
      replyingTo := Some(commentId);
      replyContent := "";
    }

    /** The reply editor's Cancel button closes it and keeps the draft. */
    method CancelReply()
      modifies this
      ensures replyingTo == None
      ensures newComment == old(newComment) && replyContent == old(replyContent) && isExpanded == old(isExpanded)
    {
      replyingTo := None;
    }
  }
}
