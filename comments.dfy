/**
 * components/comment.tsx: the comment record, the recursive reply tree it
 * forms, and the rules by which one `Comment` component renders itself and
 * its replies.
 */
module Comments {
  import opened Wrappers

  /** `CommentAuthor` (and the identically shaped `PostAuthor`). */
  datatype Author = Author(name: string, avatar: Option<string>, initials: string)

  /**
   * `CommentData`. `liked` and `replies` are optional fields; an absent
   * `replies` and an empty one are different values (an empty array is
   * truthy in JavaScript). `createdAt` is a timestamp in milliseconds.
   */
  datatype Comment = Comment(
    id: int,
    author: Author,
    content: string,
    likes: int,
    createdAt: int,
    liked: Option<bool>,
    replies: ReplyField)

  /**
   * The optional `replies` array. (A dedicated datatype rather than
   * `Option<seq<Comment>>`, so that recursion into the replies is seen to
   * terminate.)
   */
  datatype ReplyField = Absent | Present(items: seq<Comment>)

  /** `comment.replies ?? []`. */
  function Replies(c: Comment): seq<Comment> {
    match c.replies
    case Absent => []
    case Present(rs) => rs
  }

  /** The like flag as the UI reads it: absent counts as not liked. */
  predicate IsLiked(c: Comment) {
    c.liked == Some(true)
  }

  /** Number of nodes in the tree rooted at `c`. */
  function Size(c: Comment): nat
    decreases c
  {
    1 + match c.replies
        case Absent => 0
        case Present(rs) => ForestSize(rs)
  }

  /** Number of nodes in a forest, counting every depth. */
  function ForestSize(cs: seq<Comment>): nat
    decreases cs
  {
    if cs == [] then 0 else Size(cs[0]) + ForestSize(cs[1..])
  }

  /** How many nodes of the tree rooted at `c` carry `id`. */
  function Occurrences(c: Comment, id: int): nat
    decreases c
  {
    (if c.id == id then 1 else 0) +
    match c.replies
    case Absent => 0
    case Present(rs) => ForestOccurrences(rs, id)
  }

  /** How many nodes of the forest carry `id`, at any depth. */
  function ForestOccurrences(cs: seq<Comment>, id: int): nat
    decreases cs
  {
    if cs == [] then 0 else Occurrences(cs[0], id) + ForestOccurrences(cs[1..], id)
  }

  /** Ids are unique across the whole forest. */
  ghost predicate UniqueIds(cs: seq<Comment>) {
    forall id :: ForestOccurrences(cs, id) <= 1
  }

  lemma {:induction false} ForestSizeAppend(cs: seq<Comment>, ds: seq<Comment>)
    ensures ForestSize(cs + ds) == ForestSize(cs) + ForestSize(ds)
  {
    if cs == [] {
      assert cs + ds == ds;
    } else {
      assert (cs + ds)[1..] == cs[1..] + ds;
      ForestSizeAppend(cs[1..], ds);
    }
  }

  lemma {:induction false} ForestOccurrencesAppend(cs: seq<Comment>, ds: seq<Comment>, id: int)
    ensures ForestOccurrences(cs + ds, id) == ForestOccurrences(cs, id) + ForestOccurrences(ds, id)
  {
    if cs == [] {
      assert cs + ds == ds;
    } else {
      assert (cs + ds)[1..] == cs[1..] + ds;
      ForestOccurrencesAppend(cs[1..], ds, id);
    }
  }

  /** Depth-first lookup: the first node of the tree rooted at `c`, in pre-order, that carries `id`. */
  function FindIn(c: Comment, id: int): Option<Comment>
    decreases c
  {
    if c.id == id then Some(c) else
      match c.replies
      case Absent => None
      case Present(rs) => Find(rs, id)
  }

  /** Depth-first lookup over a forest: the first node, in pre-order, that carries `id`. */
  function Find(cs: seq<Comment>, id: int): Option<Comment>
    decreases cs
  {
    if cs == [] then None else
      var f := FindIn(cs[0], id);
      if f.Some? then f else Find(cs[1..], id)
  }

  /** The lookup succeeds exactly when the id occurs, and what it finds carries the id. */
  lemma {:induction false} FindInSomeIff(c: Comment, id: int)
    ensures FindIn(c, id).Some? <==> Occurrences(c, id) > 0
    ensures FindIn(c, id).Some? ==> FindIn(c, id).value.id == id
    decreases c
  {
    match c.replies
    case Absent =>
    case Present(rs) => FindSomeIff(rs, id);
  }

  lemma {:induction false} FindSomeIff(cs: seq<Comment>, id: int)
    ensures Find(cs, id).Some? <==> ForestOccurrences(cs, id) > 0
    ensures Find(cs, id).Some? ==> Find(cs, id).value.id == id
    decreases cs
  {
    if cs != [] {
      FindInSomeIff(cs[0], id);
      FindSomeIff(cs[1..], id);
    }
  }

  // ---------------------------------------------------------------------
  // Rendering rules of one `Comment` component.

  /** The default `level` and `maxLevel` props. */
  const DefaultLevel: int := 0
  const DefaultMaxLevel: int := 3

  /** `canNest`: the Reply action is offered only above the nesting limit. */
  predicate CanNest(level: int, maxLevel: int) {
    level < maxLevel
  }

  /** `hasReplies`: the `replies` field is present and non-empty. */
  predicate HasReplies(c: Comment) {
    c.replies.Present? && |c.replies.items| > 0
  }

  /** The noun after a reply count: singular exactly for one. */
  function ReplyNoun(n: int): (noun: string)
    ensures noun == "reply" <==> n == 1
    ensures noun == "replies" <==> n != 1
  {
    if n == 1 then "reply" else "replies"
  }

  /** The show/hide button of a nested comment. */
  datatype RepliesToggle = NoToggle | HideReplies | ShowReplies(count: nat, noun: string)

  /** What one rendered comment shows: its like badge, actions and rendered replies. */
  datatype View = View(
    id: int,
    level: int,
    likeBadge: Option<int>,
    canReply: bool,
    toggle: RepliesToggle,
    children: seq<View>)

  /**
   * The `showReplies` flag of the component instance for `c` at `level`: it
   * starts as `level == 0` and each click on the toggle flips it; `flipped`
   * holds the ids whose instance has been flipped an odd number of times.
   */
  predicate ShowsReplies(c: Comment, level: int, flipped: set<int>) {
    (level == 0) != (c.id in flipped)
  }

  /** The rendered tree of a `Comment` component and, recursively, of its replies. */
  function Render(c: Comment, level: int, maxLevel: int, flipped: set<int>): (v: View)
    ensures v.id == c.id && v.level == level
    ensures v.canReply <==> CanNest(level, maxLevel)
    ensures v.likeBadge == (if c.likes > 0 then Some(c.likes) else None)
    ensures v.toggle != NoToggle <==> HasReplies(c) && level > 0
    ensures HasReplies(c) && level > 0 ==>
              v.toggle == (if ShowsReplies(c, level, flipped) then HideReplies
                           else ShowReplies(|Replies(c)|, ReplyNoun(|Replies(c)|)))
    ensures v.children != [] ==> HasReplies(c) && ShowsReplies(c, level, flipped)
    ensures HasReplies(c) && ShowsReplies(c, level, flipped) ==>
              |v.children| == |Replies(c)| &&
              forall i :: 0 <= i < |v.children| ==>
                v.children[i] == Render(Replies(c)[i], level + 1, maxLevel, flipped)
    decreases c
  {
    var show := ShowsReplies(c, level, flipped);
    var n := |Replies(c)|;
    View(
      c.id,
      level,
      if c.likes > 0 then Some(c.likes) else None,
      CanNest(level, maxLevel),
      if HasReplies(c) && level > 0 then
        (if show then HideReplies else ShowReplies(n, ReplyNoun(n)))
      else NoToggle,
      if HasReplies(c) && show then RenderAll(c.replies.items, level + 1, maxLevel, flipped) else [])
  }

  /** The replies mapped, in array order, to components one level deeper with the same `maxLevel`. */
  function RenderAll(cs: seq<Comment>, level: int, maxLevel: int, flipped: set<int>): (vs: seq<View>)
    ensures |vs| == |cs|
    ensures forall i :: 0 <= i < |cs| ==> vs[i] == Render(cs[i], level, maxLevel, flipped)
    decreases cs
  {
    if cs == [] then [] else [Render(cs[0], level, maxLevel, flipped)] + RenderAll(cs[1..], level, maxLevel, flipped)
  }

  /** No rendered node at or past `maxLevel` offers Reply. */
  ghost predicate ReplyOnlyBelow(v: View, maxLevel: int)
    decreases v
  {
    (v.canReply ==> v.level < maxLevel) &&
    forall i :: 0 <= i < |v.children| ==> ReplyOnlyBelow(v.children[i], maxLevel)
  }

  /** Every rendered node sits at its parent's level plus one. */
  ghost predicate LevelsIncrease(v: View)
    decreases v
  {
    forall i :: 0 <= i < |v.children| ==>
      v.children[i].level == v.level + 1 && LevelsIncrease(v.children[i])
  }

  /** However the toggles were clicked, the Reply action stays within the nesting limit and levels grow by one. */
  lemma {:induction false} RenderRespectsNesting(c: Comment, level: int, maxLevel: int, flipped: set<int>)
    ensures ReplyOnlyBelow(Render(c, level, maxLevel, flipped), maxLevel)
    ensures LevelsIncrease(Render(c, level, maxLevel, flipped))
    decreases c
  {
    var v := Render(c, level, maxLevel, flipped);
    forall i | 0 <= i < |v.children|
      ensures ReplyOnlyBelow(v.children[i], maxLevel) && LevelsIncrease(v.children[i])
      ensures v.children[i].level == level + 1
    {
      assert Replies(c)[i] in c.replies.items;
      RenderRespectsNesting(Replies(c)[i], level + 1, maxLevel, flipped);
    }
  }

  /** On first render only the top level is expanded: a root shows its replies, and they show none. */
  lemma InitialRenderDepth(c: Comment, maxLevel: int)
    ensures var v := Render(c, DefaultLevel, maxLevel, {});
            |v.children| == (if HasReplies(c) then |Replies(c)| else 0) &&
            forall i :: 0 <= i < |v.children| ==> v.children[i].children == []
  {
    var v := Render(c, DefaultLevel, maxLevel, {});
    forall i | 0 <= i < |v.children| ensures v.children[i].children == [] {
      var child := Render(Replies(c)[i], 1, maxLevel, {});
      assert !ShowsReplies(Replies(c)[i], 1, {});
    }
  }

  /** With the default props, Reply is offered at levels 0, 1 and 2 and no deeper. */
  lemma DefaultNesting(level: int)
    requires level >= DefaultLevel
    ensures CanNest(level, DefaultMaxLevel) <==> level in {0, 1, 2}
  {
  }

  /**
   * The state of one mounted `Comment` component: its props and the
   * `showReplies` flag.
   */
  class CommentWidget {
    const comment: Comment
    const level: int
    const maxLevel: int
    var showReplies: bool

    constructor(comment: Comment, level: int, maxLevel: int)
      ensures this.comment == comment && this.level == level && this.maxLevel == maxLevel
      ensures showReplies == (level == 0)
    {
      this.comment := comment;
      this.level := level;
      this.maxLevel := maxLevel;
      showReplies := level == 0;
    }

    /** The show/hide button is rendered only for a nested comment that has replies. */
    predicate ToggleVisible()
      reads this
    {
      HasReplies(comment) && level > 0
    }

    /** The toggle's click handler; it exists only while the button is rendered. */
    method ToggleReplies()
      requires ToggleVisible()
      modifies this
      ensures showReplies == !old(showReplies)
    {
      showReplies := !showReplies;
    }

    /** `handleLike`: forwards the comment's id to `onLike` when that prop is given. */
    method HandleLike(hasOnLike: bool) returns (onLike: Option<int>)
      ensures onLike == (if hasOnLike then Some(comment.id) else None)
    {
      onLike := None;
      if hasOnLike {
        onLike := Some(comment.id);
      }
    }

    /** `handleReply`: reachable only through the Reply button, which exists only when `canNest`. */
    method HandleReply(hasOnReply: bool) returns (onReply: Option<int>)
      requires CanNest(level, maxLevel)
      ensures onReply == (if hasOnReply then Some(comment.id) else None)
    {
      onReply := None;
      if hasOnReply {
        onReply := Some(comment.id);
      }
    }
  }
}
