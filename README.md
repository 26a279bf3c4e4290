# LearnHub front end: a verified model of its state logic

LearnHub is a Next.js demo front end for learning communities: a feed, a
forum with nested comments, a profile page, a community directory with
join/leave buttons, a route gate and a document viewer. Most of it is markup
over hard-coded data. This project models the event handlers and render rules
that hold real state logic, and proves what they guarantee:

- the vote state machine of a post card and of the forum (the retraction
  rule and the six-row score table);
- the comment forest: root comments, likes and replies at any depth, the
  depth rules of the comment component and the comment section's drafts;
- the feed's and profile's post lists, post creation and the profile's
  edit/save/cancel cycle;
- the community membership list with its storage, the communities page
  and the join button;
- the middleware's route gate and the navbar's route filter;
- the document viewer's page and zoom counters.

Each source file becomes one Dafny module. `Wrappers`, `Text` and `Auth` are
shared helpers: the optional value, JavaScript's `trim`, `startsWith` and
`charAt(0)`, and the signed-in user.

A file whose handlers update component state in place becomes a `class`. Its
fields are the `useState` variables, and each handler is a method with
`modifies this` whose `ensures` gives the whole new state. The pure parts
(the score table, the tree traversals, the filters and the redirect decision)
become functions, and lemmas relate them to one another.

JavaScript values are modelled as they behave:
- `undefined` and `null` are kept apart:
  - an absent `userVote` is `None`, while an explicit `null` is `Some(Null)`;
  - an absent `replies` is `Absent`, while an empty list is `Present([])`;
- an empty list is truthy;
- `!undefined` is `true`;
- `trim` removes the ECMAScript white-space and line-terminator characters.

Values that come from outside become parameters:
- the signed-in user;
- `Date.now()` and `new Date()`;
- the presence of the `auth` cookie;
- the parsed contents of `localStorage`;
- whether an optional callback prop was given.

Where the code differs from an idealised reading of the system, the model
follows the code:
- The comment counter is not tied to the node count. The demo thread 1
  shows 12 comments but holds 3 nodes (`Forum.DemoCounterDisagrees`). A reply
  raises the counter of every thread that has comments, found or not
  (`Forum.ReplyBumpsEveryThread`).
- A like or reply to a missing id is not an error. It leaves the forest
  unchanged and still raises every thread's counter.
- Duplicate ids are not detected. The like traversal toggles every
  outermost match, and the reply traversal adds one reply under each.
- Blank comments and replies are refused one level up, in the comment
  section. The forum's handlers accept any text.
- An absent `userVote` matches no row of the score table, so its first click
  scores 0 (`PostCard.AbsentVoteClickedTwice`).
- The feed's and profile's vote handlers record only the new vote state and
  never change a score.
- Feed post creation runs in two steps. The click captures the list and
  the draft, and a timer callback fires after a delay. The publication then
  overwrites any vote recorded in between (`Feed.VoteDuringDelayIsLost`).
- Joining a community appends its id even when it is already present.
  Leaving removes every copy.
- Nested replies below the nesting limit get a Reply button, but the editor is drawn only
  under top-level comments. Answering a nested reply therefore shows no editor
  and closes any editor that was open
  (`CommentSection.NestedReplyShowsNoEditor`).
- The navbar's user comes from the auth context, which stores the user in
  `localStorage` only. The route gate looks for an `auth` cookie, which neither
  the auth context nor any modelled file sets. A signed-in user without it is sent
  from the logo and the Feed link back to `/`
  (`Navbar.SignedInWithoutCookieIsTurnedBack`).

## Model

| member | source | states |
|---|---|---|
| PostCard.Weight | components/post-card.tsx:87-107 | a vote state contributes +1, -1 or 0 to the score: the weight lies between -1 and 1 and is 0 exactly for null |
| PostCard.NextVote | components/post-card.tsx:79-84 | the new vote state is null exactly when the clicked direction equals the current vote, otherwise it is the clicked direction |
| PostCard.Delta | components/post-card.tsx:87-107 | for a set prior vote the score change is the weight of the new state minus the weight of the old; an absent prior gives 0 |
| PostCard.Click | components/post-card.tsx:110-114 | a logged-in click sets `userVote` to the new state and adds the delta to `likes`; no other field changes |
| PostCard.Clicks | components/post-card.tsx:79-114 | a sequence of logged-in clicks changes only `likes` and `userVote`, and after at least one click the vote state is set |
| PostCard.TransitionTable | components/post-card.tsx:79-107 | each of the six (prior, button) pairs gives the listed new state and score change; an absent prior keeps the button and scores 0 |
| PostCard.ClicksFromNull | components/post-card.tsx:79-114 | from `userVote` null, after any click sequence the score has moved by exactly +1, -1 or 0 for a final up, down or null, and no other field changed |
| PostCard.ClicksKeepBaseScore | components/post-card.tsx:79-114 | once the vote is set, `likes` minus the weight of the current vote is invariant under any click sequence |
| PostCard.ClickTwiceRestores | components/post-card.tsx:79-114 | clicking the same button twice restores the post if and only if the prior vote was null or already that direction |
| PostCard.AbsentVoteClickedTwice | components/post-card.tsx:89-107 | with `userVote` absent, up then up leaves the score one below the start |
| PostCard.PostCardState.HandleVote | components/post-card.tsx:65-134 | without a user nothing changes and login is required; with one the post becomes `Click(post, d)`, `isVoting` ends false, and `onVote` (when given) receives the new state, not the button |
| PostCard.PostCardState.HandleAddComment | components/post-card.tsx:136-146 | forwards `(postId, content)` when the callback is given and raises the local comment count by exactly one |
| PostCard.PostCardState.constructor | components/post-card.tsx:61-62 | the card starts with its post and not voting |
| Comments.CanNest | components/comment.tsx:36 | the Reply action is offered exactly when the level is below `maxLevel` |
| Comments.HasReplies | components/comment.tsx:35 | a comment has replies exactly when its `replies` field is present and non-empty; an absent field counts as none |
| Comments.ShowsReplies | components/comment.tsx:34-88 | a comment instance shows its replies when it starts at level 0 and has been toggled an even number of times, or starts deeper and has been toggled an odd number of times |
| Comments.ReplyNoun | components/comment.tsx:86 | the noun is "reply" exactly for one reply and "replies" otherwise |
| Comments.Render | components/comment.tsx:33-106 | Reply is offered iff `level < maxLevel`; the like count shows iff positive; the show/hide toggle exists iff the comment has non-empty replies and `level > 0`, and reads "Hide replies" while the replies show and "Show n reply/replies" (count and `ReplyNoun`) otherwise; shown children are the replies in order at `level + 1` with the same `maxLevel` |
| Comments.RenderAll | components/comment.tsx:95-104 | the replies are rendered one by one in array order |
| Comments.FindInSomeIff | components/comment.tsx:15-23 | the depth-first lookup in a tree succeeds iff the id occurs in it, and finds a node carrying the id |
| Comments.FindSomeIff | components/comment.tsx:15-23 | the depth-first lookup in a forest succeeds iff the id occurs at some depth, and finds a node carrying the id |
| Comments.RenderRespectsNesting | components/comment.tsx:36-104 | however the toggles were clicked, no rendered node at or below `maxLevel` offers Reply, and every child sits one level below its parent |
| Comments.InitialRenderDepth | components/comment.tsx:34-106 | on first render a root shows all its replies and none of them shows its own |
| Comments.DefaultNesting | components/comment.tsx:33-36 | with the default props, Reply exists exactly at levels 0, 1 and 2 |
| Comments.CommentWidget.constructor | components/comment.tsx:34 | `showReplies` starts true exactly at level 0 |
| Comments.CommentWidget.ToggleVisible | components/comment.tsx:77 | the show/hide button is rendered exactly for a comment below level 0 whose replies are present and non-empty |
| Comments.CommentWidget.ToggleReplies | components/comment.tsx:77-88 | the toggle, which exists only for nested comments with replies, flips `showReplies` |
| Comments.CommentWidget.HandleLike | components/comment.tsx:40-44 | forwards the comment's id exactly when `onLike` is given |
| Comments.CommentWidget.HandleReply | components/comment.tsx:46-76 | reachable only when nesting is allowed; forwards the id exactly when `onReply` is given |
| Forum.ToggleLike | app/forum/page.tsx:295-316 | a matching comment flips `liked` (absent counts as false) with `likes` +1 when now liked and -1 otherwise, no other field changes and its replies are not visited; a non-matching comment keeps every field but `replies`, and keeps its node count |
| Forum.ToggleLikes | app/forum/page.tsx:295-317 | the traversal maps every comment in order and keeps the list length and node count; how deep it reaches is in `LikeReachesAnyDepth` |
| Forum.ForestHitsBound | app/forum/page.tsx:295-374 | the traversals stop at some node iff the id occurs, and at no more nodes than carry it |
| Forum.HitsBound | app/forum/page.tsx:295-372 | within one tree, the traversals stop at some node iff the id occurs, and at no more nodes than carry it |
| Forum.ToggleLikesAbsent | app/forum/page.tsx:295-317 | liking an id that does not occur returns the forest unchanged |
| Forum.ToggleLikeAbsent | app/forum/page.tsx:295-316 | a tree in which the id does not occur is left unchanged by liking |
| Forum.ToggleLikeTwice | app/forum/page.tsx:295-316 | with the `liked` flags present, liking the same id twice restores the comment tree exactly |
| Forum.ToggleLikesTwice | app/forum/page.tsx:295-317 | with the `liked` flags present, liking the same id twice restores the forest |
| Forum.ToggleLikeTwiceAbsentFlag | app/forum/page.tsx:299-303 | with `liked` absent, two likes restore the count but leave an explicit `false` |
| Forum.FindAfterToggleLike | app/forum/page.tsx:295-316 | within one tree, the depth-first lookup of the liked id finds the node it found before, flipped |
| Forum.FindAfterToggleLikes | app/forum/page.tsx:295-317 | over a forest, the depth-first lookup of the liked id finds the node it found before, flipped |
| Forum.LikeReachesAnyDepth | app/forum/page.tsx:292-317 | when the id occurs at any depth, liking flips `liked` and moves `likes` by one on the comment carrying it (the first in pre-order), and changes nothing else about it |
| Forum.ToggleLikeKeepsOthers | app/forum/page.tsx:295-316 | within one tree, the node found for any other id keeps every field but possibly its replies |
| Forum.ToggleLikesKeepOthers | app/forum/page.tsx:295-317 | over a forest, liking one id leaves the like fields, author and content of the comment carrying any other id as they were |
| Forum.AddReply | app/forum/page.tsx:344-372 | only `replies` may change; a match gets the reply appended at the end, creating the list when absent; a non-match keeps whether it has a list; how deep it reaches is in `ReplyReachesAnyDepth` |
| Forum.AddReplies | app/forum/page.tsx:342-374 | the reply traversal maps every comment in order and keeps the list length |
| Forum.AddRepliesSize | app/forum/page.tsx:342-374 | the reply traversal adds the reply's nodes once per outermost match |
| Forum.AddRepliesAbsent | app/forum/page.tsx:342-374 | replying to an id that does not occur returns the forest unchanged |
| Forum.AddReplyAbsent | app/forum/page.tsx:344-372 | a tree in which the id does not occur is left unchanged by replying |
| Forum.AddReplySize | app/forum/page.tsx:344-372 | within one tree, the reply adds its nodes once per outermost match |
| Forum.FindAfterAddReply | app/forum/page.tsx:344-372 | within one tree, the depth-first lookup of the id finds the node it found before, with the reply appended |
| Forum.FindAfterAddReplies | app/forum/page.tsx:342-374 | over a forest, the depth-first lookup of the id finds the node it found before, with the reply appended |
| Forum.ReplyReachesAnyDepth | app/forum/page.tsx:339-374 | when the id occurs at any depth, the reply is appended at the end of the replies of the comment carrying it (the first in pre-order), creating the list when absent, and nothing else about that comment changes |
| Forum.ReplyAddsOneTree | app/forum/page.tsx:342-374 | with unique ids, a reply to an existing comment adds exactly the reply's nodes, and a reply to a missing id changes nothing |
| Forum.NewComment | app/forum/page.tsx:250-356 | a new comment or reply is one node with no likes, not liked, no replies, authored by the user with the first character of the name as initials |
| Forum.VotePosts | app/forum/page.tsx:196-235 | only posts with the matching id change: they take the new state, with `likes` moved by the same table; all others are unchanged |
| Forum.VotePost | app/forum/page.tsx:200-232 | a post with another id is unchanged; the matching post takes the new vote, and nothing but its vote and `likes` changes |
| Forum.LikePosts | app/forum/page.tsx:290-324 | a post without `commentData` is unchanged; a post with it has its comments liked at the id and every other field, its counter included, unchanged |
| Forum.LikeIn | app/forum/page.tsx:291-322 | only `commentData` may change, and it is present afterwards exactly when it was before |
| Forum.ReplyPosts | app/forum/page.tsx:337-382 | a post without `commentData` is unchanged; every post with it, whether or not the id is in it, counts one more comment and gets the reply traversal, and no other field changes |
| Forum.ReplyIn | app/forum/page.tsx:338-382 | a post without `commentData` is unchanged; a post with it counts one more comment, and nothing but its counter and comment list changes |
| Forum.AddCommentPosts | app/forum/page.tsx:247-272 | the matching post gets the comment at the end of its list (created when absent), one more node and `comments` + 1, and no other field changes; the other posts are unchanged |
| Forum.AddCommentTo | app/forum/page.tsx:248-270 | a post with another id is unchanged; the matching post counts one more comment, and nothing but its counter and comment list changes |
| Forum.LikeKeepsCounts | app/forum/page.tsx:290-324 | liking keeps every post's counters and node count; posts without `commentData` stay as they are |
| Forum.LikePostsTwice | app/forum/page.tsx:290-324 | liking the same id twice restores every post when the `liked` flags are present |
| Forum.ReplyBumpsEveryThread | app/forum/page.tsx:337-382 | one reply raises the sum of the counters by the number of posts with `commentData`, whether or not the id was found |
| Forum.ReplyBumpsUnrelatedThread | app/forum/page.tsx:339-380 | a reply under one thread raises another thread's counter and leaves that thread's comments as they were |
| Forum.BaseComments | app/forum/page.tsx:17-53 | the demo thread has two top-level comments, the second with one reply |
| Forum.GenerateComments | app/forum/page.tsx:16-63 | the first base comment for an even id, none for another multiple of 3, both otherwise; its cases are stated by `GenerateEven`, `GenerateNone` and `GenerateBoth` |
| Forum.GenerateEven | app/forum/page.tsx:16-57 | even thread ids get only the first base comment, id `t*100+1`, one node |
| Forum.GenerateBoth | app/forum/page.tsx:16-62 | odd ids that are not multiples of 3 get both base comments: ids `t*100+1`, `t*100+2` with reply `t*100+3`, three nodes with distinct ids |
| Forum.GenerateNone | app/forum/page.tsx:58-59 | odd multiples of 3 get no comments |
| Forum.GenerateLiked | app/forum/page.tsx:16-53 | every generated comment has its `liked` flag set and a positive like count |
| Forum.DemoCounterDisagrees | app/forum/page.tsx:16-82 | thread 1 starts with 3 comment nodes, not the 12 its counter shows |
| Forum.ForumPage.HandleVote | app/forum/page.tsx:196-235 | the loop applies the table to every post with the matching id and leaves the others unchanged |
| Forum.ForumPage.constructor | app/forum/page.tsx:194 | the page starts with the given threads |
| Forum.ForumPage.HandleAddComment | app/forum/page.tsx:237-278 | without a user nothing changes and login is required; otherwise the comment is appended to the matching post |
| Forum.ForumPage.HandleLikeComment | app/forum/page.tsx:280-325 | without a user nothing changes and login is required; otherwise the posts become `LikePosts` of the old ones, which flips the comment with the id at any depth (`LikeReachesAnyDepth`) and keeps every counter |
| Forum.ForumPage.HandleReplyToComment | app/forum/page.tsx:327-388 | without a user nothing changes and login is required; otherwise the posts become `ReplyPosts` of the old ones with a new one-node reply: it lands under the comment with the id at any depth (`ReplyReachesAnyDepth`) and every post with comments counts one more |
| CommentSection.CommentNoun | components/comment-section.tsx:62 | "comment" exactly for one comment, "comments" otherwise |
| CommentSection.CommentSectionState.constructor | components/comment-section.tsx:28-31 | empty drafts, no reply editor, collapsed |
| CommentSection.CommentSectionState.EditComment | components/comment-section.tsx:100 | typing in the comment box changes only the comment draft |
| CommentSection.CommentSectionState.EditReply | components/comment-section.tsx:78 | typing in the reply box changes only the reply draft |
| CommentSection.ViewButtonFor | components/comment-section.tsx:55-64 | the button shows iff the section is collapsed and has comments, and counts the top-level comments only |
| CommentSection.ShowsReplyEditor | components/comment-section.tsx:66-73 | the reply editor is drawn under the top-level comment at an index exactly when the section is expanded and that comment is the one being answered |
| CommentSection.ShowsCommentEditor | components/comment-section.tsx:66-95 | the new-comment editor is drawn exactly when the section is expanded and a user is logged in |
| CommentSection.AtMostOneReplyEditor | components/comment-section.tsx:69-73 | with unique ids, the reply editor opens under at most one top-level comment |
| CommentSection.NestedReplyShowsNoEditor | components/comment-section.tsx:69-73 | answering an id that no top-level comment carries (a nested reply) shows no reply editor anywhere |
| CommentSection.CommentSectionState.SubmitComment | components/comment-section.tsx:33-38 | forwards `(postId, draft)` untrimmed and clears the draft iff the draft is not blank; a blank draft stays |
| CommentSection.CommentSectionState.SubmitReply | components/comment-section.tsx:40-46 | forwards `(commentId, draft)`, clears the draft and closes the editor iff the reply is not blank; otherwise nothing changes |
| CommentSection.CommentSectionState.Reply | components/comment-section.tsx:48-51 | records the comment being answered and clears the reply draft; the editor then appears only under a top-level comment with that id |
| CommentSection.CommentSectionState.CancelReply | components/comment-section.tsx:82 | closes the reply editor and keeps the drafts |
| CommentSection.CommentSectionState.Expand | components/comment-section.tsx:59 | the View button expands the section |
| Text.IsWhitespace | components/comment-section.tsx:34 | the characters `trim` removes: the ECMAScript white-space and line-terminator code points |
| Text.IsBlank | components/comment-section.tsx:34-41 | a text is blank when every character is white space; the empty text is blank |
| Text.TrimStart | components/comment-section.tsx:34 | removes exactly the leading white space: what is removed is blank and the rest starts with a non-white-space character |
| Text.TrimEnd | components/comment-section.tsx:34-41 | removes exactly the trailing white space: what is removed is blank and the rest ends with a non-white-space character |
| Text.TrimEmptyIffBlank | components/comment-section.tsx:34-41 | a trimmed text is empty iff the text is blank |
| Text.Trim | components/comment-section.tsx:34 | `trim` is never longer than its input, and a non-empty result starts and ends with a character that is not white space |
| Text.StartsWith | middleware.ts:12-15 | the prefix is no longer than the text and equals its first characters |
| Text.FirstChar | app/profile/page.tsx:129 | `charAt(0)` gives the first character, or the empty string for an empty text |
| Feed.SetUserVote | app/feed/page.tsx:107-113 | matching posts take the new vote state, all other posts are unchanged |
| Feed.SetUserVoteKeepsScores | app/feed/page.tsx:107-113 | a feed vote never changes any post's `likes` |
| Feed.SetUserVoteLastWins | app/feed/page.tsx:107-113 | two votes on the same post leave only the last one |
| Feed.FeedAndForumVotesAgreeOnState | app/feed/page.tsx:107-113 | the feed's and the forum's vote handlers produce lists that differ only in `likes` |
| Feed.AuthorName | app/feed/page.tsx:132 | the author is the user's name when it is non-empty and "Anonymous" otherwise |
| Feed.AuthorInitials | app/feed/page.tsx:134 | the initials are the name's first character, or "A" with no user or an empty name |
| Feed.InitialsMatchAuthorName | app/feed/page.tsx:132-134 | the initials are always the first character of the displayed author name |
| Feed.NewPost | app/feed/page.tsx:129-146 | a new post has id `now`, the untrimmed draft, likes 0, comments 0, null vote, no image, "Just now" and community Web Development (1) |
| Feed.Publish | app/feed/page.tsx:148 | the new post goes in front of the captured list |
| Feed.VoteDuringDelayIsLost | app/feed/page.tsx:107-148 | a vote recorded while publication is pending is overwritten by the captured list |
| Feed.FeedPage.StartCreatePost | app/feed/page.tsx:115-202 | while submitting the button is disabled; a blank draft raises "Empty post" and changes nothing; otherwise the page is marked submitting and the user, draft and list are captured |
| Feed.FeedPage.FinishCreatePost | app/feed/page.tsx:128-157 | the list becomes the captured list with the new post in front, the draft is cleared and submitting ends |
| Feed.FeedPage.HandleVote | app/feed/page.tsx:107-113 | the list becomes `SetUserVote` of the old list |
| Feed.FirstWord | app/feed/page.tsx:191 | the placeholder's first name is the longest prefix without a space |
| Feed.PostButtonLabel | app/feed/page.tsx:202-203 | the button reads "Posting..." while submitting and "Post" otherwise |
| Feed.FeedPage.constructor | app/feed/page.tsx:97-99 | the page starts with its list, an empty draft and not submitting |
| Feed.FeedPage.EditDraft | app/feed/page.tsx:194 | typing changes only the draft |
| Profile.InitialProfile | app/profile/page.tsx:93-102 | the initial profile has empty name, email and avatar and the listed demo values |
| Profile.ProfilePage.constructor | app/profile/page.tsx:90-106 | the page starts with the demo activity, form equal to the profile, not editing |
| Profile.With | app/profile/page.tsx:143-149 | an input change sets the named field and leaves every other field and the join date alone |
| Profile.EditsCommute | app/profile/page.tsx:143-149 | edits to two different inputs give the same form in either order |
| Profile.LastEditWins | app/profile/page.tsx:143-149 | editing the same input twice keeps only the last value |
| Profile.FieldsDetermineProfile | app/profile/page.tsx:93-149 | the seven editable fields and the join date determine the whole profile |
| Profile.RenameAuthors | app/profile/page.tsx:121-132 | every post keeps its place and avatar and takes the user's name and its first character as initials |
| Profile.RenameAuthorsIdempotent | app/profile/page.tsx:121-132 | renaming twice to the same name is renaming once |
| Profile.StripScheme | app/profile/page.tsx:229 | one leading `https://` or `http://` is removed and nothing else; the result is the URL itself iff neither prefix is present |
| Profile.StripSchemeOnce | app/profile/page.tsx:229 | a second scheme after the first one is kept |
| Profile.WebsiteLine | app/profile/page.tsx:220-231 | the website line shows iff the website is non-empty, without its scheme |
| Profile.AvatarSource | app/profile/page.tsx:202 | the avatar is the URL when it is non-empty and "/placeholder.svg" otherwise |
| Profile.ProfilePage.SyncUser | app/profile/page.tsx:109-134 | with a user, name and email go into both profile and form and the posts are renamed; the form stays a mirror of the profile outside edit mode |
| Profile.ProfilePage.HandleInputChange | app/profile/page.tsx:143-149 | the form takes the edited field; the profile is untouched |
| Profile.ProfilePage.Save | app/profile/page.tsx:151-158 | the profile becomes the form and edit mode ends |
| Profile.ProfilePage.Cancel | app/profile/page.tsx:160-163 | the form is reset to the profile, dropping the edits, and edit mode ends |
| Profile.ProfilePage.StartEdit | app/profile/page.tsx:245 | the Edit button enters edit mode and changes nothing else |
| Profile.ProfilePage.HandleVote | app/profile/page.tsx:165-171 | the same vote-state-only update as the feed's |
| CommunityContext.StorageKeyInjective | contexts/community-context.tsx:39-57 | different users never share a storage key |
| CommunityContext.StorageKey | contexts/community-context.tsx:39-57 | the key is `joined_communities_` followed by the user id |
| CommunityContext.DefaultJoined | contexts/community-context.tsx:44 | the demo membership a user without a stored list starts with: communities 1, 2 and 4 |
| CommunityContext.Loaded | contexts/community-context.tsx:37-52 | no user gives []; a stored list (even empty) is used as is; otherwise the demo list [1, 2, 4] |
| CommunityContext.Without | contexts/community-context.tsx:111 | the id is removed everywhere and every other id keeps its number of copies |
| CommunityContext.WithoutAbsent | contexts/community-context.tsx:111 | leaving a community not in the list changes nothing |
| CommunityContext.WithoutAppend | contexts/community-context.tsx:111 | the filter keeps order: filtering a concatenation concatenates the filtered parts |
| CommunityContext.Joined | contexts/community-context.tsx:77 | joining adds exactly one copy of the id as a multiset, even when it is already present, and the id is then in the list |
| CommunityContext.JoinThenLeaveRestores | contexts/community-context.tsx:77-111 | leaving right after joining a community that was not joined restores the list |
| CommunityContext.LeaveUndoesRepeatedJoins | contexts/community-context.tsx:77-111 | one leave removes all the copies any number of repeated joins appended |
| CommunityContext.LeaveIdempotent | contexts/community-context.tsx:111 | leaving twice is leaving once |
| CommunityContext.PersistThenLoad | contexts/community-context.tsx:37-59 | a list the save effect stored is what the next load for that user reads |
| CommunityContext.PersistKeepsOthers | contexts/community-context.tsx:37-59 | saving one user's list does not change what any other user loads |
| CommunityContext.CommunityStore.IsJoined | contexts/community-context.tsx:129-133 | false with no user, else membership of the list |
| CommunityContext.CommunityStore.constructor | contexts/community-context.tsx:33-34 | no user, empty list, loading |
| CommunityContext.CommunityStore.Load | contexts/community-context.tsx:37-52 | the list becomes `Loaded`, loading ends, and a user with no stored list gets the demo list stored |
| CommunityContext.CommunityStore.Persist | contexts/community-context.tsx:54-59 | once loaded, a user's list is written under that user's key; otherwise storage is unchanged |
| CommunityContext.CommunityStore.Join | contexts/community-context.tsx:61-93 | a visitor is rejected with the list unchanged; a user gets the id appended, is then a member, and loading ends |
| CommunityContext.CommunityStore.Leave | contexts/community-context.tsx:95-127 | a visitor is rejected with the list unchanged; a user has every copy of the id removed, is then not a member, and loading ends |
| Communities.Catalog | app/communities/page.tsx:15-70 | the page's six demo communities, in the source's order |
| Communities.CatalogIds | app/communities/page.tsx:15-70 | the six demo communities carry ids 1 to 6 in order |
| Communities.Select | app/communities/page.tsx:77-78 | a filter of the catalog by membership; it never grows the list, and `SelectMembers` and `SelectAppend` state which communities it keeps and in what order |
| Communities.SelectMembers | app/communities/page.tsx:77-78 | a filter keeps exactly the communities whose membership test gives the wanted answer |
| Communities.SelectAppend | app/communities/page.tsx:77-78 | the filters keep catalog order |
| Communities.SelectPartition | app/communities/page.tsx:77-78 | the two filters split the list: together they hold every community exactly once |
| Communities.JoinedPanel | app/communities/page.tsx:77 | a visitor's joined panel is empty; a user's holds exactly the joined communities |
| Communities.RecommendedPanel | app/communities/page.tsx:78 | a visitor sees the whole list; a user sees exactly the communities not joined |
| Communities.PanelsPartition | app/communities/page.tsx:77-78 | for a user, every community is in exactly one of the two panels |
| Communities.DefaultTab | app/communities/page.tsx:81 | the default tab is "joined" iff a user is logged in |
| Communities.RecommendedTabLabel | app/communities/page.tsx:102 | the second tab reads "Recommended" for a user and "All Communities" for a visitor |
| Communities.ShowsNoneJoined | app/communities/page.tsx:114-116 | the empty-membership message shows exactly when a logged-in user's joined panel is empty |
| Communities.ShowsAllJoined | app/communities/page.tsx:169-171 | the all-joined message shows exactly when the recommended panel is empty |
| Communities.NoneJoinedIff | app/communities/page.tsx:114 | for a user, "You haven't joined any communities yet" shows iff no listed community is joined |
| Communities.AllJoinedIff | app/communities/page.tsx:169 | "You've joined all available communities!" shows iff the list is empty or a user joined every community; never for a visitor with communities |
| Communities.DemoMembershipPanels | app/communities/page.tsx:15-78 | with the demo list [1, 2, 4], Web Development, Data Science and UI/UX Design are joined and the other three recommended |
| JoinButton.ButtonVariant | components/join-community-button.tsx:66 | a joined community turns "default" into "outline"; every other variant, and every variant when not joined, is kept |
| JoinButton.JoinButtonState.constructor | components/join-community-button.tsx:36 | a button starts not pending |
| JoinButton.Label | components/join-community-button.tsx:77-88 | "Leaving..."/"Joining..." while pending; otherwise "Leave"/"Join", plus a space and the name when the name is non-empty |
| JoinButton.JoinButtonState.HandleClick | components/join-community-button.tsx:38-63 | a visitor is sent to /login iff `redirectToLogin` and nothing else happens; a user leaves if joined and joins otherwise, so membership flips, and pending ends false |
| Middleware.IsPublicPath | middleware.ts:8-15 | a path is public when it is "/", "/login" or "/register", or starts with "/_next", "/api", "/communities" or "/discover" as a plain text prefix |
| Middleware.Decide | middleware.ts:4-32 | "/" with the cookie redirects to "/feed"; a non-public path without it redirects to "/"; everything else passes |
| Middleware.NoRedirectLoop | middleware.ts:8-31 | a redirect target passes the gate under the same cookie |
| Middleware.VisitorReachesOnlyPublic | middleware.ts:8-29 | without the cookie a request passes iff the path is public |
| Middleware.UserRedirectedOnlyFromHome | middleware.ts:21-31 | with the cookie a request passes iff the path is not "/" |
| Middleware.PrefixExamples | middleware.ts:12-15 | prefix matching makes "/communitiesX", "/discover/abc" and "/api/users" public but not "/feed", "/profile" or "/settings" |
| Navbar.FeedActive | components/navbar.tsx:32 | Feed is highlighted only on "/feed" itself |
| Navbar.CommunitiesActive | components/navbar.tsx:39 | Communities is highlighted on "/communities" and on paths under "/communities/" |
| Navbar.DiscoverActive | components/navbar.tsx:46 | Discover is highlighted only on "/discover" itself |
| Navbar.Routes | components/navbar.tsx:27-49 | three routes in the source's order: Feed (not public), Communities and Discover (public), each highlighted by its own rule |
| Navbar.FilteredRoutes | components/navbar.tsx:52 | at most three links are shown, and every link shown to a visitor is public |
| Navbar.FilteredRoutesShape | components/navbar.tsx:27-52 | a user sees Feed, Communities and Discover in order; a visitor sees Communities and Discover |
| Navbar.Filter | components/navbar.tsx:52 | the filter keeps exactly the routes that are public or shown to a user |
| Navbar.AtMostOneActive | components/navbar.tsx:32-46 | no pathname highlights two routes |
| Navbar.CommunitiesActiveExamples | components/navbar.tsx:39 | "/communitiesX" does not highlight Communities although the gate treats it as public; "/communities/7" does |
| Navbar.LogoHref | components/navbar.tsx:58-136 | the logo links to "/feed" for a user and "/" for a visitor |
| Navbar.NavbarLinksPassTheGate | components/navbar.tsx:27-58 | when the `auth` cookie is present exactly when the navbar has a user, every route link and the logo the navbar shows passes the middleware |
| Navbar.SignedInWithoutCookieIsTurnedBack | components/navbar.tsx:27-58 | a signed-in user without the `auth` cookie is redirected to "/" from the logo and from the Feed link |
| DocumentViewer.PrevPage | components/document-viewer.tsx:20-24 | the page goes down by one above 1 and stays as it is otherwise |
| DocumentViewer.NextPage | components/document-viewer.tsx:26-30 | the page goes up by one below the total and stays as it is otherwise |
| DocumentViewer.ZoomedIn | components/document-viewer.tsx:32-36 | the zoom goes up by 25 below 200 and stays as it is otherwise |
| DocumentViewer.ZoomedOut | components/document-viewer.tsx:38-42 | the zoom goes down by 25 above 50 and stays as it is otherwise |
| DocumentViewer.ZoomButtonsEnabledIff | components/document-viewer.tsx:32-88 | each zoom button is enabled exactly when its handler would change the zoom |
| DocumentViewer.ZoomInThenOutRestores | components/document-viewer.tsx:32-42 | zooming in and then out from below 200 restores the zoom |
| DocumentViewer.ZoomStaysOnLevels | components/document-viewer.tsx:18-42 | from any level, and so from the initial 100, every click sequence keeps the zoom a multiple of 25 in [50, 200] |
| DocumentViewer.EveryLevelReachable | components/document-viewer.tsx:18-42 | every such level is reached from 100 by repeating one button |
| DocumentViewer.Viewer.constructor | components/document-viewer.tsx:16-18 | page 1 of 1 at zoom 100 |
| DocumentViewer.Viewer.HandlePrevPage | components/document-viewer.tsx:20-24 | the page goes down by one only above 1; the page stays within 1 and the total |
| DocumentViewer.Viewer.HandleNextPage | components/document-viewer.tsx:26-30 | the page goes up by one only below the total; the page stays within 1 and the total |
| DocumentViewer.Viewer.HandleZoomIn | components/document-viewer.tsx:32-36 | the zoom goes up by 25 only below 200 and stays on a level |
| DocumentViewer.Viewer.HandleZoomOut | components/document-viewer.tsx:38-42 | the zoom goes down by 25 only above 50 and stays on a level |

## Left out

- Markup, styling, icons and toasts: only the toast's meaning is modelled, as a returned notice or outcome. Its wording is not.
- Navigation (`router.push`): it is returned as a target or redirect decision. The login redirects of the feed and profile pages' effects are not modelled; they only navigate away.
- NavbarLinksPassTheGate: assumes the `auth` cookie is present exactly when the auth context has a user. Neither the auth context nor any modelled file sets or clears that cookie, so nothing here guarantees the assumption.
- The middleware's `config.matcher`: it is a path pattern that Next.js interprets, outside the handler.
- Time: `Date.now()`, `new Date()` and the relative dates from `formatDistanceToNow` are parameters or left out.
- `localStorage` and `JSON`: storage is a map from key to the parsed list. `JSON.stringify` always writes a non-empty string, so the model treats a present key as a present list.
- Asynchrony:
  - The store's join and leave, and the button's click, happen as one step. The store's `isLoading` and the button's `isPending` are true only while the promise is pending, and that middle state is not observable in the model.
  - Feed post creation is modelled as its two real steps. The 1-second timer itself is not modelled.
- PostCard.PostCardState.HandleVote: the `catch` branch that resets the card to the original post is not modelled. Nothing in the `try` block can throw.
- Characters: `charAt(0)` is taken as the first element of a string of Unicode scalar values, rather than the first UTF-16 code unit.
- Comments.ShowsReplies: a comment's show/hide state is a set of flipped ids. All mounted components of one id therefore flip together.
- CommentSection.CommentSectionState: the editors the page shows are described by predicates. A method that types into a hidden editor is not prevented.
- Demo data: the demo posts of the feed, profile and forum pages are left out, except the forum's `generateComments` and the communities page's list. These are constants and carry no logic.
- The other pages and components are not part of this model: settings, discover, classroom, community and lesson pages, the single-thread pages, the video player, and the auth context beyond the shape of its user.
