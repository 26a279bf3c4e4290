/**
 * components/join-community-button.tsx: the button that joins or leaves a
 * community through the community store, sends visitors to the login page,
 * and shows a pending label while the store works.
 */
module JoinButton {
  import opened Wrappers
  import Text
  import opened CommunityContext

  /** The button variants the component accepts. */
  datatype Variant = Default | Outline | Secondary | Ghost | Link | Destructive

  /** `buttonVariant`: a joined community turns the default variant into the outline one; any other variant is kept. */
  function ButtonVariant(joined: bool, variant: Variant): (r: Variant)
    ensures !joined ==> r == variant
    ensures joined ==> r != Default
    ensures joined && variant == Default ==> r == Outline
    ensures joined && variant != Default ==> r == variant
  {
    if joined then (if variant == Default then Outline else variant) else variant
  }

  /** The button text; an empty community name is left out like a missing one. */
  function Label(isPending: bool, joined: bool, communityName: Option<string>): (r: string)
    ensures isPending ==> r == (if joined then "Leaving..." else "Joining...")
    ensures !isPending ==> Text.StartsWith(r, if joined then "Leave" else "Join")
    ensures !isPending && (communityName.None? || communityName.value == "") ==>
              r == (if joined then "Leave" else "Join")
    ensures !isPending && communityName.Some? && communityName.value != "" ==>
              r == (if joined then "Leave" else "Join") + " " + communityName.value
  {
    if isPending then (if joined then "Leaving..." else "Joining...")
    else
      var verb := if joined then "Leave" else "Join";
      var suffix := if communityName.Some? && communityName.value != "" then " " + communityName.value else "";
      assert (verb + suffix)[..|verb|] == verb;
      verb + suffix
  }

  /** One mounted button: its community and its pending flag. */
  class JoinButtonState {
    const communityId: int
    var isPending: bool

    constructor(communityId: int)
      ensures this.communityId == communityId && !isPending
    {
      this.communityId := communityId;
      isPending := false;
    }

    /**
     * `handleClick`. A visitor is sent to `/login` when `redirectToLogin`
     * holds and nothing else happens. A user leaves the community when it
     * was joined at render time and joins it otherwise, so a click always
     * flips the membership test; the pending flag is cleared at the end.
     */
    method HandleClick(store: CommunityStore, redirectToLogin: bool) returns (navigate: Option<string>)
      modifies this, store
      ensures store.user == old(store.user) && store.storage == old(store.storage)
      ensures old(store.user).None? ==> (
        navigate == (if redirectToLogin then Some("/login") else None) &&
        store.joined == old(store.joined) && store.isLoading == old(store.isLoading) &&
        isPending == old(isPending))
      ensures old(store.user).Some? ==> (
        navigate == None && !isPending && !store.isLoading &&
        store.joined == (if old(store.IsJoined(communityId)) then Without(old(store.joined), communityId)
                         else Joined(old(store.joined), communityId)) &&
        store.IsJoined(communityId) == !old(store.IsJoined(communityId)))
    {
      var joined := store.IsJoined(communityId);
      if store.user.None? {
        navigate := if redirectToLogin then Some("/login") else None;
        return;
      }
      navigate := None;
      isPending := true;
      var outcome;
      if joined {
        outcome := store.Leave(communityId);
      } else {
        outcome := store.Join(communityId);
      }
      isPending := false;
    }
  }
}
