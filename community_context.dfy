/**
 * contexts/community-context.tsx: the list of joined community ids, its
 * loading from and saving to the browser's storage, and join, leave and
 * the membership test.
 */
module CommunityContext {
  import opened Wrappers
  import opened Auth
  import Text

  /** `joined_communities_${user.id}`: the storage key of a user's list. */
  function StorageKey(userId: string): (k: string)
    ensures Text.StartsWith(k, "joined_communities_")
    ensures k[|"joined_communities_"|..] == userId
  {
    "joined_communities_" + userId
  }

  /** Different users never share a storage key. */
  lemma StorageKeyInjective(a: string, b: string)
    requires StorageKey(a) == StorageKey(b)
    ensures a == b
  {
    assert a == StorageKey(a)[|"joined_communities_"|..];
  }

  /** The demo list a user without a stored list starts with. */
  function DefaultJoined(): seq<int> {
    [1, 2, 4]
  }

  /**
   * What the load effect puts in the list: nothing without a user, else the
   * stored list when there is one (even an empty one), else the demo list.
   */
  function Loaded(user: Option<User>, storage: map<string, seq<int>>): (r: seq<int>)
    ensures user.None? ==> r == []
    ensures user.Some? && StorageKey(user.value.id) in storage ==> r == storage[StorageKey(user.value.id)]
    ensures user.Some? && StorageKey(user.value.id) !in storage ==> r == DefaultJoined()
  {
    if user.None? then []
    else if StorageKey(user.value.id) in storage then storage[StorageKey(user.value.id)]
    else DefaultJoined()
  }

  /** `[...prev, communityId]`: joining appends, even an id already present. */
  function Joined(list: seq<int>, id: int): (r: seq<int>)
    ensures multiset(r) == multiset(list) + multiset{id}
    ensures id in r
  {
    list + [id]
  }

  /** `prev.filter((id) => id !== communityId)`. */
  function Without(list: seq<int>, id: int): (r: seq<int>)
    ensures |r| <= |list|
    ensures id !in r
    ensures forall x :: x != id ==> (x in r <==> x in list)
    ensures forall x :: x != id ==> multiset(r)[x] == multiset(list)[x]
    decreases |list|
  {
    if list == [] then []
    else
      assert list == [list[0]] + list[1..];
      if list[0] == id then Without(list[1..], id) else [list[0]] + Without(list[1..], id)
  }

  /** Leaving a community that is not in the list changes nothing. */
  lemma {:induction false} WithoutAbsent(list: seq<int>, id: int)
    requires id !in list
    ensures Without(list, id) == list
    decreases |list|
  {
    if list != [] {
      WithoutAbsent(list[1..], id);
    }
  }

  /** The filter distributes over concatenation. */
  lemma {:induction false} WithoutAppend(a: seq<int>, b: seq<int>, id: int)
    ensures Without(a + b, id) == Without(a, id) + Without(b, id)
    decreases |a|
  {
    if a == [] {
      assert a + b == b;
    } else {
      assert (a + b)[0] == a[0];
      assert (a + b)[1..] == a[1..] + b;
      WithoutAppend(a[1..], b, id);
    }
  }

  /** Leaving after joining a community that was not joined restores the list. */
  lemma JoinThenLeaveRestores(list: seq<int>, id: int)
    requires id !in list
    ensures Without(Joined(list, id), id) == list
  {
    WithoutAppend(list, [id], id);
    WithoutAbsent(list, id);
    assert Without([id], id) == [];
  }

  /** One leave undoes any number of repeated joins of the same community. */
  lemma {:induction false} LeaveUndoesRepeatedJoins(list: seq<int>, id: int, n: nat)
    ensures Without(list + seq(n, _ => id), id) == Without(list, id)
    decreases n
  {
    if n > 0 {
      var extra := seq(n - 1, _ => id);
      assert seq(n, _ => id) == extra + [id];
      assert list + seq(n, _ => id) == (list + extra) + [id];
      WithoutAppend(list + extra, [id], id);
      assert Without([id], id) == [];
      LeaveUndoesRepeatedJoins(list, id, n - 1);
    } else {
      assert list + seq(n, _ => id) == list;
    }
  }

  /** Leaving twice is leaving once. */
  lemma LeaveIdempotent(list: seq<int>, id: int)
    ensures Without(Without(list, id), id) == Without(list, id)
  {
    WithoutAbsent(Without(list, id), id);
  }

  /** The outcome of `joinCommunity` and `leaveCommunity`: rejected ("Login required") or done. */
  datatype Outcome = NotLoggedIn | Done

  /** The provider's state; `storage` stands for the parsed contents of `localStorage`. */
  class CommunityStore {
    var user: Option<User>
    var joined: seq<int>
    var isLoading: bool
    var storage: map<string, seq<int>>

    constructor(storage: map<string, seq<int>>)
      ensures user.None? && joined == [] && isLoading && this.storage == storage
    {
      user := None;
      joined := [];
      isLoading := true;
      this.storage := storage;
    }

    /** `isJoined`: never for a visitor, else membership of the list. */
    function IsJoined(id: int): (b: bool)
      reads this
      ensures b <==> user.Some? && id in joined
    {
      user.Some? && id in joined
    }

    /** The load effect, run when the user changes; a user without a stored list gets the demo list, which is stored. */
    method Load(u: Option<User>)
      modifies this
      ensures user == u && joined == Loaded(u, old(storage)) && !isLoading
      ensures u.Some? && StorageKey(u.value.id) !in old(storage) ==>
                storage == old(storage)[StorageKey(u.value.id) := DefaultJoined()]
      ensures u.None? || StorageKey(u.value.id) in old(storage) ==> storage == old(storage)
    {
      user := u;
      if u.Some? {
        var key := StorageKey(u.value.id);
        if key in storage {
          joined := storage[key];
        } else {
          joined := DefaultJoined();
          storage := storage[key := DefaultJoined()];
        }
      } else {
        joined := [];
      }
      isLoading := false;
    }

    /** The save effect: once loaded, a user's list is written under the user's key. */
    method Persist()
      modifies this
      ensures user.Some? && !isLoading ==> storage == old(storage)[StorageKey(user.value.id) := joined]
      ensures user.None? || isLoading ==> storage == old(storage)
      ensures user == old(user) && joined == old(joined) && isLoading == old(isLoading)
    {
      if user.Some? && !isLoading {
        storage := storage[StorageKey(user.value.id) := joined];
      }
    }

    /** `joinCommunity`: rejected for a visitor, else the id is appended once the delay is over. */
    method Join(id: int) returns (outcome: Outcome)
      modifies this
      ensures user == old(user) && storage == old(storage)
      ensures old(user).None? ==> outcome == NotLoggedIn && joined == old(joined) && isLoading == old(isLoading)
      ensures old(user).Some? ==> outcome == Done && joined == Joined(old(joined), id) && !isLoading && IsJoined(id)
    {
      if user.None? {
        return NotLoggedIn;
      }
      isLoading := true;
      joined := joined + [id];
      isLoading := false;
      outcome := Done;
    }

    /** `leaveCommunity`: rejected for a visitor, else every copy of the id is filtered out. */
    method Leave(id: int) returns (outcome: Outcome)
      modifies this
      ensures user == old(user) && storage == old(storage)
      ensures old(user).None? ==> outcome == NotLoggedIn && joined == old(joined) && isLoading == old(isLoading)
      ensures old(user).Some? ==> outcome == Done && joined == Without(old(joined), id) && !isLoading && !IsJoined(id)
    {
      if user.None? {
        return NotLoggedIn;
      }
      isLoading := true;
      joined := Without(joined, id);
      isLoading := false;
      outcome := Done;
    }
  }

  /** What was saved for a user is what the next load for that user reads back. */
  lemma PersistThenLoad(storage: map<string, seq<int>>, u: User, list: seq<int>)
    ensures Loaded(Some(u), storage[StorageKey(u.id) := list]) == list
  {
  }

  /** Saving one user's list does not change what another user loads. */
  lemma PersistKeepsOthers(storage: map<string, seq<int>>, u: User, v: User, list: seq<int>)
    requires u.id != v.id
    ensures Loaded(Some(v), storage[StorageKey(u.id) := list]) == Loaded(Some(v), storage)
  {
    if StorageKey(u.id) == StorageKey(v.id) {
      StorageKeyInjective(u.id, v.id);
    }
  }
}
