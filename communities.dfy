/**
 * app/communities/page.tsx: the six demo communities, their split into the
 * "joined" and "recommended" panels by the community store's membership
 * test, the default tab and the empty-panel messages.
 */
module Communities {
  /** A community card's data. */
  datatype CommunityInfo = CommunityInfo(
    id: int, name: string, description: string, members: nat, classrooms: nat, posts: nat)

  /** The page's demo list. */
  function Catalog(): seq<CommunityInfo> {
    [ CommunityInfo(1, "Web Development", "Learn and discuss modern web development technologies and practices.", 1250, 5, 120),
      CommunityInfo(2, "Data Science", "Explore data analysis, machine learning, and AI concepts.", 980, 4, 85),
      CommunityInfo(3, "Mobile Development", "Build iOS, Android, and cross-platform mobile applications.", 750, 3, 62),
      CommunityInfo(4, "UI/UX Design", "Learn design principles, tools, and techniques for creating great user experiences.", 620, 3, 45),
      CommunityInfo(5, "DevOps & Cloud", "Master deployment, infrastructure, and cloud technologies.", 540, 2, 38),
      CommunityInfo(6, "Game Development", "Create games for various platforms using modern engines and techniques.", 890, 4, 72) ]
  }

  /** The catalog's ids are 1 to 6 in order, so no two cards share an id. */
  lemma CatalogIds()
    ensures |Catalog()| == 6
    ensures forall i :: 0 <= i < |Catalog()| ==> Catalog()[i].id == i + 1
  {
  }

  /**
   * The communities whose membership test gives `want`, in catalog order.
   * Its specification is the lemma `SelectMembers` (which communities are
   * kept) together with `SelectAppend` (in what order).
   */
  function Select(cs: seq<CommunityInfo>, joined: seq<int>, want: bool): (r: seq<CommunityInfo>)
    ensures |r| <= |cs|
    decreases |cs|
  {
    if cs == [] then []
    else if (cs[0].id in joined) == want then [cs[0]] + Select(cs[1..], joined, want)
    else Select(cs[1..], joined, want)
  }

  /** The selection keeps exactly the communities whose membership test gives `want`. */
  lemma {:induction false} SelectMembers(cs: seq<CommunityInfo>, joined: seq<int>, want: bool)
    ensures forall c :: c in Select(cs, joined, want) <==> c in cs && (c.id in joined) == want
    decreases |cs|
  {
    if cs != [] {
      SelectMembers(cs[1..], joined, want);
      assert cs == [cs[0]] + cs[1..];
    }
  }

  /** The selection keeps catalog order: selecting from a concatenation concatenates the selections. */
  lemma {:induction false} SelectAppend(a: seq<CommunityInfo>, b: seq<CommunityInfo>, joined: seq<int>, want: bool)
    ensures Select(a + b, joined, want) == Select(a, joined, want) + Select(b, joined, want)
    decreases |a|
  {
    if a == [] {
      assert a + b == b;
    } else {
      assert (a + b)[0] == a[0];
      assert (a + b)[1..] == a[1..] + b;
      SelectAppend(a[1..], b, joined, want);
    }
  }

  /** `joinedCommunitiesData`: nothing for a visitor. */
  function JoinedPanel(cs: seq<CommunityInfo>, loggedIn: bool, joined: seq<int>): (r: seq<CommunityInfo>)
    ensures !loggedIn ==> r == []
    ensures loggedIn ==> forall c :: c in r <==> c in cs && c.id in joined
  {
    SelectMembers(cs, joined, true);
    if loggedIn then Select(cs, joined, true) else []
  }

  /** `recommendedCommunitiesData`: the whole list for a visitor. */
  function RecommendedPanel(cs: seq<CommunityInfo>, loggedIn: bool, joined: seq<int>): (r: seq<CommunityInfo>)
    ensures !loggedIn ==> r == cs
    ensures loggedIn ==> forall c :: c in r <==> c in cs && c.id !in joined
  {
    SelectMembers(cs, joined, false);
    if loggedIn then Select(cs, joined, false) else cs
  }

  /** The two selections split the list: every community lands in exactly one of them. */
  lemma {:induction false} SelectPartition(cs: seq<CommunityInfo>, joined: seq<int>)
    ensures |Select(cs, joined, true)| + |Select(cs, joined, false)| == |cs|
    ensures multiset(Select(cs, joined, true)) + multiset(Select(cs, joined, false)) == multiset(cs)
    decreases |cs|
  {
    if cs != [] {
      SelectPartition(cs[1..], joined);
      assert cs == [cs[0]] + cs[1..];
    }
  }

  /** For a logged-in user the two panels together show every community once. */
  lemma PanelsPartition(cs: seq<CommunityInfo>, joined: seq<int>)
    ensures |JoinedPanel(cs, true, joined)| + |RecommendedPanel(cs, true, joined)| == |cs|
    ensures multiset(JoinedPanel(cs, true, joined)) + multiset(RecommendedPanel(cs, true, joined)) == multiset(cs)
  {
    SelectPartition(cs, joined);
  }

  /** `defaultTab`. */
  function DefaultTab(loggedIn: bool): (r: string)
    ensures r == "joined" <==> loggedIn
    ensures r == "recommended" <==> !loggedIn
  {
    if loggedIn then "joined" else "recommended"
  }

  /** The label of the second tab. */
  function RecommendedTabLabel(loggedIn: bool): (r: string)
    ensures r == "Recommended" <==> loggedIn
    ensures r == "All Communities" <==> !loggedIn
  {
    if loggedIn then "Recommended" else "All Communities"
  }

  /** "You haven't joined any communities yet" is shown exactly when a logged-in user's joined panel is empty. */
  predicate ShowsNoneJoined(cs: seq<CommunityInfo>, loggedIn: bool, joined: seq<int>) {
    loggedIn && |JoinedPanel(cs, loggedIn, joined)| == 0
  }

  /** "You've joined all available communities!" is shown exactly when the recommended panel is empty. */
  predicate ShowsAllJoined(cs: seq<CommunityInfo>, loggedIn: bool, joined: seq<int>) {
    |RecommendedPanel(cs, loggedIn, joined)| == 0
  }

  /** The joined panel is empty exactly when no listed community's id is in the list. */
  lemma NoneJoinedIff(cs: seq<CommunityInfo>, joined: seq<int>)
    ensures ShowsNoneJoined(cs, true, joined) <==> forall i :: 0 <= i < |cs| ==> cs[i].id !in joined
  {
    var r := JoinedPanel(cs, true, joined);
    if |r| != 0 {
      assert r[0] in r;
      var i :| 0 <= i < |cs| && cs[i] == r[0];
    } else {
      forall i | 0 <= i < |cs| ensures cs[i].id !in joined {
        assert cs[i] in cs;
        assert cs[i] !in r;
      }
    }
  }

  /** The recommended panel is empty exactly when a logged-in user has joined every listed community; a visitor sees the whole list. */
  lemma AllJoinedIff(cs: seq<CommunityInfo>, loggedIn: bool, joined: seq<int>)
    ensures ShowsAllJoined(cs, loggedIn, joined) <==>
      |cs| == 0 || (loggedIn && forall i :: 0 <= i < |cs| ==> cs[i].id in joined)
  {
    if loggedIn {
      var r := RecommendedPanel(cs, true, joined);
      if |r| != 0 {
        assert r[0] in r;
        var i :| 0 <= i < |cs| && cs[i] == r[0];
      } else {
        forall i | 0 <= i < |cs| ensures cs[i].id in joined {
          assert cs[i] in cs;
          assert cs[i] !in r;
        }
      }
    }
  }

  /** One step of the selection: the first community is kept or dropped by its own membership. */
  lemma SelectStep(cs: seq<CommunityInfo>, joined: seq<int>, want: bool)
    requires cs != []
    ensures Select(cs, joined, want) ==
      (if (cs[0].id in joined) == want then [cs[0]] else []) + Select(cs[1..], joined, want)
  {
  }

  /** Six communities with ids 1 to 6, split by the demo membership list `[1, 2, 4]`. */
  lemma DemoSplit(cs: seq<CommunityInfo>, want: bool)
    requires |cs| == 6 && forall i :: 0 <= i < 6 ==> cs[i].id == i + 1
    ensures Select(cs, [1, 2, 4], want) ==
      if want then [cs[0], cs[1], cs[3]] else [cs[2], cs[4], cs[5]]
  {
    var j := [1, 2, 4];
    assert cs[0].id == 1 && cs[1].id == 2 && cs[2].id == 3;
    assert cs[3].id == 4 && cs[4].id == 5 && cs[5].id == 6;
    assert cs[6..] == [];
    SelectStep(cs[5..], j, want);
    assert cs[5..][0] == cs[5] && cs[5..][1..] == cs[6..];
    SelectStep(cs[4..], j, want);
    assert cs[4..][0] == cs[4] && cs[4..][1..] == cs[5..];
    SelectStep(cs[3..], j, want);
    assert cs[3..][0] == cs[3] && cs[3..][1..] == cs[4..];
    SelectStep(cs[2..], j, want);
    assert cs[2..][0] == cs[2] && cs[2..][1..] == cs[3..];
    SelectStep(cs[1..], j, want);
    assert cs[1..][0] == cs[1] && cs[1..][1..] == cs[2..];
    SelectStep(cs, j, want);
  }

  /** With the demo membership list a user sees Web Development, Data Science and UI/UX Design as joined, the other three as recommended. */
  lemma DemoMembershipPanels()
    ensures JoinedPanel(Catalog(), true, [1, 2, 4]) == [Catalog()[0], Catalog()[1], Catalog()[3]]
    ensures RecommendedPanel(Catalog(), true, [1, 2, 4]) == [Catalog()[2], Catalog()[4], Catalog()[5]]
  {
    CatalogIds();
    DemoSplit(Catalog(), true);
    DemoSplit(Catalog(), false);
  }
}
