/**
 * app/profile/page.tsx: the profile record and its editable copy, the
 * edit/save/cancel cycle, the renaming of the user's own posts when the
 * signed-in user becomes known, and the way the sidebar shows the website.
 */
module Profile {
  import opened Wrappers
  import opened Auth
  import opened Comments
  import opened PostCard
  import Text
  import Feed

  /** The extended profile; `formData` has the same shape. */
  datatype ProfileData = ProfileData(
    name: string,
    email: string,
    bio: string,
    location: string,
    website: string,
    occupation: string,
    joinDate: string,
    avatarUrl: string)

  /** The profile before the signed-in user is known. */
  function InitialProfile(): (p: ProfileData)
    ensures p.name == "" && p.email == "" && p.avatarUrl == ""
    ensures p.bio == "Learning enthusiast passionate about web development and data science."
    ensures p.location == "San Francisco, CA" && p.website == "https://example.com"
    ensures p.occupation == "Software Developer" && p.joinDate == "January 2023"
  {
    ProfileData("", "", "Learning enthusiast passionate about web development and data science.",
      "San Francisco, CA", "https://example.com", "Software Developer", "January 2023", "")
  }

  /** The inputs of the edit form, by their `name` attribute; the join date has none. */
  datatype Field = Name | Email | Bio | Location | Occupation | Website | AvatarUrl

  /** The value of one editable field. */
  function Get(p: ProfileData, f: Field): string {
    match f
    case Name => p.name
    case Email => p.email
    case Bio => p.bio
    case Location => p.location
    case Occupation => p.occupation
    case Website => p.website
    case AvatarUrl => p.avatarUrl
  }

  /** `{ ...prev, [name]: value }`: the field takes the value, every other field and the join date stay. */
  function With(p: ProfileData, f: Field, value: string): (r: ProfileData)
    ensures Get(r, f) == value
    ensures forall g :: g != f ==> Get(r, g) == Get(p, g)
    ensures r.joinDate == p.joinDate
  {
    match f
    case Name => p.(name := value)
    case Email => p.(email := value)
    case Bio => p.(bio := value)
    case Location => p.(location := value)
    case Occupation => p.(occupation := value)
    case Website => p.(website := value)
    case AvatarUrl => p.(avatarUrl := value)
  }

  /** Two profiles that agree on every editable field and the join date are equal. */
  lemma FieldsDetermineProfile(p: ProfileData, q: ProfileData)
    requires forall f :: Get(p, f) == Get(q, f)
    requires p.joinDate == q.joinDate
    ensures p == q
  {
    assert Get(p, Name) == Get(q, Name) && Get(p, Email) == Get(q, Email);
    assert Get(p, Bio) == Get(q, Bio) && Get(p, Location) == Get(q, Location);
    assert Get(p, Occupation) == Get(q, Occupation) && Get(p, Website) == Get(q, Website);
    assert Get(p, AvatarUrl) == Get(q, AvatarUrl);
  }

  /** Typing into two different inputs gives the same form in either order. */
  lemma EditsCommute(p: ProfileData, f: Field, a: string, g: Field, b: string)
    requires f != g
    ensures With(With(p, f, a), g, b) == With(With(p, g, b), f, a)
  {
    FieldsDetermineProfile(With(With(p, f, a), g, b), With(With(p, g, b), f, a));
  }

  /** Typing into one input twice keeps only the last value. */
  lemma LastEditWins(p: ProfileData, f: Field, a: string, b: string)
    ensures With(With(p, f, a), f, b) == With(p, f, b)
  {
    FieldsDetermineProfile(With(With(p, f, a), f, b), With(p, f, b));
  }

  /** The user's posts with the author renamed and re-initialled; the avatar stays. */
  function RenameAuthors(posts: seq<Post>, name: string): (r: seq<Post>)
    ensures |r| == |posts|
    ensures forall i :: 0 <= i < |posts| ==>
      r[i] == posts[i].(author := Author(name, posts[i].author.avatar, Text.FirstChar(name)))
  {
    seq(|posts|, i requires 0 <= i < |posts| =>
      posts[i].(author := Author(name, posts[i].author.avatar, Text.FirstChar(name))))
  }

  /** Renaming to the same name twice is renaming once. */
  lemma RenameAuthorsIdempotent(posts: seq<Post>, name: string)
    ensures RenameAuthors(RenameAuthors(posts, name), name) == RenameAuthors(posts, name)
  {
  }

  /** `replace(/^https?:\/\//, "")`: one leading `https://` or `http://` is removed. */
  function StripScheme(url: string): (r: string)
    ensures |r| <= |url| && r == url[|url| - |r|..]
    ensures Text.StartsWith(url, "https://") ==> r == url[8..]
    ensures !Text.StartsWith(url, "https://") && Text.StartsWith(url, "http://") ==> r == url[7..]
    ensures r == url <==> !Text.StartsWith(url, "https://") && !Text.StartsWith(url, "http://")
  {
    if Text.StartsWith(url, "https://") then url[8..]
    else if Text.StartsWith(url, "http://") then url[7..]
    else url
  }

  /** Only one scheme is removed: the text after it is kept as written. */
  lemma StripSchemeOnce(rest: string)
    ensures StripScheme("https://" + rest) == rest
    ensures StripScheme("http://" + rest) == rest
  {
    assert ("https://" + rest)[..8] == "https://";
    assert ("http://" + rest)[..7] == "http://";
    assert ("http://" + rest)[4] == ':' != "https://"[4];
    assert ("https://" + rest)[8..] == rest;
    assert ("http://" + rest)[7..] == rest;
  }

  /** The sidebar line for the website: shown only when it is not empty, without its scheme. */
  function WebsiteLine(p: ProfileData): (r: Option<string>)
    ensures r.Some? <==> p.website != ""
    ensures r.Some? ==> r.value == StripScheme(p.website)
  {
    if p.website != "" then Some(StripScheme(p.website)) else None
  }

  /** The sidebar avatar image: the avatar URL, or the placeholder image when it is empty. */
  function AvatarSource(p: ProfileData): (r: string)
    ensures r != ""
    ensures p.avatarUrl != "" ==> r == p.avatarUrl
    ensures p.avatarUrl == "" ==> r == "/placeholder.svg"
  {
    if p.avatarUrl != "" then p.avatarUrl else "/placeholder.svg"
  }

  /** The profile page's state. */
  class ProfilePage {
    var posts: seq<Post>
    var profile: ProfileData
    var formData: ProfileData
    var isEditing: bool

    /** Outside edit mode the form mirrors the saved profile. */
    predicate Valid()
      reads this
    {
      !isEditing ==> formData == profile
    }

    constructor(activity: seq<Post>)
      ensures Valid()
      ensures posts == activity && profile == InitialProfile() && formData == InitialProfile() && !isEditing
    {
      posts := activity;
      profile := InitialProfile();
      formData := InitialProfile();
      isEditing := false;
    }

    /**
     * The effect on `user`: with a user, the name and email are copied into
     * both the profile and the form and the posts are renamed; the form's
     * other fields, including ones being edited, stay.
     */
    method SyncUser(user: Option<User>)
      requires Valid()
      modifies this
      ensures Valid()
      ensures user.None? ==> posts == old(posts) && profile == old(profile) && formData == old(formData)
      ensures user.Some? ==> (
        profile == old(profile).(name := user.value.name, email := user.value.email) &&
        formData == old(formData).(name := user.value.name, email := user.value.email) &&
        posts == RenameAuthors(old(posts), user.value.name))
      ensures isEditing == old(isEditing)
    {
      if user.Some? {
        profile := profile.(name := user.value.name, email := user.value.email);
        formData := formData.(name := user.value.name, email := user.value.email);
        posts := RenameAuthors(posts, user.value.name);
      }
    }

    /** The Edit Profile button. */
    method StartEdit()
      requires Valid()
      modifies this
      ensures Valid() && isEditing
      ensures posts == old(posts) && profile == old(profile) && formData == old(formData)
    {
      isEditing := true;
    }

    /** `handleInputChange`, available while the form is shown. */
    method HandleInputChange(f: Field, value: string)
      requires Valid() && isEditing
      modifies this
      ensures Valid() && isEditing
      ensures formData == With(old(formData), f, value)
      ensures posts == old(posts) && profile == old(profile)
    {
      formData := With(formData, f, value);
    }

    /** `handleSaveProfile`: the form becomes the profile. */
    method Save()
      requires Valid()
      modifies this
      ensures Valid() && !isEditing
      ensures profile == old(formData) && formData == old(formData) && posts == old(posts)
    {
      profile := formData;
      isEditing := false;
    }

    /** `handleCancelEdit`: the form is reset to the saved profile. */
    method Cancel()
      requires Valid()
      modifies this
      ensures Valid() && !isEditing
      ensures profile == old(profile) && formData == old(profile) && posts == old(posts)
    {
      formData := profile;
      isEditing := false;
    }

    /** `handleVote`: the same vote-state-only update as the feed's. */
    method HandleVote(postId: int, direction: Vote)
      modifies this
      ensures posts == Feed.SetUserVote(old(posts), postId, direction)
      ensures profile == old(profile) && formData == old(formData) && isEditing == old(isEditing)
    {
      posts := Feed.SetUserVote(posts, postId, direction);
    }
  }
}
