/** The current user of the later client version (user.js): identity, session
    token, favorites and own stories, kept in step with the server. Each
    remote call is an `Outcome` parameter; the local lists change only after
    the call has succeeded. */
module Users {
  import opened Records

  /** The story that `addFavoriteStory` attaches for a favorites response:
      the response's last entry, and only when the response list is longer
      than the local one. */
  function AddedFavorite(local: seq<Story>, resp: Outcome<UserRecord>): Option<Story> {
    if resp.Ok? && |resp.payload.favorites| > |local|
    then Some(NewStory(resp.payload.favorites[|resp.payload.favorites| - 1]))
    else None
  }

  function OptionToSeq(o: Option<Story>): seq<Story> {
    if o.Some? then [o.value] else []
  }

  /** The favorites left by `removeFavoriteStory`: spliced only when the
      delete request succeeded. */
  function RemainingFavorites(favorites: seq<Story>, id: string, deleted: bool): seq<Story> {
    if deleted then RemoveById(favorites, id) else favorites
  }

  class User {
    var username: string
    var name: string
    var createdAt: string
    var updatedAt: string
    var loginToken: string
    var favorites: seq<Story>
    var ownStories: seq<Story>

    /** The identity attributes agree with the server's user record. */
    predicate Holds(rec: UserRecord)
      reads this
    {
      username == rec.username && name == rec.name &&
      createdAt == rec.createdAt && updatedAt == rec.updatedAt
    }

    constructor (userObj: UserRecord)
      ensures Holds(userObj)
      ensures loginToken == "" && favorites == [] && ownStories == []
    {
      username := userObj.username;
      name := userObj.name;
      createdAt := userObj.createdAt;
      updatedAt := userObj.updatedAt;
      loginToken := "";
      favorites := [];
      ownStories := [];
    }

    /** Signup: on success a user with the response's token and no stories. */
    static method Create(resp: Outcome<AuthResponse>) returns (u: User?)
      ensures resp.Err? ==> u == null
      ensures resp.Ok? ==> u != null && fresh(u) && u.Holds(resp.payload.user)
      ensures resp.Ok? ==> u.loginToken == resp.payload.token && u.favorites == [] && u.ownStories == []
    {
      if resp.Err? { return null; }
      u := new User(resp.payload.user);
      u.loginToken := resp.payload.token;
    }

    /** Login: on success a user whose lists are the response's lists mapped
        to stories in order, with the response's token. */
    static method Login(resp: Outcome<AuthResponse>) returns (u: User?)
      ensures resp.Err? ==> u == null
      ensures resp.Ok? ==> u != null && fresh(u) && u.Holds(resp.payload.user)
      ensures resp.Ok? ==> u.loginToken == resp.payload.token
      ensures resp.Ok? ==> u.favorites == NewStories(resp.payload.user.favorites)
      ensures resp.Ok? ==> u.ownStories == NewStories(resp.payload.user.stories)
    {
      if resp.Err? { return null; }
      u := new User(resp.payload.user);
      u.favorites := NewStories(resp.payload.user.favorites);
      u.ownStories := NewStories(resp.payload.user.stories);
      u.loginToken := resp.payload.token;
    }

    /** Session restore. A missing or empty token or username gives null with
        no request; a failed request is not caught (`raised`); otherwise the
        user carries the SUPPLIED token and the response's lists. */
    static method GetLoggedInUser(token: Option<string>, username: Option<string>, resp: Outcome<UserRecord>)
      returns (u: User?, raised: bool)
      ensures !Present(token) || !Present(username) ==> u == null && !raised
      ensures Present(token) && Present(username) && resp.Err? ==> u == null && raised
      ensures Present(token) && Present(username) && resp.Ok? ==>
        !raised && u != null && fresh(u) && u.Holds(resp.payload) &&
        u.loginToken == token.value &&
        u.favorites == NewStories(resp.payload.favorites) &&
        u.ownStories == NewStories(resp.payload.stories)
    {
      if !Present(token) || !Present(username) { return null, false; }
      if resp.Err? { return null, true; }
      u := new User(resp.payload);
      u.loginToken := token.value;
      u.favorites := NewStories(resp.payload.favorites);
      u.ownStories := NewStories(resp.payload.stories);
      raised := false;
    }

    /** Add a favorite: grows `favorites` by the response's last entry exactly
        when the response list is longer than the local one. */
    method AddFavoriteStory(storyId: string, resp: Outcome<UserRecord>) returns (added: Option<Story>)
      modifies this`favorites
      ensures added == AddedFavorite(old(favorites), resp)
      ensures favorites == old(favorites) + OptionToSeq(added)
    {
      if resp.Ok? && |resp.payload.favorites| > |favorites| {
        var storyObj := NewStory(resp.payload.favorites[|resp.payload.favorites| - 1]);
        favorites := favorites + [storyObj];
        return Some(storyObj);
      }
      return None;
    }

    /** Remove a favorite once the delete request has succeeded. */
    method RemoveFavoriteStory(storyId: string, resp: Outcome<()>)
      modifies this`favorites
      ensures favorites == RemainingFavorites(old(favorites), storyId, resp.Ok?)
    {
      if resp.Ok? {
        favorites := SpliceOne(favorites, FindIndexById(favorites, storyId));
      }
    }

    /** Profile update: on success only `name` changes here, and a fresh user
        built from the response (its token, empty lists) is returned. */
    method UpdateUser(newName: string, resp: Outcome<AuthResponse>) returns (u: User?)
      modifies this`name
      ensures resp.Err? ==> u == null && name == old(name)
      ensures resp.Ok? ==> name == newName
      ensures resp.Ok? ==> u != null && fresh(u) && u.Holds(resp.payload.user)
      ensures resp.Ok? ==> u.loginToken == resp.payload.token && u.favorites == [] && u.ownStories == []
    {
      if resp.Err? { return null; }
      u := new User(resp.payload.user);
      u.loginToken := resp.payload.token;
      name := newName;
    }
  }

  /** JavaScript truthiness of an optional string: present and non-empty. */
  predicate Present(s: Option<string>) {
    s.Some? && s.value != ""
  }

  /** `addFavoriteStory` grows the list by exactly one iff the call succeeded
      with a longer favorites list, and the added story is then the response's
      last entry; otherwise nothing is added. */
  lemma AddFavoriteGrowsIff(local: seq<Story>, resp: Outcome<UserRecord>)
    ensures var after := local + OptionToSeq(AddedFavorite(local, resp));
      (|after| == |local| + 1 <==> resp.Ok? && |resp.payload.favorites| > |local|) &&
      (|after| != |local| + 1 ==> after == local)
    ensures AddedFavorite(local, resp).Some? ==>
      var fs := resp.payload.favorites;
      AddedFavorite(local, resp) == Some(NewStory(fs[|fs| - 1]))
  {
  }

  /** A second add of the same favorite, answered with the same favorites set
      (the server keeps a set), adds nothing. */
  lemma {:induction false} AddFavoriteRepeatAddsNothing(local: seq<Story>, rec: UserRecord)
    requires |rec.favorites| == |local| + 1
    ensures var first := AddedFavorite(local, Ok(rec));
      first.Some? && AddedFavorite(local + OptionToSeq(first), Ok(rec)) == None
  {
    assert |local + OptionToSeq(AddedFavorite(local, Ok(rec)))| == |local| + 1;
  }

  /** The favorite attached is chosen by position, not by id: it need not be
      the story that was asked for. */
  lemma AddFavoriteMayAttachAnotherStory()
    ensures var rec := UserRecord("u", "U", "c", "d",
        [StoryRecord("a", "t", "x", "u", "requested", "c", "d"),
         StoryRecord("a", "t", "x", "u", "other", "c", "d")], []);
      AddedFavorite([], Ok(rec)) == Some(NewStory(rec.favorites[1])) &&
      AddedFavorite([], Ok(rec)).value.storyId != "requested"
  {
  }

  /** A failed delete leaves the favorites; a successful one removes the first
      favorite with the id, or the last favorite when none has it. */
  lemma RemoveFavoriteMeaning(favorites: seq<Story>, id: string, deleted: bool)
    ensures !deleted ==> RemainingFavorites(favorites, id, deleted) == favorites
    ensures deleted && HasId(favorites, id) ==>
      RemainingFavorites(favorites, id, deleted) == RemoveFirst(favorites, id)
    ensures deleted && !HasId(favorites, id) && favorites != [] ==>
      RemainingFavorites(favorites, id, deleted) == favorites[..|favorites| - 1]
  {
    RemoveByIdMeaning(favorites, id);
  }

  /** Removing the same favorite twice is not a no-op the second time: with
      unique ids and at least two favorites, the second successful call finds
      no entry, and `splice(-1, 1)` drops a different favorite (the last one). */
  lemma RemoveFavoriteTwiceDropsAnother(favorites: seq<Story>, id: string)
    requires UniqueIds(favorites) && HasId(favorites, id) && |favorites| >= 2
    ensures var once := RemainingFavorites(favorites, id, true);
      var twice := RemainingFavorites(once, id, true);
      |twice| == |favorites| - 2 && twice == once[..|once| - 1]
  {
    var once := RemoveById(favorites, id);
    RemovePresentId(favorites, id);
    RemoveByIdMeaning(once, id);
  }
}
