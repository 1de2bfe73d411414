/** The earlier client version (api-classes.js): the same story list and user,
    except that removals splice the local lists BEFORE the remote delete and
    are never rolled back, and that fetching stories and restoring a session
    let a failed request escape as an exception. */
module ApiClasses {
  import opened Records
  import Users
  import StoryLists

  /** The (own stories, stories) pair left by the earlier `removeStory`: the
      request's outcome plays no part. */
  function AfterRemove(own: seq<Story>, stories: seq<Story>, id: string): (seq<Story>, seq<Story>) {
    if !HasId(own, id) then (own, stories)
    else (RemoveById(own, id), RemoveById(stories, id))
  }

  class StoryList {
    var stories: seq<Story>

    constructor (stories: seq<Story>)
      ensures this.stories == stories
    {
      this.stories := stories;
    }

    /** Fetch all stories. There is no error handling: a failed request is
        raised to the caller instead of becoming null. */
    static method GetStories(resp: Outcome<seq<StoryRecord>>) returns (list: StoryList?, raised: bool)
      ensures resp.Err? ==> list == null && raised
      ensures resp.Ok? ==> !raised && list != null && fresh(list) && list.stories == NewStories(resp.payload)
    {
      if resp.Err? { return null, true; }
      list := new StoryList(NewStories(resp.payload));
      raised := false;
    }

    method AddStory(resp: Outcome<StoryRecord>) returns (added: Option<Story>)
      modifies this
      ensures resp.Ok? ==> added == Some(NewStory(resp.payload)) && stories == old(stories) + [added.value]
      ensures resp.Err? ==> added == None && stories == old(stories)
    {
      if resp.Err? { return None; }
      var storyObj := NewStory(resp.payload);
      stories := stories + [storyObj];
      return Some(storyObj);
    }

    /** Delete one of the user's own stories, splicing both lists first; the
        outcome of the delete request does not matter. Settles with `undefined`
        when the user owns no such story and with `null` otherwise. */
    method RemoveStory(user: User, storyId: string, resp: Outcome<()>) returns (r: NoValue)
      modifies this, user`ownStories
      ensures (user.ownStories, stories) == AfterRemove(old(user.ownStories), old(stories), storyId)
      ensures r == if HasId(old(user.ownStories), storyId) then Null else Undefined
    {
      var userStoryInd := FindIndexById(user.ownStories, storyId);
      if userStoryInd == -1 { return Undefined; }
      user.ownStories := SpliceOne(user.ownStories, userStoryInd);
      stories := SpliceOne(stories, FindIndexById(stories, storyId));
      // the delete request is issued here; a failure is only logged
      return Null;
    }
  }

  class User {
    var username: string
    var name: string
    var createdAt: string
    var updatedAt: string
    var loginToken: string
    var favorites: seq<Story>
    var ownStories: seq<Story>

    predicate Holds(rec: UserRecord)
      reads this
    {
      username == rec.username && name == rec.name &&
      createdAt == rec.createdAt && updatedAt == rec.updatedAt
    }

    constructor (userObj: UserRecord)
      ensures Holds(userObj)
      ensures loginToken == "" && favorites == [] && ownStories == []
    {
      username := userObj.username;
      name := userObj.name;
      createdAt := userObj.createdAt;
      updatedAt := userObj.updatedAt;
      loginToken := "";
      favorites := [];
      ownStories := [];
    }

    static method Create(resp: Outcome<AuthResponse>) returns (u: User?)
      ensures resp.Err? ==> u == null
      ensures resp.Ok? ==> u != null && fresh(u) && u.Holds(resp.payload.user)
      ensures resp.Ok? ==> u.loginToken == resp.payload.token && u.favorites == [] && u.ownStories == []
    {
      if resp.Err? { return null; }
      u := new User(resp.payload.user);
      u.loginToken := resp.payload.token;
    }

    static method Login(resp: Outcome<AuthResponse>) returns (u: User?)
      ensures resp.Err? ==> u == null
      ensures resp.Ok? ==> u != null && fresh(u) && u.Holds(resp.payload.user)
      ensures resp.Ok? ==> u.loginToken == resp.payload.token
      ensures resp.Ok? ==> u.favorites == NewStories(resp.payload.user.favorites)
      ensures resp.Ok? ==> u.ownStories == NewStories(resp.payload.user.stories)
    {
      if resp.Err? { return null; }
      u := new User(resp.payload.user);
      u.favorites := NewStories(resp.payload.user.favorites);
      u.ownStories := NewStories(resp.payload.user.stories);
      u.loginToken := resp.payload.token;
    }

    /** Session restore: null with no request when the token or the username
        is missing or empty; otherwise the SUPPLIED token is kept. */
    static method GetLoggedInUser(token: Option<string>, username: Option<string>, resp: Outcome<UserRecord>)
      returns (u: User?, raised: bool)
      ensures !Users.Present(token) || !Users.Present(username) ==> u == null && !raised
      ensures Users.Present(token) && Users.Present(username) && resp.Err? ==> u == null && raised
      ensures Users.Present(token) && Users.Present(username) && resp.Ok? ==>
        !raised && u != null && fresh(u) && u.Holds(resp.payload) &&
        u.loginToken == token.value &&
        u.favorites == NewStories(resp.payload.favorites) &&
        u.ownStories == NewStories(resp.payload.stories)
    {
      if !Users.Present(token) || !Users.Present(username) { return null, false; }
      if resp.Err? { return null, true; }
      u := new User(resp.payload);
      u.loginToken := token.value;
      u.favorites := NewStories(resp.payload.favorites);
      u.ownStories := NewStories(resp.payload.stories);
      raised := false;
    }

    /** Same rule as the later version: grow by the response's last entry only
        when the response list is longer. */
    method AddFavoriteStory(storyId: string, resp: Outcome<UserRecord>) returns (added: Option<Story>)
      modifies this`favorites
      ensures added == Users.AddedFavorite(old(favorites), resp)
      ensures favorites == old(favorites) + Users.OptionToSeq(added)
    {
      if resp.Ok? && |resp.payload.favorites| > |favorites| {
        var storyObj := NewStory(resp.payload.favorites[|resp.payload.favorites| - 1]);
        favorites := favorites + [storyObj];
        return Some(storyObj);
      }
      return None;
    }

    /** Splice the favorite out before the delete request, whatever its outcome. */
    method RemoveFavoriteStory(storyId: string, resp: Outcome<()>)
      modifies this`favorites
      ensures favorites == RemoveById(old(favorites), storyId)
    {
      favorites := SpliceOne(favorites, FindIndexById(favorites, storyId));
      // the delete request is issued here; a failure is only logged
    }
  }

  /** The two versions agree when the delete succeeds; when it fails, the later
      version keeps both lists, while the earlier one has already removed the
      story, so local and server state diverge. */
  lemma SpeculativeRemoveDiverges(own: seq<Story>, stories: seq<Story>, id: string)
    requires HasId(own, id)
    ensures AfterRemove(own, stories, id) == StoryLists.AfterRemove(own, stories, id, true)
    ensures StoryLists.AfterRemove(own, stories, id, false) == (own, stories)
    ensures |AfterRemove(own, stories, id).0| == |own| - 1
    ensures stories != [] ==> |AfterRemove(own, stories, id).1| == |stories| - 1
  {
    RemoveByIdLength(own, id);
    RemoveByIdLength(stories, id);
  }

  /** For favorites likewise: on a failed delete the earlier version has lost
      a favorite the server still holds, the later version has not. */
  lemma SpeculativeFavoriteRemoveDiverges(favorites: seq<Story>, id: string)
    requires favorites != []
    ensures Users.RemainingFavorites(favorites, id, false) == favorites
    ensures |RemoveById(favorites, id)| == |favorites| - 1
    ensures RemoveById(favorites, id) == Users.RemainingFavorites(favorites, id, true)
  {
    RemoveByIdLength(favorites, id);
  }
}
