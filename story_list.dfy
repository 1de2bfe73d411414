/** The story list of the later client version (story.js). Each remote call
    is an `Outcome` parameter; local lists are changed only after the call
    has succeeded, never speculatively. */
module StoryLists {
  import opened Records
  import Users

  /** The (own stories, stories) pair left by `removeStory`: untouched when the
      user owns no story with the id or the delete failed; otherwise the id is
      removed from both lists. */
  function AfterRemove(own: seq<Story>, stories: seq<Story>, id: string, deleted: bool): (seq<Story>, seq<Story>) {
    if !HasId(own, id) || !deleted then (own, stories)
    else (RemoveById(own, id), RemoveById(stories, id))
  }

  /** The (own stories, stories) pair left by `updateStory` with the server's
      story: the stale entry leaves both lists and the new one is appended to
      the story list only. */
  function AfterUpdate(own: seq<Story>, stories: seq<Story>, id: string, resp: Outcome<StoryRecord>): (seq<Story>, seq<Story>) {
    if !HasId(own, id) || resp.Err? then (own, stories)
    else (RemoveById(own, id), RemoveById(stories, id) + [NewStory(resp.payload)])
  }

  class StoryList {
    var stories: seq<Story>

    constructor (stories: seq<Story>)
      ensures this.stories == stories
    {
      this.stories := stories;
    }

    /** Fetch all stories: the response's records as stories, same length and
        order; null when the request failed. */
    static method GetStories(resp: Outcome<seq<StoryRecord>>) returns (list: StoryList?)
      ensures resp.Err? ==> list == null
      ensures resp.Ok? ==> list != null && fresh(list) && list.stories == NewStories(resp.payload)
    {
      if resp.Err? { return null; }
      list := new StoryList(NewStories(resp.payload));
    }

    /** Post a story: on success the server's story is appended and returned;
        on failure nothing is inserted. */
    method AddStory(resp: Outcome<StoryRecord>) returns (added: Option<Story>)
      modifies this
      ensures resp.Ok? ==> added == Some(NewStory(resp.payload)) && stories == old(stories) + [added.value]
      ensures resp.Err? ==> added == None && stories == old(stories)
    {
      if resp.Err? { return None; }
      var storyObj := NewStory(resp.payload);
      stories := stories + [storyObj];
      return Some(storyObj);
    }

    /** Delete one of the user's own stories, after the server has confirmed. */
    method RemoveStory(user: Users.User, storyId: string, resp: Outcome<()>)
      modifies this, user`ownStories
      ensures (user.ownStories, stories) == AfterRemove(old(user.ownStories), old(stories), storyId, resp.Ok?)
    {
      var userStoryInd := FindIndexById(user.ownStories, storyId);
      if userStoryInd == -1 { return; }
      if resp.Ok? {
        user.ownStories := SpliceOne(user.ownStories, userStoryInd);
        stories := SpliceOne(stories, FindIndexById(stories, storyId));
      }
    }

    /** Edit one of the user's own stories: on success the stale entry goes
        and the server's story is appended and returned. */
    method UpdateStory(user: Users.User, storyId: string, author: string, title: string, url: string,
                       resp: Outcome<StoryRecord>) returns (updated: Option<Story>)
      modifies this, user`ownStories
      ensures (user.ownStories, stories) == AfterUpdate(old(user.ownStories), old(stories), storyId, resp)
      ensures updated == if HasId(old(user.ownStories), storyId) && resp.Ok?
                         then Some(NewStory(resp.payload)) else None
    {
      var userStoryInd := FindIndexById(user.ownStories, storyId);
      if userStoryInd == -1 { return None; }
      if resp.Err? { return None; }
      user.ownStories := SpliceOne(user.ownStories, userStoryInd);
      stories := SpliceOne(stories, FindIndexById(stories, storyId));
      var storyObj := NewStory(resp.payload);
      stories := stories + [storyObj];
      return Some(storyObj);
    }
  }

  /** A successful `removeStory` of an owned id drops the user's first story
      with that id, and from the story list the first story with that id, or
      the LAST story when the list holds none (`splice(-1, 1)`). */
  lemma RemoveStoryMeaning(own: seq<Story>, stories: seq<Story>, id: string)
    requires HasId(own, id)
    ensures AfterRemove(own, stories, id, true).0 == RemoveFirst(own, id)
    ensures HasId(stories, id) ==> AfterRemove(own, stories, id, true).1 == RemoveFirst(stories, id)
    ensures !HasId(stories, id) && stories != [] ==>
      AfterRemove(own, stories, id, true).1 == stories[..|stories| - 1]
  {
    RemoveByIdMeaning(own, id);
    RemoveByIdMeaning(stories, id);
  }

  /** A successful `updateStory` of an owned id drops the user's first story
      with that id (so, with unique ids, none is left), and from the story list
      the first story with that id, or the LAST story when the list holds none,
      before appending the server's story. */
  lemma UpdateStoryMeaning(own: seq<Story>, stories: seq<Story>, id: string, rec: StoryRecord)
    requires HasId(own, id)
    ensures AfterUpdate(own, stories, id, Ok(rec)).0 == RemoveFirst(own, id)
    ensures UniqueIds(own) ==> !HasId(AfterUpdate(own, stories, id, Ok(rec)).0, id)
    ensures HasId(stories, id) ==>
      AfterUpdate(own, stories, id, Ok(rec)).1 == RemoveFirst(stories, id) + [NewStory(rec)]
    ensures !HasId(stories, id) && stories != [] ==>
      AfterUpdate(own, stories, id, Ok(rec)).1 == stories[..|stories| - 1] + [NewStory(rec)]
  {
    RemoveByIdMeaning(own, id);
    RemoveByIdMeaning(stories, id);
    if UniqueIds(own) {
      RemovePresentIdGone(own, id);
    }
  }

  /** A successful `updateStory` keeps the story list's length whenever the list
      is non-empty; with unique ids and the id present, the list keeps exactly
      its ids, stays duplicate-free, and the replacement sits at the tail. */
  lemma UpdateKeepsMembership(own: seq<Story>, stories: seq<Story>, id: string, rec: StoryRecord)
    requires HasId(own, id) && stories != []
    ensures var after := AfterUpdate(own, stories, id, Ok(rec)).1;
      |after| == |stories| && after[|after| - 1] == NewStory(rec)
    ensures UniqueIds(stories) && HasId(stories, id) && rec.storyId == id ==>
      var after := AfterUpdate(own, stories, id, Ok(rec)).1;
      Ids(after) == Ids(stories) && UniqueIds(after)
  {
    var removed := RemoveById(stories, id);
    var after := removed + [NewStory(rec)];
    if UniqueIds(stories) && HasId(stories, id) && rec.storyId == id {
      RemovePresentId(stories, id);
      assert after[|removed|].storyId == id;
      assert Ids(after) == Ids(removed) + {id} by {
        forall x ensures x in Ids(after) <==> x in Ids(removed) + {id} {
          if x in Ids(after) {
            var i :| 0 <= i < |after| && after[i].storyId == x;
            if i < |removed| { assert removed[i] == after[i]; }
          }
          if x in Ids(removed) {
            var i :| 0 <= i < |removed| && removed[i].storyId == x;
            assert after[i] == removed[i];
          }
        }
      }
      forall i, j | 0 <= i < j < |after| ensures after[i].storyId != after[j].storyId {
        assert after[i] == removed[i];
        if j < |removed| { assert after[j] == removed[j]; }
      }
    }
  }

  /** Adding a story and then removing it (both calls succeeding, the new
      story recorded among the user's own stories as the page does) gives
      both lists back. */
  lemma AddThenRemoveRoundTrip(own: seq<Story>, stories: seq<Story>, rec: StoryRecord)
    requires !HasId(own, rec.storyId) && !HasId(stories, rec.storyId)
    ensures var x := NewStory(rec);
      AfterRemove(own + [x], stories + [x], rec.storyId, true) == (own, stories)
  {
    var x := NewStory(rec);
    assert (own + [x])[|own|].storyId == rec.storyId;
    RemoveAppended(own, x);
    RemoveAppended(stories, x);
  }
}
