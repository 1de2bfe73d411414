/** The values shared by both versions of the client: what the server sends,
    the Story snapshot built from it, and the two JavaScript array builtins
    (`findIndex` by story id and `splice(start, 1)`) that every list update
    in the client is made of. */
module Records {

  datatype Option<T> = None | Some(value: T)

  /** The result of one remote call: the server's payload, or a failure of
      any kind (rejected status, no response, request not built). */
  datatype Outcome<T> = Ok(payload: T) | Err

  /** The two empty values an async method can settle with. */
  datatype NoValue = Undefined | Null

  /** A story object as the server returns it. */
  datatype StoryRecord = StoryRecord(
    author: string, title: string, url: string, username: string,
    storyId: string, createdAt: string, updatedAt: string)

  /** A user object as the server returns it, with its embedded lists. */
  datatype UserRecord = UserRecord(
    username: string, name: string, createdAt: string, updatedAt: string,
    favorites: seq<StoryRecord>, stories: seq<StoryRecord>)

  /** The body of a signup, login or profile-update response. */
  datatype AuthResponse = AuthResponse(user: UserRecord, token: string)

  /** An immutable snapshot of one posted link. */
  datatype Story = Story(
    author: string, title: string, url: string, username: string,
    storyId: string, createdAt: string, updatedAt: string)

  /** The `Story` constructor: copies the seven attributes of the record. */
  function NewStory(o: StoryRecord): (s: Story)
    ensures s.author == o.author && s.title == o.title && s.url == o.url
    ensures s.username == o.username && s.storyId == o.storyId
    ensures s.createdAt == o.createdAt && s.updatedAt == o.updatedAt
  {
    Story(o.author, o.title, o.url, o.username, o.storyId, o.createdAt, o.updatedAt)
  }

  /** `records.map(s => new Story(s))`. */
  function NewStories(rs: seq<StoryRecord>): (ss: seq<Story>)
    ensures |ss| == |rs|
    ensures forall i :: 0 <= i < |rs| ==> ss[i] == NewStory(rs[i])
  {
    if rs == [] then [] else [NewStory(rs[0])] + NewStories(rs[1..])
  }

  predicate HasId(s: seq<Story>, id: string) {
    exists i :: 0 <= i < |s| && s[i].storyId == id
  }

  /** No two entries share an id. */
  predicate UniqueIds(s: seq<Story>) {
    forall i, j :: 0 <= i < j < |s| ==> s[i].storyId != s[j].storyId
  }

  function Ids(s: seq<Story>): set<string> {
    set i | 0 <= i < |s| :: s[i].storyId
  }

  /** `s.findIndex(item => item.storyId == id)`: the first index holding the
      id, or -1 when there is none. */
  function FindIndexById(s: seq<Story>, id: string): (k: int)
    ensures -1 <= k < |s|
    ensures k == -1 <==> !HasId(s, id)
    ensures k >= 0 ==> s[k].storyId == id
    ensures forall j :: 0 <= j < k ==> s[j].storyId != id
  {
    if s == [] then -1
    else if s[0].storyId == id then 0
    else
      var k := FindIndexById(s[1..], id);
      if k == -1 then -1 else k + 1
  }

  /** Where `splice(start, ...)` begins: a negative start counts from the end
      and is clamped at 0, a start past the end is clamped at the length. */
  function SpliceStart(len: nat, start: int): (k: nat)
    ensures k <= len
    ensures 0 <= start <= len ==> k == start
    ensures start < 0 && -start <= len ==> k == len + start
  {
    if start < 0 then (if len + start < 0 then 0 else len + start)
    else if start > len then len
    else start
  }

  /** `s.splice(start, 1)` applied to `s`: the array left behind. */
  function SpliceOne<T>(s: seq<T>, start: int): (r: seq<T>)
    ensures |r| == if s != [] && start < |s| then |s| - 1 else |s|
    ensures 0 <= start < |s| ==> r == s[..start] + s[start + 1..]
    ensures start == -1 && |s| > 0 ==> r == s[..|s| - 1]
    ensures start >= |s| || s == [] ==> r == s
  {
    var k := SpliceStart(|s|, start);
    if k < |s| then s[..k] + s[k + 1..] else s
  }

  /** `s.splice(s.findIndex(item => item.storyId == id), 1)`. */
  function RemoveById(s: seq<Story>, id: string): seq<Story> {
    SpliceOne(s, FindIndexById(s, id))
  }

  /** Reference definition: drop the first entry with the id, if any. */
  function RemoveFirst(s: seq<Story>, id: string): seq<Story> {
    if s == [] then []
    else if s[0].storyId == id then s[1..]
    else [s[0]] + RemoveFirst(s[1..], id)
  }

  lemma {:induction false} RemoveFirstAt(s: seq<Story>, id: string, k: nat)
    requires k < |s| && s[k].storyId == id
    requires forall j :: 0 <= j < k ==> s[j].storyId != id
    ensures RemoveFirst(s, id) == s[..k] + s[k + 1..]
  {
    if k > 0 {
      RemoveFirstAt(s[1..], id, k - 1);
      assert s[1..][..k - 1] + s[1..][k..] == s[1..k] + s[k + 1..];
      assert s[..k] == [s[0]] + s[1..k];
    }
  }

  /** What the client's removal really does: the first entry with the id
      goes; when no entry has it, `findIndex` yields -1 and the LAST entry of a
      non-empty list goes instead. */
  lemma RemoveByIdMeaning(s: seq<Story>, id: string)
    ensures HasId(s, id) ==> RemoveById(s, id) == RemoveFirst(s, id)
    ensures !HasId(s, id) && s != [] ==> RemoveById(s, id) == s[..|s| - 1]
    ensures s == [] ==> RemoveById(s, id) == []
  {
    var k := FindIndexById(s, id);
    if HasId(s, id) {
      RemoveFirstAt(s, id, k);
    }
  }

  lemma RemoveByIdLength(s: seq<Story>, id: string)
    ensures s != [] ==> |RemoveById(s, id)| == |s| - 1
    ensures s == [] ==> RemoveById(s, id) == []
  {
    var k := FindIndexById(s, id);
    if k == -1 && s != [] {
      assert RemoveById(s, id) == s[..|s| - 1];
    } else if k != -1 {
      assert RemoveById(s, id) == s[..k] + s[k + 1..];
    }
  }

  /** Entry `i` of the list left by removing index `k`. */
  lemma SpliceOneAt(s: seq<Story>, k: nat, i: nat)
    requires k < |s| && i < |s| - 1
    ensures SpliceOne(s, k)[i] == s[if i < k then i else i + 1]
  {
  }

  /** With unique ids, removing an id that is present leaves none of it. */
  lemma RemovePresentIdGone(s: seq<Story>, id: string)
    requires UniqueIds(s) && HasId(s, id)
    ensures !HasId(RemoveById(s, id), id)
  {
    var k := FindIndexById(s, id);
    forall i | 0 <= i < |RemoveById(s, id)| ensures RemoveById(s, id)[i].storyId != id {
      SpliceOneAt(s, k, i);
      if i >= k { assert s[k].storyId != s[i + 1].storyId; }
    }
  }

  /** Removing an entry keeps the ids unique. */
  lemma RemoveKeepsUnique(s: seq<Story>, id: string)
    requires UniqueIds(s)
    ensures UniqueIds(RemoveById(s, id))
  {
    var k := FindIndexById(s, id);
    var r := RemoveById(s, id);
    if k != -1 {
      forall i, j | 0 <= i < j < |r| ensures r[i].storyId != r[j].storyId {
        SpliceOneAt(s, k, i);
        SpliceOneAt(s, k, j);
      }
    } else if s != [] {
      forall i, j | 0 <= i < j < |r| ensures r[i].storyId != r[j].storyId {
        assert r[i] == s[i] && r[j] == s[j];
      }
    }
  }

  /** With unique ids, removing a present id takes exactly it out of the id set. */
  lemma RemovePresentIdIds(s: seq<Story>, id: string)
    requires UniqueIds(s) && HasId(s, id)
    ensures Ids(RemoveById(s, id)) == Ids(s) - {id}
  {
    var k := FindIndexById(s, id);
    var r := RemoveById(s, id);
    RemovePresentIdGone(s, id);
    forall x | x in Ids(r) ensures x in Ids(s) - {id} {
      var i :| 0 <= i < |r| && r[i].storyId == x;
      SpliceOneAt(s, k, i);
      assert s[if i < k then i else i + 1].storyId == x;
    }
    forall x | x in Ids(s) - {id} ensures x in Ids(r) {
      var i :| 0 <= i < |s| && s[i].storyId == x;
      var i' := if i < k then i else i - 1;
      SpliceOneAt(s, k, i');
      assert r[i'].storyId == x;
    }
  }

  /** With unique ids, removing an id that is present leaves none of it, keeps
      the ids unique and takes exactly that id out of the id set. */
  lemma RemovePresentId(s: seq<Story>, id: string)
    requires UniqueIds(s) && HasId(s, id)
    ensures !HasId(RemoveById(s, id), id)
    ensures UniqueIds(RemoveById(s, id))
    ensures Ids(RemoveById(s, id)) == Ids(s) - {id}
  {
    RemovePresentIdGone(s, id);
    RemoveKeepsUnique(s, id);
    RemovePresentIdIds(s, id);
  }

  /** Appending a story whose id is absent and then removing that id gives
      the list back. */
  lemma RemoveAppended(s: seq<Story>, x: Story)
    requires !HasId(s, x.storyId)
    ensures RemoveById(s + [x], x.storyId) == s
  {
    var t := s + [x];
    assert t[|s|].storyId == x.storyId;
    assert forall j :: 0 <= j < |s| ==> t[j] == s[j];
    assert FindIndexById(t, x.storyId) == |s|;
    assert t[..|s|] == s;
  }
}
