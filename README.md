# Hack or Snooze client bookkeeping, in Dafny

This project models the in-memory bookkeeping of the "Hack or Snooze" browser
client. The client keeps a list of stories and a current user whose favorites
and own stories must stay in step with a remote REST API. The model covers
three things:

- **The later version** (`story.js`, `user.js`): `StoryList` and `User`
  classes whose lists change only after the remote call has succeeded.
  `updateStory` and `updateUser` exist only in this version.
- **The earlier version** (`api-classes.js`): the same classes. Its
  `removeStory` and `removeFavoriteStory` splice the local lists *before* the
  delete request and never roll back. Its `getStories` and `getLoggedInUser`
  let a failed request escape as an exception.
- **`getHostName`** (`ui.js`): the pure string helper that shows the host of a
  story's url.

Every remote call is an input `Outcome<T> = Ok(payload) | Err`. The server's
story, user record or token is just that parameter. Each method is then a plain
update of `seq` fields, with a postcondition that gives the whole new state.
Uncaught failures become a `raised` out-parameter. These are `getStories` of
`api-classes.js`, and `getLoggedInUser` of both versions.

The two JavaScript array builtins behind every removal are modelled exactly
(`Records.FindIndexById`, `Records.SpliceOne`). When `findIndex` finds no
match it returns -1, and `splice(-1, 1)` then removes the **last** element of a
non-empty array. `Records.RemoveByIdMeaning` proves that a removal drops one of
two things:
- the first entry with the id, if there is one (matching the reference
  definition `RemoveFirst`);
- otherwise, the last entry.

Modules:

- `Records` (`records.dfy`): server payloads, the `Story` value and its
  constructor, and `findIndex`/`splice`. The `Story` constructor of
  `api-classes.js:281-289` is the same as the one in `story.js:150-158`, and
  both are modelled by `Records.NewStory`.
- `Users` (`users.dfy`): the `User` class of `user.js`.
- `StoryLists` (`story_list.dfy`): the `StoryList` class of `story.js`. It
  imports `Users` because `removeStory` and `updateStory` change
  `user.ownStories`.
- `ApiClasses` (`api_classes.dfy`): the earlier `StoryList` and `User` classes.
  It also holds lemmas that compare the two versions.
- `HostName` (`host_name.dfy`): `getHostName` together with JavaScript's
  `indexOf` and `split`.

Two consequences of the code:
- In `api-classes.js` a second `removeFavoriteStory` of the same id always
  drops the last favorite, whatever the server answers: `findIndex` gives -1
  and `splice(-1, 1)` runs before the request (api-classes.js:256-258). In
  `user.js` it does so when the second delete succeeds and a favorite
  remains (user.js:159-165). `Users.RemoveFavoriteTwiceDropsAnother` proves
  it for a successful splice, which `ApiClasses.SpeculativeFavoriteRemoveDiverges`
  shows is what the earlier version always does.
- Only `api-classes.js` splices before the delete request. `story.js` and
  `user.js` splice after it succeeds (`ApiClasses.SpeculativeRemoveDiverges`,
  `ApiClasses.SpeculativeFavoriteRemoveDiverges`).

## Model

| member | source | states |
|---|---|---|
| Records.NewStory | story.js:150-158 | The Story copies author, title, url, username, storyId, createdAt and updatedAt unchanged from the record. |
| Records.NewStories | story.js:32 | Mapping records to stories keeps the length, and entry i is the Story of record i (same order). |
| Records.FindIndexById | story.js:80 | findIndex gives -1 exactly when no entry has the id. Otherwise it gives the first index whose storyId matches. |
| Records.SpliceOne | story.js:91-93 | splice(k, 1) removes entry k when k is in range. With k = -1 it removes the last entry of a non-empty array. Past the end, or on an empty array, it changes nothing. |
| Records.RemoveByIdMeaning | user.js:163-165 | splice(findIndex(id), 1) equals the reference "remove first entry with id" when the id is present. When it is absent, it removes the last entry of a non-empty list. |
| Records.RemoveByIdLength | story.js:125-127 | A removal on a non-empty list always shortens it by exactly one, whether or not the id matched. |
| Records.RemovePresentId | story.js:89-93 | With unique ids, removing a present id leaves no entry with it and keeps ids unique. The id set loses exactly that id. |
| Records.RemoveAppended | story.js:63-64 | Appending a story with a fresh id and then removing that id gives the original list back. |
| Users.User.constructor | user.js:7-17 | Copies username, name, createdAt and updatedAt. Sets loginToken to "" and favorites and ownStories to empty. |
| Users.User.Create | user.js:28-51 | On success, a fresh user with the record's identity, the response token and empty lists. On failure, null. |
| Users.User.Login | user.js:59-86 | On success, favorites and ownStories are the response's favorites and stories mapped in order, and the token is the response's. On failure, no user. |
| Users.User.GetLoggedInUser | user.js:94-115 | A missing or empty token or username gives null and nothing raised, whatever the server would answer. A failed request is raised. Otherwise loginToken is the supplied token and both lists come from the response. |
| Users.User.AddFavoriteStory | user.js:125-144 | The result and the new favorites are given by AddedFavorite of the old favorites. Favorites grow by exactly the returned story, or stay the same. |
| Users.User.RemoveFavoriteStory | user.js:153-169 | Favorites change only on success, and then by splice(findIndex(id), 1). |
| Users.User.UpdateUser | user.js:171-194 | Only `name` may change. On success it becomes the new name, and a fresh user with the response identity and token and empty lists is returned. On failure the result is null and the name is unchanged. |
| Users.AddFavoriteGrowsIff | user.js:135-143 | Favorites grow by exactly one if and only if the call succeeded with a longer response list, and the added story is the response's last entry. Otherwise they are unchanged. |
| Users.AddFavoriteRepeatAddsNothing | user.js:133-135 | Adding again against the same response set (one longer than before the first add) adds nothing the second time. |
| Users.AddFavoriteMayAttachAnotherStory | user.js:135-136 | The attached favorite is picked by position. It can carry an id other than the one requested. |
| Users.RemoveFavoriteMeaning | user.js:158-168 | On failure, favorites are unchanged. On success, the first favorite with the id is removed, or the last favorite when none has it. |
| Users.RemoveFavoriteTwiceDropsAnother | user.js:163-165 | Removing the same favorite twice (unique ids, two or more favorites, both deletes succeeding) removes two entries. The second call drops the last remaining favorite. |
| StoryLists.StoryList.constructor | story.js:9-11 | The list holds exactly the given stories. |
| StoryLists.StoryList.GetStories | story.js:27-40 | On success, a fresh list whose stories are the response records mapped in order. On failure, null. |
| StoryLists.StoryList.AddStory | story.js:50-70 | On success, stories become the old stories plus the server's story, which is returned. On failure, the result is None and stories are unchanged (no optimistic insert). |
| StoryLists.StoryList.RemoveStory | story.js:79-98 | The new (ownStories, stories) pair is AfterRemove of the old pair. Nothing changes when the user owns no such story or the delete fails. Only ownStories and stories may change. |
| StoryLists.StoryList.UpdateStory | story.js:108-135 | The new (ownStories, stories) pair is AfterUpdate of the old pair. The server's story is returned only when the id is owned and the call succeeded; otherwise both lists are unchanged. |
| StoryLists.RemoveStoryMeaning | story.js:88-93 | A successful owned removal drops the first own story with the id. From stories it drops the first entry with the id, or the last story when none has it. |
| StoryLists.UpdateStoryMeaning | story.js:122-129 | A successful owned update drops the first own story with the id, so with unique ids none is left. From stories it drops the first entry with the id, or the last story when none has it, and then appends the server's story. |
| StoryLists.UpdateKeepsMembership | story.js:122-130 | A successful update keeps a non-empty story list's length and puts the new story at the tail. With unique ids, the id present in the story list and the server's story carrying the same id, the id set and uniqueness are kept. |
| StoryLists.AddThenRemoveRoundTrip | story.js:63-93 | Adding a story with a fresh id, recording it as owned, then removing it (both calls succeeding) restores both lists. |
| ApiClasses.StoryList.constructor | api-classes.js:9-11 | The list holds exactly the given stories. |
| ApiClasses.StoryList.GetStories | api-classes.js:27-37 | On success, a fresh list of the response records mapped in order. A failure is raised and is not turned into null. |
| ApiClasses.StoryList.AddStory | api-classes.js:47-67 | On success, the server story is appended and returned. On failure, the result is None and stories are unchanged. |
| ApiClasses.StoryList.RemoveStory | api-classes.js:76-96 | Nothing changes and the result is `undefined` when the user owns no story with the id. Otherwise both lists are spliced, the final lists do not depend on the delete's outcome, and the result is `null`. |
| ApiClasses.User.constructor | api-classes.js:106-116 | Copies the identity attributes. Defaults are token "" and empty favorites and own stories. |
| ApiClasses.User.Create | api-classes.js:127-150 | On success, a fresh user with the response token and empty lists. On failure, null. |
| ApiClasses.User.Login | api-classes.js:158-185 | On success, both lists are mapped from the response in order and the token is the response's. On failure, no user. |
| ApiClasses.User.GetLoggedInUser | api-classes.js:193-214 | A missing or empty token or username gives null with nothing raised. Otherwise the supplied token is kept and the lists come from the response. A failed request is raised. |
| ApiClasses.User.AddFavoriteStory | api-classes.js:224-243 | Same rule as the later version: grow by the response's last entry only when the response list is longer. |
| ApiClasses.User.RemoveFavoriteStory | api-classes.js:252-267 | Favorites are always spliced by findIndex(id), whatever the outcome. With no match, the last favorite goes. |
| ApiClasses.SpeculativeRemoveDiverges | api-classes.js:80-95 | For an owned id, the earlier removal equals the later version's successful removal. On a failed delete the later version keeps both lists, while the earlier one has shortened ownStories by one. |
| ApiClasses.SpeculativeFavoriteRemoveDiverges | api-classes.js:256-266 | On a failed delete the later version keeps the favorites, while the earlier one has lost one (the same one a successful delete would remove). |
| HostName.IndexOf | ui.js:285 | indexOf gives -1 exactly when the pattern occurs nowhere. Otherwise it gives the first position where the pattern occurs. |
| HostName.Split | ui.js:286-288 | `split("/")` always gives at least one piece, even for an input without "/" or an empty one. |
| HostName.SplitJoin | ui.js:286-288 | Joining the pieces of `split("/")` with "/" gives the input back, so the pieces are exactly the text between separators. |
| HostName.SplitPiecesHaveNoSeparator | ui.js:286-288 | No piece of `split("/")` contains "/". |
| HostName.SplitPieceIsSubstring | ui.js:286-288 | Every piece of `split("/")` is a contiguous substring of the url. |
| HostName.SchemeSplitsInThree | ui.js:285-286 | A url containing "://" splits into at least three pieces, so `url.split("/")[2]` always exists. |
| HostName.HostSegmentWithoutScheme | ui.js:287-288 | Without "://", the segment is the text before the first "/", or the whole url when there is none. |
| HostName.StripWwwOnce | ui.js:290-292 | A leading "www." is removed exactly once, so "www.www.x" gives "www.x". Without it, the segment is returned as is. |
| HostName.HostSegment | ui.js:285-289 | The segment kept (piece 2 with "://", piece 0 without) contains no "/" and is a contiguous substring of the url. |
| HostName.StripWww | ui.js:290-292 | When the segment starts with "www.", the segment is "www." followed by the result; otherwise the result is the segment unchanged. |
| HostName.GetHostName | ui.js:283-294 | The host name contains no "/", and is a contiguous substring of the url, so it is never longer than the url. |
| HostName.GetHostNameExample | ui.js:283-294 | getHostName("http://www.www.x/p") is "www.x". |

## Left out

- HTTP calls, the base url and request body shapes are not modelled. The password, the draft story and the credentials sent with a request are not parameters. Each call is an `Outcome` of its response payload.
- Users.User.AddFavoriteStory and ApiClasses.User.AddFavoriteStory take `storyId`, but it only goes into the request url. The model cannot tie the added favorite to that id, and the source does not either (Users.AddFavoriteMayAttachAnotherStory).
- The error reporter only logs to the console and has no effect on state.
- The 409/401 `alert` branches of signup and login are left out as UI side effects. The crash of `error.response.status` when no response arrives is treated as the same failure outcome (null).
- Users.User.Login: on failure the source returns `undefined`, not `null`. The model returns null.
- ApiClasses.User.Login: on failure the source returns `undefined` (api-classes.js:178-185), not `null`. The model returns null.
- StoryLists.StoryList.RemoveStory: the early return and the normal end both return `undefined`. The model's method has no result.
- StoryLists.StoryList.UpdateStory: returns `undefined` on the early return (story.js:110) and null on failure (story.js:134); both are `None` here.
- Async suspension, interleaved handlers and double clicks are not modelled. Each method runs to completion.
- ui.js is left out apart from `getHostName`: event handlers, markup, nav toggles, localStorage and page reloads are DOM and browser-storage plumbing.
- Timestamps are opaque strings.
- Records are total: a field missing from a server object (read as `undefined` in JavaScript) is not modelled.
- The loose `==` comparing story ids is modelled as string equality.
- Story objects shared between lists, and the array passed to the `StoryList` constructor, are aliased in JavaScript. Here they are values, so aliasing is not captured.
