# Posts list component, modelled in Dafny

The repository is a single React component (`src/App.js`) that lists "post"
records from a REST collection and lets the user add, update and delete them.
This project models its logic:

- the process-wide axios response interceptor, which classifies each failed
  request as expected (a response with status in [400, 500)) or unexpected
  (no response, or any other status), logs and alerts on the unexpected ones,
  and always rejects with the same error (module `Interceptor`);
- the list operations the handlers build their new state from: `filter` by
  id and `indexOf` by object identity, with a lemma about prepending
  (module `Posts`);
- the component itself, a class `App` whose `posts` field is changed by
  `componentDidMount` (replace), `handleAdd` (prepend the server's record),
  `handleUpdate` (retitle in place, PUT, put a copy at `indexOf`) and
  `handleDelete` (optimistic filter, DELETE, roll back to the snapshot on any
  failure) (module `AppComponent`).

Each remote call is a `Reply` parameter: `Ok(data)` or `Failed(Error(response))`
where the response, if any, carries a status. The requests the component sends
are appended to a `requests` field, and every `console.log` and `alert` is
appended to a `notices` field, so both are observable in the contracts. Each
handler returns how its promise settles: `Rejected(e)` when the interceptor
rethrows into a handler without a `catch`, `Resolved` otherwise.

Posts are objects (`class Post`) because the source relies on it: `handleUpdate`
assigns `post.title` on the very object held in the list, and `indexOf` finds
that object by identity. `id` and `body` are `const` since the component never
writes them.

The model follows the code where it departs from what a list editor is
usually expected to do:

- update matches the entry by object identity (`indexOf`, src/App.js:48), not by `id`;
- a failed PUT is not rolled back: `handleUpdate` retitles the shared object
  before the request (src/App.js:43), so the list still shows "UPDATED";
  `UpdateRejectedScenario` exhibits this;
- an update of an object not in the list writes `posts[-1]`, which is not an
  element, so the list is unchanged;
- add sends the fixed record `{title: "a", body: "b"}`;
- nothing keeps ids distinct: add prepends whatever the server returns, and
  `PrependDistinctIff` states exactly when ids stay distinct.

## Model

| member | source | states |
|---|---|---|
| `Interceptor.Classify` | src/App.js:7-10 | an error is expected exactly when a response exists and its status is in [400, 500) |
| `Interceptor.Intercept` | src/App.js:6-19 | expected errors show nothing; unexpected ones log the error then alert "unexpected error happened"; the rejection carries the same error in both cases |
| `Interceptor.UnexpectedAlertIff` | src/App.js:12-18 | the generic alert appears iff there is no response or the status is below 400 or at least 500; the log happens iff the alert does; the error is always rethrown |
| `Posts.Post.Copy` | src/App.js:49 | the spread copy has the same id, title and body as the original |
| `Posts.WithoutId` | src/App.js:59 | the filtered list is no longer than the original, holds only entries of the original, and none with the deleted id |
| `Posts.WithoutIdKeepsOthers` | src/App.js:59 | every entry with another id keeps its number of occurrences |
| `Posts.WithoutIdInOrder` | src/App.js:59 | the kept entries are a subsequence of the original (relative order preserved) |
| `Posts.WithoutIdUnchangedIff` | src/App.js:59 | filtering returns the list unchanged iff no entry has the id (deleting an absent id is a no-op) |
| `Posts.WithoutIdKeepsDistinct` | src/App.js:59 | filtering a list with distinct ids yields a list with distinct ids |
| `Posts.IndexOf` | src/App.js:48 | `indexOf` is -1 iff the object is absent; otherwise it is the first position holding that very object |
| `Posts.PrependDistinctIff` | src/App.js:38 | prepending keeps ids distinct iff the old list had distinct ids and the new id is not among them |
| `AppComponent.DeleteFailureNotices` | src/App.js:64-72 | after a failed DELETE the "already deleted" alert appears iff the status is exactly 400, and the generic alert iff the error is unexpected |
| `AppComponent.DeleteFailureNoticesAt400And500` | src/App.js:68-69 | a 400 shows only the "already deleted" alert; a 500 shows only the generic log and alert |
| `AppComponent.App.constructor` | src/App.js:24-26 | the component starts with an empty list and has shown and sent nothing |
| `AppComponent.App.Reject` | src/App.js:18 | a rejected request appends the interceptor's notices and settles the handler with the same error |
| `AppComponent.App.ComponentDidMount` | src/App.js:28-32 | a GET is sent; on success the list becomes the fetched list; on failure the list is unchanged and the handler rejects |
| `AppComponent.App.HandleAdd` | src/App.js:34-40 | a POST of `{a, b}` is sent; on success the list is the returned post followed by the old list; on failure the list is unchanged and the handler rejects |
| `AppComponent.App.HandleUpdate` | src/App.js:42-51 | the post is retitled "UPDATED" in place and PUT whole; ids never change; on failure the same objects remain and the retitled entry shows "UPDATED"; on success a fresh copy replaces the entry at `indexOf` and nothing else, or the list is unchanged when the post is absent |
| `AppComponent.App.HandleDelete` | src/App.js:53-74 | the list shown while pending is the id-filtered list; a DELETE is sent; on success the filtered list stays; on any failure the list equals the snapshot and the failure notices are shown; the handler always resolves |
| `AppComponent.DeleteRejectedScenario` | src/App.js:53-74 | with two posts loaded, a DELETE failing with any status restores the list; 400 shows only "already deleted", an unexpected status only the generic log and alert |
| `AppComponent.UpdateRejectedScenario` | src/App.js:42-51 | with two posts loaded, a PUT failing with any status leaves the first post showing title "UPDATED" |

## Left out

- Rendering (the JSX table and buttons, src/App.js:76-116): presentation only.
- The HTTP calls and the endpoint URL: network I/O through axios; each call is a `Reply` parameter and a `Request` record.
- `alert` blocking the page and the console's formatting: modelled as appended `Notice` values only.
- React's `setState` batching and re-rendering: each `setState` is a direct assignment to `posts`.
- Interleaving of overlapping handlers (two requests in flight, a rollback undoing another handler's change): each handler runs to completion here.
- JSON parsing of responses: a reply's data are already `Post` objects.
- Properties of a post other than id, title and body: the server's records may carry more, but the copy `{ ...post }` and the whole-object PUT carry only these three here.
