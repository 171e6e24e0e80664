# Social feed client: connection filtering and post pagination

A model, in Dafny, of the data logic inside three React components of a
social-networking front end:

- **Connections page** (`src/user/Connections.js`). It takes the current user's connection records and keeps those that name the current user at either end. It maps each kept record to its other endpoint. It then lists the user roster without the current user and without every connected id. The page is headed "Your Connections", but what it lists are the users who are *not* connected. The model follows the code.
- **"Who to follow" card** (`src/user/Users.js`). It shows the roster without the current user, cut to its first five entries. Adding a friend reports the outcome and leaves the list alone.
- **Post feed** (`src/user/UserPosts.js`). It keeps five pieces of component state: posts, page, hasMore, loading and error. A completed fetch and a "Load More" click are transitions on that state. Every request asks for five posts of the current page, for the user id with its first colon removed.

The model uses immutable datatypes and pure functions. The one explicit `for` loop of the source is modelled as a method with a loop invariant. Every fetch is replaced by its outcome, passed in as a value. The outcome is an ok body, a non-ok body or a thrown exception. React state hooks become records, and effects and event handlers become transition functions.

Files:

- `seqs.dfy` (module `Seqs`): order-preserving `Filter` and the subsequence relation, proved once and used by every list.
- `entities.dfy` (module `Entities`): `User`, `Option`, the `GET /users` outcome, self-exclusion (`OthersThan`) and JavaScript's `message || fallback` (`OrElse`).
- `connections.dfy` (module `Connections`): `src/user/Connections.js`.
- `users.dfy` (module `Users`): `src/user/Users.js`.
- `user_posts.dfy` (module `UserPosts`): `src/user/UserPosts.js`.

### Behaviour worth knowing

- Connected ids are not deduplicated. Two records joining the same pair yield the id twice (`Connections.ResolveAppend`).
- A connection record with a missing endpoint is not skipped. Every record has both endpoint objects read, by the filter or by the map, so a missing one throws. The `catch` then returns an empty list for the whole response (`Connections.FetchConnections`).
- A self-loop record yields the current user's own id. Only the roster filter removes it later (`Connections.SelfLoopYieldsOwnId`).
- The suggestion card excludes only the current user. Connected users are still suggested (`Users.OnlySelfExcluded`).
- Adding a friend does not remove the candidate from the list (`Users.AddFriend`).
- The feed starts at page 1. `hasMore` comes from the response's `currentPage` and `totalPages`. Every successful response is appended, whatever its page number.
- An error, once recorded, is never cleared by a later success (`UserPosts.RunErrorSticks`).

## Model

| member | source | states |
|---|---|---|
| `Connections.KeepTouching` | src/user/Connections.js:30-37 | The `for` loop collects exactly the records touching the current user, in their original order (the reference filter `TouchingEdges`). |
| `Connections.TouchingEdges` | src/user/Connections.js:31-36 | A record is kept iff `user1` or `user2` is the current user. The kept records form an order-preserving subsequence of the input. |
| `Connections.TouchingEdgesCount` | src/user/Connections.js:31-36 | A touching record is kept as often as it occurs. A record touching neither endpoint never appears. |
| `Connections.TouchingEdgesAppend` | src/user/Connections.js:32-35 | One more record is pushed onto the kept list exactly when it touches the current user. |
| `Connections.ConnectedIds` | src/user/Connections.js:38-42 | Each kept record yields exactly one id, one of its own endpoints. For a touching record, that id and the current user are the record's two endpoints. The id is the current user's own id exactly for a self-loop. |
| `Connections.ResolveConnectionIds` | src/user/Connections.js:30-43 | The list has one id per touching record. An id is in it iff some record joins it to the current user, in either orientation (a neighbour in the undirected graph). |
| `Connections.ResolveAppend` | src/user/Connections.js:31-42 | Adding a record that touches the current user appends exactly its other endpoint. Adding one that does not leaves the list unchanged. Earlier ids stay and nothing is deduplicated. |
| `Connections.SelfLoopYieldsOwnId` | src/user/Connections.js:38-41 | The current user's own id is in the list iff a self-loop record is present. |
| `Connections.FetchConnections` | src/user/Connections.js:13-52 | A non-ok status, a throw, or any record with a missing endpoint gives the empty list. Otherwise the result is the resolved list: one id per touching record, in order, duplicates kept. An id is listed iff it is a neighbour of the current user. |
| `Connections.Displayed` | src/user/Connections.js:76-80 | A roster user is shown iff it is not the current user and its id is not in the connected list. The shown users are an order-preserving subsequence of the roster. |
| `Connections.DisplayedCount` | src/user/Connections.js:76-80 | A roster entry that passes the filter is shown as often as the roster lists it. Every other entry is never shown. |
| `Connections.DisplayedDependsOnMembersOnly` | src/user/Connections.js:79 | The filter tests membership only. Connected lists with the same members, duplicates or not, show the same users. |
| `Connections.DisplayedWithoutConnections` | src/user/Connections.js:76-80 | With an empty connected list the filter is exactly self-exclusion. |
| `Connections.FailedFetchExcludesOnlySelf` | src/user/Connections.js:44-51 | When the connections fetch fails or a record is malformed, the page shows the roster minus only the current user. |
| `Connections.Mount` | src/user/Connections.js:55-95 | After mounting, loading is off and the stored connected ids are exactly the fetched list, so they are the current user's neighbours. No shown user is the current user or connected. With a roster, the shown list is exactly the roster filter `Displayed` applied to the stored ids: every other unconnected entry, in roster order, with its multiplicity. Without a roster, the list stays empty. |
| `Connections.ExampleResolve` | src/user/Connections.js:30-42 | For records A–B, C–A and X–Y, user A's connected ids are B then C. |
| `Entities.OthersThan` | src/user/Users.js:26-28 | A roster user is kept iff its id differs from the current user's. Order is preserved. |
| `Entities.OthersThanCount` | src/user/Users.js:26-28 | Every entry of the current user is dropped. Every other entry is kept as often as it occurs. |
| `Entities.OrElse` | src/user/UserPosts.js:30 | JavaScript's or-else on the error field: a non-empty message is shown as is. An absent or empty message gives the fallback. |
| `Users.Suggestions` | src/user/Users.js:26-29 | The suggestions are a prefix of the self-filtered roster. There are exactly five when at least five others exist, all of them otherwise. None is the current user, and they are a subsequence of the roster. |
| `Users.OnlySelfExcluded` | src/user/Users.js:26-29 | When the roster does not contain the current user, the card shows the roster's first five users, whether connected or not. |
| `Users.Mount` | src/user/Users.js:10-37 | An error body or a throw leaves the list at its initial empty value. A roster gives the first min(5, number of others) users of the self-filtered roster, so all of them when fewer than five. The current user is never among them. |
| `Users.AddFriend` | src/user/Users.js:40-66 | The suggestion list is unchanged on every outcome. The alert message is never empty, and it names the server's error when there is one. |
| `Users.ExampleSuggestions` | src/user/Users.js:26-29 | For a roster [me, a, b], the card shows [a, b]. |
| `UserPosts.StripFirstColon` | src/user/UserPosts.js:15 | A colon-free id is unchanged. An id with a colon loses exactly one character. |
| `UserPosts.StripFirstColonCounts` | src/user/UserPosts.js:15 | Exactly one colon disappears when there is one. Every other character keeps its count, so later colons remain. |
| `UserPosts.StripSkipsColonFreePrefix` | src/user/UserPosts.js:15 | A colon-free prefix passes through stripping untouched. |
| `UserPosts.StripFirstColonSplit` | src/user/UserPosts.js:15 | For a colon-free prefix `a`, stripping `a + ":" + b` gives back `a + b`: only the first colon goes, and later ones remain. |
| `UserPosts.RequestFor` | src/user/UserPosts.js:14-15 | The request for page p asks for page p with limit 5. Its user id is the given id with only its first colon removed. |
| `UserPosts.Complete` | src/user/UserPosts.js:25-37 | Success appends the page's posts after the old ones, and sets `hasMore` iff the response's currentPage < totalPages. A non-ok body records its own error text when that is non-empty, and "Failed to fetch posts." otherwise. A throw records "Network error. Please try again later.". On failure, posts and `hasMore` are kept. Loading ends and the page is unchanged either way. |
| `UserPosts.LoadMore` | src/user/UserPosts.js:44-48 | The page rises by exactly one iff `hasMore` holds, and never decreases. Nothing else changes. |
| `UserPosts.RunAccumulates` | src/user/UserPosts.js:27 | Over any sequence of events, the posts are the old posts followed by every successful page's posts, in arrival order, duplicates included. |
| `UserPosts.RunPageBounds` | src/user/UserPosts.js:44-47 | Over any sequence of events, the page never decreases and rises by at most one per click. |
| `UserPosts.RunLoadingSettles` | src/user/UserPosts.js:35-37 | Once loading is off, or once any fetch completes, loading stays off. |
| `UserPosts.RunErrorSticks` | src/user/UserPosts.js:29-34 | An error, once recorded, remains through any later events. |
| `UserPosts.ExhaustedClicksAreNoOps` | src/user/UserPosts.js:44-47 | When no more pages are expected, any number of clicks leaves the state unchanged. |
| `UserPosts.ExampleTwoPages` | src/user/UserPosts.js:5-48 | Starting from the initial state, a two-page feed fetched page by page ends with all three posts, page 2, no more pages and loading off. A further click does nothing. |

The initial feed state, `UserPosts.Initial`, is a constant (src/user/UserPosts.js:5-9). Its fields are: no posts, page 1, `hasMore` true, loading true, and no error.

## Left out

- Fetching, `async`/`await`, HTTP headers, bearer tokens, `localStorage`, the API base URL and the remote API itself. Each fetch is an input value.
- The decimal rendering of the page number and the assembly of the request URL. The request is modelled as its varying parts: user id, page and limit.
- React hooks and effect scheduling. A "Load More" click re-runs the page effect. The model treats the fetch completion as a separate event, in the order the events are given. Overlapping or out-of-order completions are not handled by the code and are not modelled.
- Connections and users bodies of unexpected shapes, such as a non-array connections body or a users body with neither `error` nor `users`. These throw inside their `try`, so they behave like the modelled throw outcome and are not separate cases. An endpoint object present but lacking `_id` is not modelled.
- Posts bodies of unexpected shapes. The model assumes an ok posts body carries an array `posts` and numeric `currentPage` and `totalPages`. A body without the page fields does not throw: `undefined < undefined` is false, so its posts are appended and `hasMore` becomes false. A non-iterable `posts` fails inside the React state updater, outside the `try`, so no error is recorded. String page fields would be compared alphabetically. None of these cases is modelled.
- A signed-out user. Every operation takes the current user's id `me` as a parameter, which assumes someone is signed in. Without a signed-in user, `isAuthenticated.user._id` throws inside both `try` blocks of the connections page, and both of its lists stay empty. That case is not modelled.
- `console` logging, JSX rendering, CSS, placeholder images, date formatting, SweetAlert and `alert` itself. `Users.AddFriend` returns the message it would show.
- `src/user/Leftsidebar.js`: fetch plumbing, two `length` counts of raw responses, account deletion and UI. It has no logic beyond that.
- `src/MainRouter.js`: a route table with no behaviour.
- Behaviours the code does not have are not modelled: removing a candidate after adding a friend, rejecting out-of-order pages, deduplicating connected ids and skipping malformed records.
