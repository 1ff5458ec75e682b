# A model of the blog's post loading, rendering and visitor ledger

This project models, in Dafny, the logic of a Next.js blog: how posts are
listed, paginated and loaded by infinite scroll; how a post body is
rendered with highlighted code blocks; and how visits are counted. It also
models the small validators and the table-of-contents scroll spy. Each core
source file becomes one module:

- `PostsContext` (posts_context.dfy): the client controller of the post
  list, covering the state record, the pure reducer over `LOAD_START`,
  `LOAD_SUCCESS`, `LOAD_ERROR`, `SET_INITIAL` and `RESET`, and
  `loadNextPage`. `loadNextPage` is a method of a `PostsProvider` class that
  takes the fetch's outcome as an input. A pure `LoadStep` is its
  specification.
- `InitialPostsLoader` and `InfiniteScroll`: the two components that drive
  the controller. One is the seeding effect; the other is the observer's
  trigger and the retry button.
- `PostsApi`: `GET /api/posts`, which gives a page of the post list without
  bodies, plus its pagination record.
- `ScrollSession`: the controller and the endpoint together. The
  controller's requests are answered by the endpoint over a fixed list. It
  proves that the controller then holds exactly the newest posts of the
  pages loaded so far, and that it eventually holds the newest
  `maxPostsInMemory` posts of the whole list.
- `PostStore`: `getAllPosts`, `getPost` and the in-place code-block rewrite
  of `remarkHighlight`. The file system, front-matter parser, markdown
  parser/serializer and highlighter are supplied functions.
- `Base64` and `AnalyticsStorage`: the visitor id (Base64 of section 4 of
  RFC 4648, cut to 16 characters), the bot classifier, `addVisitor` and
  `getVisitorStats`. The `visitors` table is a sequence of rows held by a
  `VisitorsTable` class.
- `AnalyticsApi`: the analytics `POST` (ip and user-agent extraction, bot
  short-circuit, recording) and `GET`.
- `VisitorTracking`: the once-per-day client hook, as a class over its
  `hasTracked` ref and the stored date.
- `TableOfContents`: the active-heading scan as a method with a loop,
  specified by a pure `ActiveIndex`, and the component's `activeId` state.
- `Constants`: the slug and date patterns as predicates, each proved equal
  to an independent description of its language.
- `PostSchema` and `Common`: shared records and helpers.

Clocks, the network, timers, the database and the DOM are parameters or
inputs. "Today", "now", the fetch outcome, database faults, thrown
exceptions and heading positions are all passed in.

Some things the code does not do:

- The HTML is not sanitized (`sanitize: false`).
- There is no highlight cache and no metadata cache.
- A highlighter failure leaves the code node as it was. It is not replaced
  by a fallback block.
- Headings get no anchors.
- Posts are neither filtered by a `published` flag nor given tags.
- `getPost` does not validate the slug.
- The posts endpoint does not clamp `page` or `limit`.
- The ip comes only from `x-forwarded-for` and `x-real-ip`.
- `isBot` looks only at the user agent.
- There are no session maps or visit counters.
- Seeding is made one-shot by the loader's guard, not by the reducer.

## Model

| member | source | states |
|---|---|---|
| Constants.SlugShape | src/lib/constants.ts:29 | The slug pattern accepts exactly the non-empty strings over `[a-z0-9-]` that have no hyphen at either end and no two hyphens in a row (both directions) |
| Constants.RestOfSlugShape | src/lib/constants.ts:29 | What the pattern accepts after the first character is exactly a string over `[a-z0-9-]` with no trailing hyphen and no doubled hyphen |
| Constants.SlugIsPathSafe | src/lib/constants.ts:29 | An accepted slug is non-empty, has no hyphen at either end, and holds no upper-case letter, `/`, `.` or white space |
| Constants.AllDigitsAt | src/lib/constants.ts:30 | A run of `\d` is exactly a string whose every character is an ASCII digit |
| Constants.DateShape | src/lib/constants.ts:30 | The date pattern accepts exactly 10-character strings with `-` at positions 4 and 7 and ASCII digits elsewhere |
| Constants.DateHasNoRangeCheck | src/lib/constants.ts:30 | `2024-13-45` is accepted (no month or day range check), while `2024-1-015` is rejected |
| Base64.Char | src/lib/analytics-storage.ts:5-7 | No 6-bit value maps to the padding character |
| Base64.Value | src/lib/analytics-storage.ts:5-7 | The decoding of an alphabet character is the value that encodes to it |
| Base64.CharIsAlphabet | src/lib/analytics-storage.ts:5-7 | Every 6-bit value encodes to an alphabet character that decodes back to it |
| Base64.Encode | src/lib/analytics-storage.ts:5-7 | An encoding has 4 characters per started group of 3 bytes |
| Base64.QuadDecodes | src/lib/analytics-storage.ts:5-7 | The four characters of a full 3-byte group are alphabet characters whose values reassemble the three bytes |
| Base64.DecodeQuadThen | src/lib/analytics-storage.ts:5-7 | A full group in front of a decodable rest decodes to its three bytes followed by the rest's bytes |
| Base64.DecodeOneByte | src/lib/analytics-storage.ts:5-7 | A one-byte input padded with `==` decodes back to that byte |
| Base64.DecodeTwoBytes | src/lib/analytics-storage.ts:5-7 | A two-byte input padded with `=` decodes back to those bytes |
| Base64.DecodeEncode | src/lib/analytics-storage.ts:5-7 | Decoding an encoding gives back the bytes: the encoding loses nothing |
| Base64.EncodeInjective | src/lib/analytics-storage.ts:5-7 | Different byte strings have different encodings |
| Base64.EncodePrefix | src/lib/analytics-storage.ts:5-8 | The first 4k characters of an encoding are the encoding of the first 3k bytes |
| AnalyticsStorage.Bytes | src/lib/analytics-storage.ts:5 | One byte per character; an ASCII character becomes its own code |
| AnalyticsStorage.VisitorKey | src/lib/analytics-storage.ts:5 | The key is the ip, a hyphen and at most 100 user-agent characters, and its length says so |
| AnalyticsStorage.VisitorId | src/lib/analytics-storage.ts:4-9 | The id has at most 16 characters. It is the encoding of the key's first 12 bytes, or of the whole key when that is shorter |
| AnalyticsStorage.FirstSixteenChars | src/lib/analytics-storage.ts:8 | The first 16 characters of an encoding of 12 or more bytes encode exactly its first 12 bytes; a shorter input encodes to at most 16 characters |
| AnalyticsStorage.SameVisitorIdIffSameKeyPrefix | src/lib/analytics-storage.ts:4-9 | For keys of 12 or more bytes, two requests share an id if and only if their keys' first 12 bytes agree |
| AnalyticsStorage.VisitorIdIgnoresUserAgentTail | src/lib/analytics-storage.ts:5 | User agents that agree on their first 100 characters give the same id |
| AnalyticsStorage.LowerString | src/lib/analytics-storage.ts:18-42 | ASCII case folding, character by character, keeping the length |
| AnalyticsStorage.StartsWithIgnoreCaseSpec | src/lib/analytics-storage.ts:45 | A case-insensitive match at the start holds if and only if the lower-cased prefix equals the lower-cased pattern |
| AnalyticsStorage.ContainsIgnoreCaseSpec | src/lib/analytics-storage.ts:45 | A case-insensitive regex search succeeds if and only if the lower-cased pattern occurs in the lower-cased text |
| AnalyticsStorage.AnyPatternMatchesSpec | src/lib/analytics-storage.ts:45 | Some pattern of a list matches if and only if one of its literals (both halves of an alternation counted) occurs, ignoring case |
| AnalyticsStorage.IsBot | src/lib/analytics-storage.ts:17-55 | A user agent is not a bot exactly when it has 20 or more characters, contains `Mozilla` (case-sensitive) and contains no listed literal in any case |
| AnalyticsStorage.ListedPatternMakesBot | src/lib/analytics-storage.ts:18-47 | Any literal of any listed pattern, `java/` and `java ` included, makes a user agent that contains it a bot |
| AnalyticsStorage.AddVisitorStep | src/lib/analytics-storage.ts:86-134 | The table grows by the row (id, today) only on a successful insert for a new daily visitor. The flags are the negated lookups (a failed lookup counts as new). A failed insert reports failure with both flags false and leaves the table as it was |
| AnalyticsStorage.AddVisitorKeepsOnePerDay | src/lib/analytics-storage.ts:116-127 | With a working daily lookup, a table without repeated (id, day) rows keeps that property |
| AnalyticsStorage.FailedDailyLookupDuplicates | src/lib/analytics-storage.ts:98-105 | When the daily lookup fails, a repeat visit on the same day is inserted twice |
| AnalyticsStorage.OverlappingAddsDuplicate | src/lib/analytics-storage.ts:98-122 | Two overlapping requests of one visitor that both look up before either inserts both see a new daily visitor and both insert, leaving the same row twice |
| AnalyticsStorage.RepeatVisits | src/lib/analytics-storage.ts:97-122 | The same visitor twice on one day is new and then not new. On a later day it is new for the day but not new overall |
| AnalyticsStorage.VisitorsTable.constructor | src/lib/analytics-storage.ts:98-100 | The table starts with the given rows |
| AnalyticsStorage.VisitorsTable.AddVisitor | src/lib/analytics-storage.ts:86-134 | The result and the new rows are those of `AddVisitorStep` for the computed id, and one row per visitor per day is preserved |
| AnalyticsStorage.CountOn | src/lib/analytics-storage.ts:65-68 | The daily count never exceeds the number of rows |
| AnalyticsStorage.GetVisitorStats | src/lib/analytics-storage.ts:58-83 | The daily count is the number of rows dated today, or 0 when that query fails. The total is the number of distinct visitor ids over all rows, or 0 when the listing fails. Both are bounded by the number of rows |
| AnalyticsStorage.AllIdsBound | src/lib/analytics-storage.ts:76-77 | The number of distinct visitor ids is at most the number of rows |
| AnalyticsStorage.DailyCountIsDistinctVisitors | src/lib/analytics-storage.ts:65-68 | With one row per visitor per day, the daily row count is the number of distinct visitors that day |
| AnalyticsStorage.DailyAtMostTotal | src/lib/analytics-storage.ts:58-83 | With one row per visitor per day, today's visitors never outnumber all-time visitors |
| AnalyticsApi.FirstSegment | src/app/api/analytics/route.ts:39 | The result is the longest comma-free prefix of the header, and it stops at a comma or at the end |
| AnalyticsApi.TrimStart | src/app/api/analytics/route.ts:39 | Drops exactly the leading white space and line terminators |
| AnalyticsApi.TrimEnd | src/app/api/analytics/route.ts:39 | Drops exactly the trailing white space and line terminators |
| AnalyticsApi.Trim | src/app/api/analytics/route.ts:39 | The result is an infix with only trimmable characters around it, and it neither starts nor ends with one |
| AnalyticsApi.ClientIp | src/app/api/analytics/route.ts:34-42 | A non-empty `x-forwarded-for` gives its trimmed first entry. Otherwise a non-empty `x-real-ip` is taken verbatim, and otherwise `unknown` |
| AnalyticsApi.ForwardedIpIsClean | src/app/api/analytics/route.ts:38-39 | An ip from `x-forwarded-for` holds no comma and neither starts nor ends with white space |
| AnalyticsApi.UserAgent | src/app/api/analytics/route.ts:45 | A missing or empty header becomes `unknown` |
| AnalyticsApi.MissingUserAgentIsBot | src/app/api/analytics/route.ts:45-48 | A request without a user agent is always classified as a bot |
| AnalyticsApi.PostStep | src/app/api/analytics/route.ts:31-69 | A bot gets `bot_filtered` and the table is unchanged. A thrown error gives 500 and the table is unchanged. Otherwise the answer is `addVisitor`'s result with the timestamp, together with its new table |
| AnalyticsApi.BotNeverRecorded | src/app/api/analytics/route.ts:48-53 | Bot traffic never changes the table and is always answered `bot_filtered` |
| AnalyticsApi.Post | src/app/api/analytics/route.ts:31-69 | The handler's answer and the table afterwards are those of `PostStep`; one row per visitor per day is preserved |
| AnalyticsApi.Get | src/app/api/analytics/route.ts:5-28 | A thrown error gives exactly the 500 answer. Otherwise the answer is `getVisitorStats`' result with the timestamp `now`, both counts bounded by the number of rows |
| VisitorTracking.Track | src/hooks/useVisitorTracking.ts:8-38 | Nothing happens when already tracked or when today is stored. Otherwise one request is sent, and only an OK answer stores today and sets the flag; anything else leaves the state unchanged |
| VisitorTracking.Successes | src/hooks/useVisitorTracking.ts:8-38 | Over a run of page loads and effect runs, each effect run counts at most one successful report, so there are never more successes than events |
| VisitorTracking.AtMostOneSuccessPerDay | src/hooks/useVisitorTracking.ts:15-34 | Within one day, over any page reloads and server answers, at most one report succeeds, and none when the day is already stored |
| VisitorTracking.OverlappingTabsBothReport | src/hooks/useVisitorTracking.ts:15-34 | Two tabs that read the stored date before either writes it both send a report and both succeed on the same day |
| VisitorTracking.VisitorTracker.constructor | src/hooks/useVisitorTracking.ts:6 | A first mount starts untracked with whatever the storage holds |
| VisitorTracking.VisitorTracker.Remount | src/hooks/useVisitorTracking.ts:6 | A page load resets the ref and keeps the storage |
| VisitorTracking.VisitorTracker.RunEffect | src/hooks/useVisitorTracking.ts:8-38 | The new ref and storage, and whether a request was sent, are those of `Track` |
| TableOfContents.QualifyingPrefix | src/components/TableOfContents.tsx:31-38 | The length of the longest prefix of headings at or above the line: every heading in it qualifies, and the next one does not |
| TableOfContents.ActiveIndex | src/components/TableOfContents.tsx:29-42 | The active index always names one of the headings |
| TableOfContents.QualifyingPrefixMonotone | src/components/TableOfContents.tsx:31-38 | A lower line never shortens the qualifying prefix |
| TableOfContents.ActiveIndexMonotone | src/components/TableOfContents.tsx:24-43 | Scrolling further down never moves the active heading earlier |
| TableOfContents.CurrentHeading | src/components/TableOfContents.tsx:24-43 | The scan with its early exit yields no heading for an empty list. Otherwise it yields the heading at `ActiveIndex`: the last of the qualifying prefix, or the first when none qualifies |
| TableOfContents.Resolve | src/components/TableOfContents.tsx:15-17 | Exactly the items that name an element become headings, each with that element's position; the result is empty only when no item resolves |
| TableOfContents.ResolveKeepsOrder | src/components/TableOfContents.tsx:15-17 | Resolving a list is resolving its first part followed by resolving the rest, so headings stay in document order |
| TableOfContents.ResolveOne | src/components/TableOfContents.tsx:15-17 | One item gives exactly one heading when its element exists and none otherwise |
| TableOfContents.TableOfContentsView.constructor | src/components/TableOfContents.tsx:11 | `activeId` starts empty |
| TableOfContents.TableOfContentsView.HandleScroll | src/components/TableOfContents.tsx:24-43 | With headings, `activeId` becomes the id of the heading at `ActiveIndex`; with none it is unchanged |
| TableOfContents.TableOfContentsView.Setup | src/components/TableOfContents.tsx:14-46 | With no resolved heading nothing is set. Otherwise `activeId` ends as the chosen heading's id, which names an element of the page |
| TableOfContents.TableOfContentsView.HandleClick | src/components/TableOfContents.tsx:64-72 | A click sets `activeId` only when the id names an element |
| PostStore.SlugOfMarkdownFile | src/lib/posts.ts:15 | A name ending in `.md` loses exactly one such suffix |
| PostStore.SlugOfOtherFile | src/lib/posts.ts:15 | Any other name is its own slug |
| PostStore.Reverse | src/lib/posts.ts:13 | Element i of the result is element n-1-i of the input |
| PostStore.PostFor | src/lib/posts.ts:14-26 | A record's slug is derived from its file name |
| PostStore.PostsFor | src/lib/posts.ts:14-27 | One record per name, position by position |
| PostStore.GetAllPosts | src/lib/posts.ts:12-28 | One record per directory entry, in reverse listing order, with nothing filtered out |
| PostStore.FindBySlug | src/lib/posts.ts:32 | Not found if and only if no post has the slug. Otherwise the index found is the first post with that slug |
| PostStore.GetPost | src/lib/posts.ts:30-42 | `null` if and only if no listed post has the slug. Otherwise the result is the first such post with its body replaced by the rendered HTML |
| PostStore.LanguageOf | src/lib/posts.ts:47 | A non-empty language is used as it is; a missing or empty one becomes `plaintext`; the result is never empty |
| PostStore.HighlightNode | src/lib/posts.ts:46-58 | Non-code nodes are untouched. A failed highlight leaves the node unchanged. A successful one makes it an `html` node holding the highlighted block, with the language inserted verbatim |
| PostStore.HighlightAll | src/lib/posts.ts:44-60 | Every node is rewritten on its own, so one failure neither stops the walk nor affects another node |
| PostStore.HighlightIdempotent | src/lib/posts.ts:44-60 | Rewriting an already rewritten tree changes nothing |
| PostStore.MissingLanguageIsPlainText | src/lib/posts.ts:47-54 | A code block without a language becomes the `language-plaintext` block |
| PostStore.RemarkHighlight | src/lib/posts.ts:44-60 | The in-place walk leaves the tree equal to `HighlightAll` of the old tree |
| PostStore.RenderMarkdown | src/lib/posts.ts:62-72 | Rendering in place gives the same HTML as the pure pipeline |
| PostsApi.Summary | src/app/api/posts/route.ts:24 | A post without its body: slug, title and date kept |
| PostsApi.Summaries | src/app/api/posts/route.ts:24 | Summaries position by position |
| PostsApi.SummariesSlice | src/app/api/posts/route.ts:20-24 | Summarizing a slice is slicing the summaries |
| PostsApi.Slice | src/app/api/posts/route.ts:20 | `slice` clamps its bounds to the list and gives nothing past the end |
| PostsApi.Get | src/app/api/posts/route.ts:4-46 | A failed read gives exactly the 500 answer. Otherwise the posts are the summaries at `[page*limit, min(page*limit+limit, n))`, at most `limit` of them and none past the end, with the pagination record computed from the defaults 0 and 5 |
| PostsApi.PageWindow | src/app/api/posts/route.ts:18-20 | One page is a clamped window of the summaries |
| PostsApi.PagesTileTheList | src/app/api/posts/route.ts:18-20 | With a fixed limit, pages 0..k-1 concatenated are the first `min(k*limit, n)` posts: no gap and no repeat |
| PostsApi.HasMoreIffPostsFollow | src/app/api/posts/route.ts:32-34 | `hasMore` holds if and only if `loadedCount` is short of the total |
| PostsContext.FreshPosts | src/contexts/PostsContext.tsx:66-69 | The filter keeps at most the fetched posts |
| PostsContext.FreshPostsMembers | src/contexts/PostsContext.tsx:66-69 | A fetched post is kept if and only if its slug is not held |
| PostsContext.FreshPostsSubsequence | src/contexts/PostsContext.tsx:66-69 | The kept posts are in payload order |
| PostsContext.FreshPostsCounts | src/contexts/PostsContext.tsx:66-69 | A fetched post whose slug is not held is kept exactly as often as the payload holds it; one whose slug is held is dropped entirely |
| PostsContext.FreshPostsAllNew | src/contexts/PostsContext.tsx:66-69 | A payload with no held slug is kept whole, duplicates inside it included |
| PostsContext.FreshPostsDisjoint | src/contexts/PostsContext.tsx:66-69 | No kept post shares a slug with a held one |
| PostsContext.FreshPostsDistinct | src/contexts/PostsContext.tsx:66-69 | A payload with distinct slugs keeps distinct slugs |
| PostsContext.KeepNewest | src/contexts/PostsContext.tsx:81-84 | At most `max` items are kept, and all of them when there are no more than `max` |
| PostsContext.KeepNewestIsSuffix | src/contexts/PostsContext.tsx:81-84 | The kept items are the tail of the list in order; only the oldest are dropped |
| PostsContext.CeilDiv | src/contexts/PostsContext.tsx:109 | `ceil(n/d)`: the smallest q with n <= q*d |
| PostsContext.AfterLoadSuccess | src/contexts/PostsContext.tsx:64-96 | The new posts are the held ones followed by the fresh fetched ones, trimmed to the newest `maxPostsInMemory`, so never more than the cap. The page goes up by one and `hasMore` is copied. The old total is kept when none is given. Loading, error and retry count are cleared; every other field is unchanged |
| PostsContext.AfterSetInitial | src/contexts/PostsContext.tsx:106-119 | The posts are replaced. The page becomes `ceil(n/postsPerPage)` and `initialLoaded` is set. `hasMore` holds if and only if n < total. Loading, error and retry count are untouched |
| PostsContext.Reduce | src/contexts/PostsContext.tsx:59-127 | `LOAD_START` sets loading and clears the error, changing nothing else. `LOAD_ERROR` stops loading, records the message and counts one more failure. `RESET` gives exactly the initial state. The other two actions are as above |
| PostsContext.DistinctAfterSuccess | src/contexts/PostsContext.tsx:64-96 | Held posts and a payload that each have distinct slugs give distinct slugs after `LOAD_SUCCESS` |
| PostsContext.PayloadDuplicatesKept | src/contexts/PostsContext.tsx:66-78 | A payload that repeats a new post is appended with the repeat |
| PostsContext.TenSeededPostsNextPageIsTwo | src/contexts/PostsContext.tsx:107-109 | Ten seeded posts at five per page make page 2 the next one |
| PostsContext.SetInitialIgnoresInitialLoaded | src/contexts/PostsContext.tsx:106-119 | The reducer seeds the same way whether or not it was seeded before |
| PostsContext.OutcomeAction | src/contexts/PostsContext.tsx:169-199 | Only an OK answer whose `posts` is an array gives `LOAD_SUCCESS`; a missing `hasMore` counts as false. A non-OK status gives the `HTTP <status>` message. A thrown `Error` gives its message, and any other thrown value gives the fixed message |
| Common.NatToString | src/contexts/PostsContext.tsx:171 | The decimal rendering of a status is a non-empty string of digits without a leading zero whose value is the status |
| PostsContext.BackoffDelay | src/contexts/PostsContext.tsx:147 | The delay is `1000 * 2^r` ms while that is at most 10000. It never exceeds 10000 and is exactly 10000 from four failures on |
| PostsContext.LoadStep | src/contexts/PostsContext.tsx:132-214 | The guard (loading; no more and not forced; three failures and not forced) skips without any change. Otherwise the call requests `page=currentPage`, `limit=postsPerPage`. It waits only after a failure when not forced: 2000 ms after one failure and 4000 ms after two. It schedules an automatic retry if and only if a `TypeError` was thrown with fewer than 2 failures and no force. It ends idle in the state the reducer gives |
| PostsContext.FailedLoadCountsUp | src/contexts/PostsContext.tsx:98-104 | A failed load keeps the posts, the page and `hasMore`, records an error and counts one more failure |
| PostsContext.ThreeFailuresStopUnforcedCalls | src/contexts/PostsContext.tsx:134-140 | After three failed unforced calls, each reading the state the previous one left, a fourth unforced call does nothing |
| PostsContext.StaleRetryNeverStops | src/contexts/PostsContext.tsx:189-213 | The scheduled retry reuses the callback of the first failed call, which holds a failure count of 0. While the network keeps failing it schedules another retry each time, and the live failure count goes up by one per attempt, past the limit of three that stops the other calls |
| PostsContext.PostsProvider.constructor | src/contexts/PostsContext.tsx:130 | The provider starts in the initial state |
| PostsContext.PostsProvider.Dispatch | src/contexts/PostsContext.tsx:130 | A dispatch applies the reducer to the state |
| PostsContext.PostsProvider.LoadNextPage | src/contexts/PostsContext.tsx:132-214 | The new state and the effect are those of `LoadStep` for the state at the call |
| PostsContext.PostsProvider.SetInitialPosts | src/contexts/PostsContext.tsx:216-218 | Dispatches `SET_INITIAL` with the arguments unchanged |
| PostsContext.PostsProvider.ResetPosts | src/contexts/PostsContext.tsx:220-222 | Returns to the initial state |
| InitialPostsLoader.RunEffect | src/components/InitialPostsLoader.tsx:17-21 | Seeds, passing the props unchanged, exactly when unseeded with a non-empty list; otherwise leaves the state as it was |
| InitialPostsLoader.SeedingIsOneShot | src/components/InitialPostsLoader.tsx:18 | Once seeded, later runs with any props change nothing |
| InitialPostsLoader.SeededStaysSeeded | src/components/InitialPostsLoader.tsx:18 | Every action except `RESET` keeps a seeded controller seeded |
| InitialPostsLoader.RunEffectIdempotent | src/components/InitialPostsLoader.tsx:17-21 | Running the effect twice with the same props is running it once |
| InitialPostsLoader.EmptyListSeedsNothing | src/components/InitialPostsLoader.tsx:18 | An empty list seeds nothing and leaves the controller unseeded |
| InfiniteScroll.HandleIntersection | src/components/InfiniteScrollContainer.tsx:21-35 | An empty batch throws. Otherwise the load is called if and only if the first entry intersects and more follow, nothing loads and the controller is seeded |
| InfiniteScroll.OnlyFirstEntryCounts | src/components/InfiniteScrollContainer.tsx:23 | Only the first entry of a batch matters |
| InfiniteScroll.OnIntersection | src/components/InfiniteScrollContainer.tsx:21-35 | The callback runs `loadNextPage()` unforced when the trigger fires, and otherwise changes nothing |
| InfiniteScroll.NoSeedNoLoad | src/components/InitialPostsLoader.tsx:18 | With an empty initial list the trigger never loads |
| InfiniteScroll.OnRetryClick | src/components/InfiniteScrollContainer.tsx:84-86 | The button, enabled only while not loading, calls `loadNextPage()` unforced: a no-op after three failures; with fewer failures and more to load, a request for the current page |
| InfiniteScroll.RetryButtonInertAfterThreeFailures | src/components/InfiniteScrollContainer.tsx:85 | After three failures a click leaves the state unchanged |
| ScrollSession.KeepNewestAppend | src/contexts/PostsContext.tsx:78-84 | Trimming before appending gives what trimming after appending gives, so trimming never disturbs later pages |
| ScrollSession.PageIsNew | src/app/api/posts/route.ts:18-20 | In a list with distinct slugs, a page shares no slug with what is held from the pages before it |
| ScrollSession.WindowIsFresh | src/contexts/PostsContext.tsx:66-69 | So the de-duplication filter keeps the whole page |
| ScrollSession.SyncedPosts | src/contexts/PostsContext.tsx:78-84 | Appending the next page to the held posts and trimming gives the newest posts up to the end of that page |
| ScrollSession.HeldAfterPage | src/contexts/PostsContext.tsx:64-96 | The same, stated for the reducer's `LOAD_SUCCESS` |
| ScrollSession.GetAnswersPage | src/app/api/posts/route.ts:12-38 | For a page starting inside the list, the endpoint answers that window with `hasMore`, the total and `loadedCount` at the window's end |
| ScrollSession.ServerAnswersPage | src/app/api/posts/route.ts:26-38 | As the controller reads it: status 200 with the window's posts, `hasMore` and the total |
| ScrollSession.RoundIsLoadSuccess | src/contexts/PostsContext.tsx:155-188 | An idle controller with more to load requests the next page and dispatches `LOAD_SUCCESS` with that window |
| ScrollSession.SuccessKeepsSync | src/contexts/PostsContext.tsx:64-96 | The state after that page arrived holds the newest posts up to its end and is one page further on |
| ScrollSession.RoundKeepsSync | src/contexts/PostsContext.tsx:132-214 | A load answered by the endpoint keeps the controller holding exactly the newest posts of the loaded pages, and moves it one page on. When nothing follows it does nothing |
| ScrollSession.RoundLoadsNextPage | src/contexts/PostsContext.tsx:155-188 | With more to load, a round loads the next page and stays in sync |
| ScrollSession.RoundWhenDone | src/contexts/PostsContext.tsx:134 | With nothing more, a round changes nothing |
| ScrollSession.RoundsKeepSync | src/contexts/PostsContext.tsx:132-214 | Any number of rounds keeps the controller in sync |
| ScrollSession.RoundMovesCursor | src/contexts/PostsContext.tsx:86-95 | A round leaves an idle, failure-free controller so, and moves the page on exactly when more follows |
| ScrollSession.RoundsCountPages | src/contexts/PostsContext.tsx:90 | While more follows, k rounds move the page cursor by k |
| ScrollSession.RoundsIdle | src/contexts/PostsContext.tsx:134 | With nothing more to load, rounds change nothing |
| ScrollSession.PostsPerPageKept | src/contexts/PostsContext.tsx:86-95 | The page size and the memory cap never change |
| ScrollSession.EverythingLoads | src/contexts/PostsContext.tsx:132-214 | After enough rounds the controller holds the newest posts of the whole list and asks for no more |
| ScrollSession.InitialStateInSync | src/contexts/PostsContext.tsx:40-50 | The initial state is in sync with any non-empty list |
| ScrollSession.AlignedSeedInSync | src/contexts/PostsContext.tsx:106-119 | Seeding a whole number of pages, or the whole list, within the memory cap leaves the controller in sync |
| ScrollSession.HomePageSeedThenPageTwo | src/contexts/PostsContext.tsx:107-109 | Seeding the first ten posts gives page 2 next, and the endpoint answers it with posts 10 to 14 |
| ScrollSession.MisalignedSeedSkipsPosts | src/contexts/PostsContext.tsx:109 | A seed that is not a whole number of pages makes the next request start past the seeded posts |
| ScrollSession.PageStartIsProduct | src/app/api/posts/route.ts:18 | The page-by-page start of a page is `page * limit` |

## Left out

- AnalyticsStorage.AddVisitorKeepsOnePerDay: the one-row-per-visitor-per-day property holds only for calls that run one after another. The lookups and the insert are separate queries with no transaction around them, so overlapping requests of one visitor can insert the same row twice (`OverlappingAddsDuplicate`).
- AnalyticsStorage.VisitorsTable.AddVisitor: each call runs as one step on the table; an overlapping call's insert between its lookups and its own insert is not modelled, and its preserved one-row-per-day clause holds only for calls that run one after another.
- AnalyticsApi.Post: each request runs as one step on the table. The preserved one-row-per-day clause holds only for requests that run one after another, as for `AddVisitor`.
- VisitorTracking.AtMostOneSuccessPerDay: holds for page loads that run one after another in one browser storage. Tabs that read the storage before either writes it can both report on the same day (`OverlappingTabsBothReport`).
- PostsContext.LoadStep: the final dispatch is applied to the state of the call with `loading` set. In the code it lands on whatever state the reducer holds when the request ends, which another dispatch may have changed in the meantime.
- PostsContext.ThreeFailuresStopUnforcedCalls: holds for calls that read the live state. The retry scheduled after a network failure is not bounded by the three-failure guard (`StaleRetryNeverStops`).
- Timers, `await` and cancellation are not modelled: the backoff wait, the 10 s `AbortController` timeout, the 2 s automatic retry and the 1 s tracking delay. The delays and the retry decision are returned as values. The automatic retry is not replayed as a call of `LoadStep`; `StaleRetryNeverStops` states what its stale closure does.
- `IntersectionObserver`, `requestAnimationFrame` throttling, `scrollIntoView`, `history.pushState` and the rendered markup are DOM plumbing. A batch of observer entries and integer heading positions stand in for them.
- `fs`, `gray-matter`, remark and its plugins, and highlight.js are supplied functions. The markdown tree is given as its nodes in visiting order, so nesting is not modelled.
- AnalyticsStorage.Bytes: `Buffer.from` is modelled as one byte per character, which is exact only for ASCII text; UTF-8 multi-byte encoding is not modelled.
- AnalyticsStorage.LowerString: case-insensitive matching is ASCII folding. That is what the `i` flag does for these all-ASCII patterns without the `u` flag.
- Supabase is a sequence of rows. Query failures and insert failures are inputs, and the table's own row id is left out.
- Clock reads (`getTodayString`, `new Date()`) are parameters.
- `parseInt` of arbitrary query text (NaN, negative values) is not modelled. `page` and `limit` arrive already parsed as natural numbers, with `None` for a missing or empty parameter.
- Exceptions are inputs. This covers a thrown `getAllPosts` and failures of `response.json()` or `fetch`. A JSON body that is `null`, which makes the source throw a `TypeError` that would then schedule an automatic retry, is not distinguished from other thrown errors.
- Logging, HTTP cache headers, compression headers and the unused `CACHE_CONFIG` are left out.
- `src/app/page.tsx` is not part of this model. It seeds ten posts without passing `totalPosts`, and `getAllPostsMetadata` is not part of this model either. The loader's `totalPosts` is taken as the number its props declare.
- The `tag` field of a summary exists in the record but is never produced by the endpoint.
- PostsContext.KeepNewest: its own contract states the length only. That the kept items are the newest, in order, is the separate lemma `KeepNewestIsSuffix`.
- InfiniteScroll.OnRetryClick: it states the skip and the requested page. The resulting state is the one `LoadStep` gives, which its body uses directly.
