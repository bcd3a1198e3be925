# Diet chat: message history, local cache and macro summary

A Dafny model of the logic inside a Next.js diet-tracking chat app. A
signed-in user chats with an assistant. The assistant can call a
`nutrients` tool, which asks the Nutritionix API about foods and returns a
list of `Food` records. These render as an editable intake summary. Every
message is stored in Redis, under two keys per user: a sorted set scored
by creation time, and a hash from message id to message. The browser
mirrors the history in an IndexedDB cache. The chat page pages backwards
through history, merging the cached and the remote pages.

Modules, one per source file:

- `Wrappers`: `Option`, which stands for `undefined`/`null` and for a
  number that failed to parse (NaN).
- `ChatMessages` (shared record): the `Message` datatype, the stable
  ascending sort by `createdAt` that both the page and the cache use, and
  the page's first-occurrence deduplication.
- `LocalCache` (`src/lib/indexedDB.ts`): class `MessageCache` holding the
  per-user map of message lists. `SaveMessages` overwrites one entry.
  `GetMessages` is a read-only function of the state.
- `RedisStore` (`src/db/redis.ts`): the key formatters, and class `Redis`
  over an abstract key space of sorted sets (member to score) and hashes
  (field to value). It provides `StoreMessages`, `GetMessages` (a
  `ZRANGE … BYSCORE REV LIMIT` read, specified by `HistoryPage`),
  `GetMessage` and `ClearChat`.
- `ChatRoute` (`src/app/api/chat/route.ts`): the GET/POST guard, POST's
  read/store order, the Nutritionix query string, the field renaming and
  its `[]` fallback.
- `CalendarDates` (`src/components/chat/DateDivider.tsx`): calendar
  dates, the previous day, and the divider-label decision.
- `MessageItemView` (`src/components/chat/MessageItem.tsx`): the avatar
  and body choice for a message.
- `MacroSummary` (`src/components/macro-summary/index.tsx`): the `Food`
  record, serving-quantity edits, deletion and the totals, plus the card
  as class `Summary`.
- `ChatPage` (`src/app/chat/page.tsx`): class `Chat`, with fields
  `messages`, `lastTimestamp`, `isLoading`, `hasMore` and
  `shouldAutoScroll`. Its methods are the two loaders, the scroll
  handler, the SDK's `onFinish` and the render `reduce`. Each takes the
  fetched pages as inputs. The functions `AfterInitialLoad` and
  `AfterLoadMore` give what the loaders do to the view. Lemmas state the
  merge properties of those functions.

What goes in from outside the model:

- Fetched pages are parameters. A fetch or JSON parse that throws is `None`.
- The `loadMoreMessages` server is a function from the request to its answer.
- The signed-in user is an `Option<string>`.
- "Is today" is computed from two `CalendarDate`s.
- Number-to-text conversion is a function parameter (`showAmount`).
- `createdAt` is an integer count of milliseconds.

`deduplicateMessages` keeps the first message of each id
(`!seen.has(id)`, src/app/chat/page.tsx:28), and so does the model
(`FirstOccurrences`, `DeduplicatedPrefersFirst`). So the initial load
keeps the cached copy of an id over the fetched one, and an older-page
load keeps the older page's copy over the one shown.

POST gives the language model its stored history newest first: the
context is a Redis page, which `HistoryPage` orders by descending
creation time, followed by the new message (src/app/api/chat/route.ts:51,
56). `ChatRoute.Post` states this order.

## Model

| member | source | states |
|---|---|---|
| ChatMessages.SortByTime | src/lib/indexedDB.ts:39-41 | the result is ascending by `createdAt` and a permutation (same multiset) of the input |
| ChatMessages.SortIsStable | src/app/chat/page.tsx:33-36 | messages created at the same time keep their relative order, as the stable `Array.prototype.sort` does |
| ChatMessages.SortOfSorted | src/lib/indexedDB.ts:70-72 | sorting a list that is already ascending returns it unchanged |
| ChatMessages.SortKeepsIdsDistinct | src/app/chat/page.tsx:33-36 | sorting a list with distinct ids keeps the ids distinct |
| ChatMessages.FirstIndex | src/app/chat/page.tsx:27-30 | the position of the first message with an id: it has that id and no earlier message does |
| ChatMessages.FirstOccurrencesSpec | src/app/chat/page.tsx:25-31 | the Map's values keep exactly the input's ids, each once, and each kept message is the first in the input with its id |
| ChatMessages.FirstOccurrencesInOrder | src/app/chat/page.tsx:25-31 | the Map's values come in the order their ids first occur in the input (its insertion order) |
| ChatMessages.DeduplicatedSpec | src/app/chat/page.tsx:25-36 | deduplication gives a list ascending by `createdAt`, with no repeated id, with exactly the input's ids, and with each id's first occurrence |
| ChatMessages.DeduplicatedPrefersFirst | src/app/chat/page.tsx:28-29 | merging `a` then `b` keeps `a`'s copy of each id `a` has, and takes from `b` only ids `a` lacks |
| ChatMessages.FirstIndexOfConcat | src/app/chat/page.tsx:28-29 | in `a + b` the first occurrence of an id lies in `a` exactly when `a` has the id |
| ChatPage.Chat.DeduplicateMessages | src/app/chat/page.tsx:25-37 | the Map-filling loop followed by the sort yields `Deduplicated(s)` |
| ChatPage.InitialLoadMerges | src/app/chat/page.tsx:97-150 | a non-empty cached page replaces the list and sets the cursor to its last `createdAt`. A non-empty fetched page is then merged after it: sorted, unique ids, the ids of both, the shown copy winning. The cursor becomes the page's last `createdAt` and `hasMore` is whether the page held 10. With no page, the list and `hasMore` stay as the cache step left them |
| ChatPage.Chat.LoadInitialMessages | src/app/chat/page.tsx:92-157 | with no user nothing changes. Otherwise the view becomes `AfterInitialLoad` of the cache's 10 oldest messages and the fetched page. The cache entry is overwritten with the sorted fetched page only when that page is non-empty. `isLoading` and `shouldAutoScroll` are untouched |
| ChatPage.Chat.StartLoadMore | src/app/chat/page.tsx:161-164 | past the guard (signed in, not loading, cursor set and non-zero), `isLoading` becomes true and the request carries limit 10 and the cursor as it was at the call. Otherwise nothing changes |
| ChatPage.Chat.FinishLoadMore | src/app/chat/page.tsx:166-230 | the view becomes `AfterLoadMore` of the cached older page (queried with the request's cursor) and the response. The cache is written back only after a non-empty response. `isLoading` ends false |
| ChatPage.Chat.LoadMoreMessages | src/app/chat/page.tsx:160-231 | when the guard fails nothing changes. Otherwise the cache query and the server request both use the cursor captured at call start, `isLoading` ends false, and the view and cache are as `FinishLoadMore` says |
| ChatPage.LoadMoreMerges | src/app/chat/page.tsx:169-222 | after a non-empty remote page, the list is sorted and has unique ids. It holds the ids of the page, the cached page and the old list, with the remote page's copy winning. The cursor is the page's last `createdAt`, and `hasMore` is true iff the page had exactly 10 messages |
| ChatPage.LoadMoreWithoutPage | src/app/chat/page.tsx:169-227 | without a remote page, only the cached step shows. An empty page sets `hasMore` false, and a failed request leaves `hasMore` as it was |
| ChatPage.OlderPageMerges | src/app/chat/page.tsx:196-222 | the remote step alone: the older page is merged in front (sorted, unique, union of ids, the page's copy winning), the cursor moves, and `hasMore` is whether the page was full |
| ChatPage.CursorIsOldestOfPage | src/app/chat/page.tsx:216-222 | for a newest-first remote page, the cursor taken from its last element is its oldest `createdAt` |
| ChatPage.NextPageIsOlder | src/app/chat/page.tsx:189-194 | the page fetched with that cursor holds only messages strictly older than every message of the previous page |
| ChatPage.Chat.HandleScroll | src/app/chat/page.tsx:233-261 | while loading or with `!hasMore` nothing changes. Otherwise a load starts iff `scrollTop < 100` (and the loader's guard passes), and `shouldAutoScroll` becomes `scrollHeight - (scrollTop + clientHeight) < 100` |
| ChatPage.InitialReloadKeepsOnlyThePages | src/app/chat/page.tsx:97-157 | as written: when the initial load runs again with a non-empty cache, the list holds only messages of the cache's oldest page or of the fetched page; anything else loaded before is dropped |
| ChatPage.InitialReloadDropsOlderMessage | src/app/chat/page.tsx:97-157 | as written: a shown older message is gone after a re-run once the cache holds only the newest page, and the cursor jumps back to the newest page |
| ChatPage.Chat.InitialLoadEffect | src/app/chat/page.tsx:92-157 | the load as a mount-only effect: the first call behaves as `LoadInitialMessages`; every later call leaves the view and the cache unchanged |
| ChatPage.Chat.OnFinish | src/app/chat/page.tsx:56-65 | with a user, that user's cache entry becomes the displayed list, sorted. Without one, the cache is untouched |
| ChatPage.Chat.Render | src/app/chat/page.tsx:294-322 | the `reduce` loop pushes exactly `Layout(messages)` |
| ChatPage.LayoutKeepsMessages | src/app/chat/page.tsx:311-317 | the rendered items contain every message once, in list order |
| ChatPage.DividerMarksNewDay | src/app/chat/page.tsx:296-309 | each message is preceded by a divider carrying its date exactly when it is the first message or its UTC day differs from its predecessor's |
| ChatPage.LayoutOfPrefix | src/app/chat/page.tsx:294-322 | rendering a prefix of the list yields a prefix of the rendered items |
| LocalCache.MessageCache.SaveMessages | src/lib/indexedDB.ts:29-48 | the user's entry becomes the input sorted ascending (a stable permutation). Every other user's entry is unchanged |
| LocalCache.OlderThan | src/lib/indexedDB.ts:75-79 | each message with `createdAt < before` as many times as in the input (same multiplicity), and no other message |
| LocalCache.OlderThanSorted | src/lib/indexedDB.ts:70-79 | filtering the sorted list leaves it sorted |
| LocalCache.OlderThanAppend | src/lib/indexedDB.ts:75-79 | the filter keeps input order: filtering `a + b` is filtering `a` followed by filtering `b` |
| LocalCache.Eligible | src/lib/indexedDB.ts:69-79 | the stored list sorted, then cut at a non-zero `before`: ascending, and a permutation (same multiplicity of each message) of the stored messages the cut-off admits |
| LocalCache.GetMessagesSpec | src/lib/indexedDB.ts:50-86 | a user with no entry or an empty list gets `[]`. Otherwise the result has length min(`limit` (default 10), number eligible), is a prefix of the sorted, filtered list, is ascending, holds only admitted messages, and is no newer than any eligible message it leaves out. Being a function of the state, it cannot change the store |
| LocalCache.OldestFirst | src/lib/indexedDB.ts:82 | a prefix of a sorted list is sorted and no later than anything it leaves out |
| RedisStore.ChatKeyRoundTrip | src/db/redis.ts:10 | the user id is recovered from the sorted-set key `"chat:" + u + ":messages"` |
| RedisStore.HashKeyRoundTrip | src/db/redis.ts:11 | the user id is recovered from the hash key `"chat:" + u + ":messages:by-id"` |
| RedisStore.ChatKeyInjective | src/db/redis.ts:10 | different users get different sorted-set keys |
| RedisStore.HashKeyInjective | src/db/redis.ts:11 | different users get different hash keys |
| RedisStore.ChatKeyIsNeverHashKey | src/db/redis.ts:10-11 | no sorted-set key equals any hash key, for the same user or another |
| RedisStore.ZAddAll | src/db/redis.ts:22-26 | every batch member joins the set with score equal to its `createdAt`. Members outside the batch keep their scores. Scoring by creation time is preserved |
| RedisStore.ZAddIdempotent | src/db/redis.ts:22-26 | members are whole messages, so storing the same batch again adds nothing |
| RedisStore.LastIndex | src/db/redis.ts:29-33 | the last position of an id in a batch: it has the id and no later message does |
| RedisStore.HSetAll | src/db/redis.ts:29-33 | after HSET, each batch id maps to the LAST message in the batch with that id (from `Object.fromEntries`). Other ids keep their entries |
| RedisStore.Redis.StoreMessages | src/db/redis.ts:17-34 | on a non-empty batch, only the user's two keys change: the sorted set by `ZAddAll`, the hash by `HSetAll` |
| RedisStore.Redis.GetMessages | src/db/redis.ts:43-68 | the result is a `HistoryPage`: at most `limit` (default 20) messages, or all candidates if fewer, newest first, no repeats. With a non-zero cursor every score is strictly below it. No eligible member is skipped for a lower-scored one |
| RedisStore.Redis.GetMessage | src/db/redis.ts:73-87 | returns the hash entry for the id, or `None` (null) exactly when it is absent |
| RedisStore.Redis.ClearChat | src/db/redis.ts:92-97 | both of the user's keys are deleted and read as empty. Every other user's set and hash are unchanged, and every remaining member is still scored by its creation time |
| RedisStore.HighestScoreExists | src/db/redis.ts:52-62 | a non-empty candidate set has a highest-scored member, which the REV range returns next |
| ChatRoute.Get | src/app/api/chat/route.ts:19-40 | replies 401 exactly when there is no user. Otherwise it replies with a `HistoryPage` for the query's limit and cursor |
| ChatRoute.Post | src/app/api/chat/route.ts:42-173 | with no user: 401, both stores untouched. Otherwise the model's context is the 10 newest stored messages followed by the new one. The store then gets the user's message first, followed by the response messages in order |
| ChatRoute.Descriptions | src/app/api/chat/route.ts:104-105 | one `"<amount> <unit> of <food>"` per requested food, in request order |
| ChatRoute.JoinAppend | src/app/api/chat/route.ts:106 | `join` of two non-empty runs is their joins with one separator between |
| ChatRoute.NutrientQueryAppend | src/app/api/chat/route.ts:103-106 | the query for `a + b` is the query for `a`, then `", "`, then the query for `b`. A single food's query is its description |
| ChatRoute.ToFood | src/app/api/chat/route.ts:132-151 | an item maps to a Food exactly when it has a photo, with `img` set to `photo.thumb` |
| ChatRoute.FromToFood | src/app/api/chat/route.ts:132-151 | the renaming is lossless: renaming a Food back to Nutritionix names restores the item |
| ChatRoute.ToFromFood | src/app/api/chat/route.ts:132-151 | every Food with an image is the renaming of the reversed item |
| ChatRoute.ToFoodAmounts | src/app/api/chat/route.ts:137-140 | the renaming sends `nf_calories`, `nf_total_fat`, `nf_total_carbohydrate` and `nf_protein` to calories, fat, carbohydrates and protein |
| ChatRoute.MapFoods | src/app/api/chat/route.ts:114-152 | when every item maps, the result is one Food per item in the same order. If any item throws, the result is `None` |
| ChatRoute.ExecuteNutrients | src/app/api/chat/route.ts:110-158 | a failed fetch or parse, a body without `foods`, or an item that throws gives `[]`. Otherwise the result is one renamed Food per item, in order |
| CalendarDates.PreviousDay | src/components/chat/DateDivider.tsx:7-9 | today stepped back one day is a valid date strictly before it, across month and year boundaries |
| CalendarDates.NextDay | src/components/chat/DateDivider.tsx:7-9 | the inverse step: a valid date strictly after |
| CalendarDates.NextOfPrevious | src/components/chat/DateDivider.tsx:7-9 | the day after the previous day is the date itself |
| CalendarDates.PreviousOfNext | src/components/chat/DateDivider.tsx:7-9 | the day before the next day is the date itself |
| CalendarDates.PreviousDayIsAdjacent | src/components/chat/DateDivider.tsx:7-9 | no valid date lies strictly between the previous day and the date |
| CalendarDates.FormatMessageDate | src/components/chat/DateDivider.tsx:6-31 | the full-year label iff the year differs from today's. "Today" iff the date is today. "Yesterday" iff same year and the previous day. The weekday-month-day label otherwise. Date-bearing labels carry the date |
| CalendarDates.YesterdayMeansDayBefore | src/components/chat/DateDivider.tsx:20-23 | "Yesterday" labels exactly the dates in today's year whose next day is today |
| CalendarDates.NewYearsDayHasNoYesterday | src/components/chat/DateDivider.tsx:11-23 | on 1 January, 31 December of the previous year gets the full-year label, not "Yesterday", because the year test comes first |
| MessageItemView.AvatarFor | src/components/chat/MessageItem.tsx:17-35 | role `user` shows the user image when a non-empty one is given, otherwise a placeholder. Any other role shows the bot icon |
| MessageItemView.BodyFor | src/components/chat/MessageItem.tsx:37-54 | absent or empty invocations render the content. Otherwise there is one part per invocation, in order: a summary carrying the result, message id and `createdAt` for a finished `nutrients` call, a skeleton for an unfinished one, and nothing for other tools |
| MessageItemView.BodySummaries | src/components/chat/MessageItem.tsx:38-50 | the summaries shown are exactly the finished `nutrients` results, in invocation order |
| MessageItemView.SummariesAreResults | src/components/chat/MessageItem.tsx:38-50 | the per-invocation map drops, repeats and reorders no finished `nutrients` result |
| MacroSummary.Zeroed | src/components/macro-summary/index.tsx:57-70 | for non-numeric input: the original with quantity and the four scaled nutrients all 0, every other field unchanged |
| MacroSummary.Scaled | src/components/macro-summary/index.tsx:76-88 | the original with `serving_qty = q`, every unscaled field unchanged |
| MacroSummary.ScaledAmount | src/components/macro-summary/index.tsx:79-87 | each of calories, fat, carbs and protein becomes original × q / original `serving_qty` |
| MacroSummary.ScaledIsProportional | src/components/macro-summary/index.tsx:79-87 | each scaled nutrient keeps the original's amount per serving unit |
| MacroSummary.ScaledToOriginalServing | src/components/macro-summary/index.tsx:76-88 | asking for the original quantity gives the original food back |
| MacroSummary.ScaledToZeroIsZeroed | src/components/macro-summary/index.tsx:57-88 | quantity 0 gives the same food as a non-numeric input |
| MacroSummary.ServingUpdate | src/components/macro-summary/index.tsx:51-92 | when the message is not from today, nothing changes. Non-numeric input zeroes the original at `index`. Negative input is a no-op. Input q ≥ 0 puts the original scaled to q at `index`. Length and every other position are unchanged |
| MacroSummary.ServingUpdateIdempotent | src/components/macro-summary/index.tsx:78-88 | entering the same input twice equals entering it once |
| MacroSummary.ServingUpdateForgetsEarlierEdit | src/components/macro-summary/index.tsx:78-88 | since scaling starts from the original, a later non-negative or non-numeric edit erases any earlier one |
| MacroSummary.ServingUpdateReplacesOne | src/components/macro-summary/index.tsx:76-91 | a valid edit today is exactly a one-position replacement |
| MacroSummary.WithoutIndex | src/components/macro-summary/index.tsx:96 | filtering out index `i` removes exactly that element and keeps the others in order. An index outside the list removes nothing |
| MacroSummary.Deletion | src/components/macro-summary/index.tsx:94-97 | not today: unchanged. Today: exactly the `i`-th element removed |
| MacroSummary.TotalAppend | src/components/macro-summary/index.tsx:99-114 | a total is additive over concatenation: the `reduce` sum of the field |
| MacroSummary.TotalAfterReplace | src/components/macro-summary/index.tsx:99-114 | replacing one food changes each total by the difference of the two amounts |
| MacroSummary.TotalAfterDelete | src/components/macro-summary/index.tsx:96-114 | deleting one food takes exactly its amount off each total |
| MacroSummary.TotalAfterScaling | src/components/macro-summary/index.tsx:76-114 | after rescaling one position from its original, that position contributes the original amount × q / original quantity |
| MacroSummary.EditAfterDeleteRevivesDeletedFood | src/components/macro-summary/index.tsx:78 | as written: after deleting row 0 of [apple, bread], editing the remaining row rescales the apple into it |
| MacroSummary.EditKeepsFixedFields | src/components/macro-summary/index.tsx:57-88 | an edited row (the original, the original zeroed, or the original resized to the row's quantity) keeps the original's name, unit and unscaled fields |
| MacroSummary.ServingUpdateKeepsRowsAligned | src/components/macro-summary/index.tsx:51-92 | an edit that starts from the row's own original keeps every row an edit of its own original: unchanged, zeroed, or resized to its quantity |
| MacroSummary.DeletionKeepsRowsAligned | src/components/macro-summary/index.tsx:94-97 | deleting the same position from the rows and their originals keeps every row an edit of its own original |
| MacroSummary.Summary.constructor | src/components/macro-summary/index.tsx:42-48 | the card starts with the tool result. `isToday` is whether the message's date equals today |
| MacroSummary.Summary.UpdateServingQuantity | src/components/macro-summary/index.tsx:51-92 | `foods` becomes `ServingUpdate` from the row's own original. The originals are unchanged and the rows stay aligned |
| MacroSummary.Summary.DeleteFood | src/components/macro-summary/index.tsx:94-97 | `foods` and their originals both lose position `i` when today. The rows stay aligned |

## Findings

| source | as written | input that shows it | evidently intended | confidence | as-written member | corrected member |
|---|---|---|---|---|---|---|
| src/components/macro-summary/index.tsx:78 | an edit rescales `initialFoods[index]`, but `index` is a position in the current `foods`, which `deleteFood` shifts | foods [apple, bread]: delete row 0, then set row 0 (now bread) to 2. The row shows 2 apples | rescale the row's own original food | not executed; high | MacroSummary.EditAfterDeleteRevivesDeletedFood | MacroSummary.Summary.UpdateServingQuantity |
| src/app/chat/page.tsx:157 | the initial-load effect depends on `scrollToBottom`, which is re-created whenever `shouldAutoScroll` changes (page.tsx:68-89, 256-260), so scrolling re-runs the load. A re-run replaces the list with the cache's oldest page (page.tsx:97-106), resets the cursor and `hasMore`, and saves only the fetched page to the cache (page.tsx:139) | load older pages, then scroll so that `shouldAutoScroll` flips twice: shown [older, newest], cache holding only [newest] from the first re-run; the second re-run shows [newest] | run the initial load once per signed-in user | not executed; medium | ChatPage.InitialReloadDropsOlderMessage | ChatPage.Chat.InitialLoadEffect |

`MacroSummary.ServingUpdate` models the edit as written: it takes the list
the edit starts from as a parameter. The card class `Summary` passes it the
originals of the rows still shown. So an edit after a deletion rescales the
row's own food, and `ServingUpdateKeepsRowsAligned` proves that every row
stays an edit of its own original.

`ChatPage.Chat.LoadInitialMessages` models one run of the effect body as
written. `ChatPage.Chat.InitialLoadEffect` guards it with a flag set on
the first run, so a later dependency change cannot drop loaded pages.

## Left out

- I/O is left out: `fetch`, the Upstash client, IndexedDB open/transaction/promise wiring (`initDB`), Clerk `auth`, and LLM streaming with `toDataStreamResponse`. Their results are parameters or abstract state.
- Failures of the stores are left out (rejected IndexedDB requests, an unreachable Redis). A loader's `try/catch` over those calls is not modelled, but a failed fetch or JSON parse is (`None`).
- The artificial one-second delay in GET is left out, because timing plays no part in the model.
- The prompt's "call the tool once" rule is left out, because it is an instruction to the model and not code.
- React's runtime is left out: state batching, async interleaving between handlers, `setTimeout`, `scrollToBottom`'s DOM writes, event-listener registration and console logging. Each handler is one sequential step and `isLoading` is the only guard.
- `ChatPage.Chat.LoadMoreMessages`: the answer is taken from the server function in one step, so a second call arriving while the first awaits is not modelled. `StartLoadMore`/`FinishLoadMore` model the two halves separately.
- Floating point is left out: NaN/Infinity, `toFixed`, `parseFloat`/`parseInt`. Quantities are `real`, and a parsed input is `Option<real>` with `None` for NaN.
- The totals' `isNaN(x) ? 0 : x` guard is left out, because a `real` is never NaN.
- `MacroSummary.ServingUpdate`: requires the original `serving_qty` to be non-zero when a non-negative quantity is entered, because the source then divides by it.
- Calendar and locale are left out: time zones (the divider key uses the UTC day of `toISOString`, while labels and "is today" use local dates), and the weekday and month text of `toLocaleDateString`.
- `Date.now()` is left out as the ZADD score fallback for a message without `createdAt`, because every modelled message has one.
- JSON serialisation is left out: it is taken as injective, so a sorted-set member is the message itself.
- Redis's order among equal scores is left out: `HistoryPage` allows any order of ties.
- `RedisStore.Redis.StoreMessages`: requires a non-empty batch, because ZADD is given its first pair apart from the rest.
- Negative `limit` values are left out: limits are `nat`, so JavaScript's `slice` with a negative end and `parseInt` of a non-number do not arise.
- `ChatRoute.Describe`: the amount's text form is a parameter, because JavaScript's number-to-string conversion is not modelled.
- `ChatPage.Chat.OnFinish`: writes the list current when it runs. The source's `onFinish` closure reads the `messages` of the render that created it, which may be the list from before the submission; closure capture is not modelled.
- `ChatPage.Chat.HandleScroll`: does not itself re-run the initial load when it flips `shouldAutoScroll`; that re-run is stated by `InitialReloadKeepsOnlyThePages` and recorded under Findings.
- `handleSave` is left out, because it only logs.
- Static markup is left out: src/components/macro-summary/skeleton.tsx and src/app/page.tsx.
- src/app/api/chat/fitia.ts is left out: a hard-coded network call and type declarations, with no logic.
- next.config.ts is left out, because it is configuration.
