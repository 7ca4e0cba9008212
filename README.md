# osm-feed in Dafny

osm-feed watches the OpenStreetMap minutely replication feed. Each minutely
diff is fetched, and the changesets with a node strictly inside a configured
rectangle are picked out. Each such changeset is enriched with its details
and the author's profile image, and then posted as an embed to a Discord
webhook. The checkpoint `settings.last` moves forward only when a whole batch
has been posted.

The project models two generations of that feed and the geometry helpers used
to build country bounds:

- **The feed command** (`src/commands/feed/feed.ts` with `embed.ts`,
  `profileCache.ts` and `src/lib/apis/osm.ts`) and **the older feed**
  (`src/main.ts`).
  - Pure parts are functions: the diff URL, the `state.txt` parse, the spatial
    filters, batch planning, collation and sorting, the embed, and the two
    profile caches.
  - The module-level state (`last`, `isProcessing`, the cache, the posted
    embeds) is held by the classes `FeedCommand.Feed` and
    `LegacyMain.LegacyFeed`. Their methods follow `doProcess`,
    `processingLoop`, `processingLock` and `runFeed`/`main`.
  - Module `Processing` states what those methods compute. `RunLoop` is
    `processingLoop` as a function of the checkpoint, the cache and the
    posted embeds. It takes the batch step as a parameter: `FeedBatch` or
    `LegacyBatch`.
  - HTTP, gzip and XML decoding are replaced by the function fields of
    `Pipeline.Network`.
  - `Promise.all` is taken in list order and fails when any of its members
    fails.
- **`mergeLoops`** (`src/commands/bounds/merge_loops.ts`).
  - `MergeLoops.MergeLoopsSpec` is a recursive specification.
  - `MergeLoops.MergeLoopsInPlace` and `MergeLoops.TraceChain` work on an
    array of way geometries and reverse ways in place, as the source does.
- **`getBounds`, `pointInsideBounds` and `crossingDirection`**
  (`src/lib/geometry/point_inside.ts`), and **`BoundsHelper.pointInBounds`**
  (`src/lib/boundsHelper.ts`).
- **`pad3`, `range` and `arrayChunks`** (`src/helpers.ts`,
  `src/lib/helpers.ts`).
- **Types:**
  - Changeset ids are naturals, because they are ordered with `parseInt`.
  - Coordinates are reals, because they are only compared.
  - A JavaScript `Map` kept in insertion order is a sequence with distinct
    keys.

## Model

| member | source | states |
|---|---|---|
| Decimal.NatToString | src/helpers.ts:1 | `String(n)` of a natural is a non-empty digit string with no leading zero |
| Decimal.NatToStringValue | src/lib/helpers.ts:1 | reading `String(n)` back as decimal gives `n` |
| Decimal.NatToStringInjective | src/lib/helpers.ts:1 | distinct naturals have distinct decimal forms |
| Decimal.NatToStringLength | src/lib/helpers.ts:1 | the decimal form has at most three digits exactly when `n < 1000` |
| Decimal.LeadingZerosValue | src/lib/helpers.ts:1 | zeros put in front of a digit string by `padStart` do not change its value |
| Helpers.Pad3 | src/lib/helpers.ts:1 | `pad3(n)` is all digits, reads back as `n`, has at least three characters, and has exactly three iff `n < 1000` |
| Helpers.Pad3Shape | src/helpers.ts:1 | `pad3(n)` is `String(n)` preceded by zeros only; zeros are added only up to length three |
| Helpers.Range | src/lib/helpers.ts:3-5 | `range(start, size)` has `size` elements and element `i` is `start + i` |
| Helpers.ArrayChunks | src/lib/helpers.ts:7-15 | the chunks concatenate back to the input; each is non-empty and at most `chunkSize` long; all but the last are exactly `chunkSize`; there are ceil(length / chunkSize) of them |
| Osm.SequenceGroups | src/lib/apis/osm.ts:17-20 | the millions, thousands and units groups recompose to the id; the last two are below 1000 |
| Osm.URLForSequenceNumber | src/lib/apis/osm.ts:17-22 | the URL starts with the minutely replication base and ends in `.osc.gz` |
| Osm.URLRoundTrip | src/lib/apis/osm.ts:17-22 | parsing the `AAA/BBB/CCC.osc.gz` path of a sequence number's URL gives the number back |
| Osm.URLInjective | src/lib/apis/osm.ts:17-22 | distinct sequence numbers get distinct diff URLs |
| Osm.BuiltURLGroups | src/lib/apis/osm.ts:21 | a URL built from a base and three groups has the diff shape, and its groups read back as those three |
| Osm.DigitRun | src/lib/apis/osm.ts:10 | the greedy `\d+`: the run is all digits and is followed by the end or a non-digit |
| Osm.FindMatch | src/lib/apis/osm.ts:10 | finds the leftmost position at or after `from` where `sequenceNumber=` is followed by a digit, or reports that there is none |
| Osm.ParseStateMatches | src/lib/apis/osm.ts:8-15 | `getLatestSequenceNumber` throws exactly when the expression matches nowhere; otherwise it yields the number captured at the leftmost match |
| Osm.StateRoundTrip | src/lib/apis/osm.ts:8-15 | a state text with `sequenceNumber=<n>` not followed by another digit, and no `=` before it, parses to `n` |
| Osm.NoMatchInHeader | src/lib/apis/osm.ts:10 | no match starts inside a header that has no `=` |
| Osm.CommentOf | src/lib/apis/osm.ts:37 | the comment tag when present and non-empty, otherwise `(no comment)`; never empty |
| Osm.GetChangesetDetails | src/lib/apis/osm.ts:24-40 | id and time come from the filtered node; uid, user name and change count come from `elements[0]`; the comment is `CommentOf` the tags |
| Filter.BoundedChangesetsFromStream | src/commands/feed/feed.ts:45-62 | the `startElement: node` handler run over the stream leaves exactly the values of `FirstSightings` in the map |
| Filter.FirstSightingsKeys | src/commands/feed/feed.ts:39-62 | a changeset is a key iff one of its nodes lies strictly inside the rectangle |
| Filter.FirstSightingsDistinct | src/commands/feed/feed.ts:54-59 | no changeset is recorded twice |
| Filter.FirstSightingsFirstWins | src/commands/feed/feed.ts:52-62 | an entry is recorded iff it is the first in-bounds node of its changeset, with that node's timestamp |
| Filter.FirstInBoundsLast | src/commands/feed/feed.ts:54-56 | the handler records the last node iff it is the first in-bounds node of its changeset |
| Filter.FirstInBoundsInit | src/commands/feed/feed.ts:52-62 | whether a node is the first in-bounds one does not depend on the nodes streamed after it |
| LegacyFilter.AddFirstSighting | src/main.ts:68-88 | one fold step keeps the old entries as a prefix and adds at most one entry |
| LegacyFilter.FoldBlocks | src/main.ts:120-123 | the reduce over a block list keeps the old entries and adds at most one entry per block |
| LegacyFilter.FilterNodesToChangeset | src/main.ts:68-88 | the loop with its early `return newMap` computes `AddFirstSighting`, or leaves the map as it is when `node` is absent |
| LegacyFilter.ReduceBlocks | src/main.ts:119-124 | one guarded `reduce` computes `FoldKind`, and an absent block list leaves the map unchanged |
| LegacyFilter.BoundedChangesetsFromSequenceXml | src/main.ts:117-136 | create, then modify, then delete blocks are folded from an empty map |
| LegacyFilter.AddFirstSightingFirst | src/main.ts:72-85 | a fold step inserts exactly the first qualifying node of the list, or nothing when no node qualifies |
| LegacyFilter.AddFirstSightingDistinct | src/main.ts:75 | a fold step never adds a changeset that is already a key |
| LegacyFilter.FoldBlocksDistinct | src/main.ts:120-123 | a whole fold keeps changesets distinct |
| LegacyFilter.SequenceChangesetsDistinct | src/main.ts:117-136 | the map built from a document holds each changeset once |
| LegacyFilter.AddFirstSightingSound | src/main.ts:76-82 | every inserted entry comes from a node strictly inside the rectangle |
| LegacyFilter.OneChangesetPerBlock | src/main.ts:82 | a block with two in-bounds changesets yields only the first; the streaming filter keeps both |
| Batch.PlanBatch | src/commands/feed/feed.ts:122-128 | nothing to do iff `latest <= last`; otherwise `start = last + 1 <= end <= latest`, covering at most 5 sequences, and `end` is `latest` unless the batch is full |
| Batch.SequencesFromTo | src/commands/feed/feed.ts:85-90 | `processFromTo` fetches exactly `start..end` in order, or nothing when `start > end` |
| Batch.Insert | src/commands/feed/feed.ts:98 | inserting adds exactly one copy of the element |
| Batch.InsertSorted | src/commands/feed/feed.ts:92 | inserting into an id-sorted list keeps it sorted |
| Batch.SortById | src/commands/feed/feed.ts:92-98 | the result is sorted by ascending numeric id and is a permutation of the input |
| Batch.SortByIdStable | src/commands/feed/feed.ts:98 | changesets with the same id keep their relative order |
| Batch.Collate | src/commands/feed/feed.ts:98 | `flatMap` then `sort`: sorted by id, and a permutation of all the sequences' changesets |
| Batch.ConcatMembers | src/commands/feed/feed.ts:98 | a changeset is in the flattened list iff it is in one of the sequences' lists |
| Batch.CollateKeepsRepeats | src/main.ts:228-230 | a changeset reported by two sequences of the batch appears at least twice |
| Profiles.ImageUrlOf | src/commands/feed/profileCache.ts:19-31 | a lookup yields an image url exactly when it succeeds with a non-empty `href`, and the url is that `href` |
| Profiles.CacheGet | src/commands/feed/profileCache.ts:13-36 | a hit returns the stored entry and keeps the cache; a miss stores and returns the lookup's url (null on failure); no other key changes |
| Profiles.CacheGetIdempotent | src/commands/feed/profileCache.ts:14-17 | a second `get` of a user returns the same result and leaves the cache as it is, whatever the service would say |
| Profiles.FailedLookupCachedAsNull | src/commands/feed/profileCache.ts:26-33 | a failed lookup is cached as null and later `get`s return null |
| Profiles.ProfileCache.constructor | src/commands/feed/profileCache.ts:9-11 | the cache starts empty |
| Profiles.ProfileCache.Get | src/commands/feed/profileCache.ts:13-36 | result and new cache are `CacheGet` of the old cache; a lookup is recorded only on a miss; each user is looked up at most once |
| Profiles.LegacyCacheGet | src/main.ts:201-217 | as `CacheGet`, but the stored entry is the lookup itself, a rejection included |
| Profiles.LegacyEntry | src/main.ts:207-213 | the stored promise resolves iff the lookup does, to the `href` or null |
| Profiles.LegacyFailureSticks | src/main.ts:202-215 | after one failed lookup every later `get` of that user fails, whatever the service answers |
| Embeds.MakeEmbedFromChangeFields | src/commands/feed/embed.ts:5-22 | the title is the id in decimal; the url is the changeset page; description, time and author name come from the change; the icon is present iff the image url is non-empty; the footer is the count followed by ` changes` |
| Embeds.EmbedIdentifiesChangeset | src/commands/feed/embed.ts:9-11 | distinct changesets get distinct titles and links |
| Embeds.MakeFullEmbedForChange | src/commands/feed/embed.ts:24-30 | the embed carries the image from `profileCache.get(change.uid)`, and the cache is updated as `CacheGet` says |
| Pipeline.DetailsAll | src/commands/feed/feed.ts:65-68 | `Promise.all` of the detail requests fails iff one request fails; otherwise entry `i` is the details of filtered node `i` |
| Pipeline.FetchAll | src/commands/feed/feed.ts:87 | fails iff one sequence fails; otherwise one result per sequence number, in order |
| Pipeline.EmbedAll | src/commands/feed/feed.ts:100-103 | one embed per changeset |
| Pipeline.EmbedAllCache | src/commands/feed/feed.ts:100-103 | afterwards the cache holds the old entries unchanged, plus each new author's resolved lookup |
| Pipeline.EmbedAllImages | src/commands/feed/feed.ts:100-103 | every embed carries its author's cached image; a failed profile lookup never fails the batch |
| Pipeline.FailedLookupShownWithoutImage | src/commands/feed/profileCache.ts:26-31 | an author whose first lookup fails still gets an embed, shown without an icon |
| Pipeline.LegacyEmbedAll | src/main.ts:232-233 | when the batch succeeds there is one embed per changeset |
| Pipeline.LegacyAppend | src/main.ts:219-222 | the batch goes on iff it had not failed and the author's lookup resolved, and then it gains this change's embed |
| Pipeline.LegacyEmbedAllCache | src/main.ts:232-233 | every author is looked up once and cached, a rejection included; old entries are unchanged |
| Pipeline.LegacyEmbedAllKeys | src/main.ts:232-233 | every author of the batch has a cache entry afterwards |
| Pipeline.LegacyEmbedAllFailure | src/main.ts:232-233 | the batch fails exactly when some author's cached entry is a rejection |
| Pipeline.LegacyEmbedAllImages | src/main.ts:232-233 | a successful batch carries, in each embed, its author's cached image |
| Pipeline.LegacyBatchFailsForever | src/main.ts:201-233 | a batch that failed on a profile lookup fails again on retry, whatever any service answers |
| Pipeline.MaxReported | src/commands/feed/feed.ts:117-122 | the running maximum is at least the starting checkpoint |
| Pipeline.MaxReportedIsUpperBound | src/commands/feed/feed.ts:117-122 | every reported sequence number is at most the maximum |
| Pipeline.MaxReportedIsAttained | src/commands/feed/feed.ts:117-122 | the maximum is the starting checkpoint or one of the reported numbers |
| Pipeline.MaxReportedPrefix | src/commands/feed/feed.ts:116-117 | reading more responses never lowers the maximum |
| FeedCommand.Feed.constructor | src/commands/feed/feed.ts:153-156 | settings read and an empty profile cache; not processing; nothing posted |
| FeedCommand.Feed.EmbedBatch | src/commands/feed/feed.ts:100-103 | the embeds and the new cache are `EmbedAll` of the old cache |
| FeedCommand.Feed.SendAll | src/commands/feed/feed.ts:105-109 | every embed is posted in order; the result is true iff every post was delivered, since src/lib/apis/discord.ts:55-65 rethrows every error other than a rate limit |
| FeedCommand.Feed.DoProcess | src/commands/feed/feed.ts:94-113 | a failed fetch changes nothing; otherwise the collated batch is embedded and posted, and `last` becomes `end` iff every post was delivered; the whole effect is `FeedBatch` of the old cache |
| FeedCommand.Feed.CatchUpStep | src/commands/feed/feed.ts:122-130 | nothing happens iff `latest <= last`; a commit advances `last` by at most 5 and not past `latest`; posts are only appended; the new `last`, cache and posts are the `CatchUp` turn of the old state |
| FeedCommand.Feed.ProcessingLoop | src/commands/feed/feed.ts:115-136 | the outcome, `last`, cache and posts are those of `RunLoop` from the old state; `last` only moves forward and never past the largest reported number; on catching up, `last` has reached a reported number |
| FeedCommand.Feed.ProcessingLock | src/commands/feed/feed.ts:138-150 | a trigger while processing changes nothing; otherwise the loop runs, leaving the `RunLoop` state, and the flag is cleared afterwards |
| FeedCommand.Feed.RunFeed | src/commands/feed/feed.ts:152-177 | without a checkpoint it records the latest sequence number (or is rejected) and processes nothing; otherwise it triggers processing once |
| LegacyMain.LegacyFeed.constructor | src/main.ts:169-174 | settings read, empty profile record, not processing, nothing posted |
| LegacyMain.LegacyFeed.EmbedBatch | src/main.ts:232-233 | the embeds and the new record are `LegacyEmbedAll` of the old record |
| LegacyMain.LegacyFeed.SendAll | src/main.ts:235-239 | every embed is posted in order; the result is true iff no post went unanswered, since src/discord.ts:71-84 resolves every error that came with a response |
| LegacyMain.LegacyFeed.DoProcess | src/main.ts:224-243 | a failed fetch changes nothing; a failed embed posts nothing but keeps the cached lookups; otherwise everything is posted and `last` becomes `end` iff every post resolved; the whole effect is `LegacyBatch` of the old record |
| LegacyMain.LegacyFeed.PostBatch | src/main.ts:228-242 | the part of `doProcess` after the fetch, stated against `LegacyEmbedAll` of the old record |
| LegacyMain.LegacyFeed.CatchUpStep | src/main.ts:250-256 | as the feed command's: the step is a no-op iff caught up, a commit advances `last` by at most 5, not past `latest`, and the new state is the `CatchUp` turn with the original feed's batches |
| LegacyMain.LegacyFeed.ProcessingLoop | src/main.ts:245-262 | `last`, the record and the posts are those of `RunLoop` with the original feed's batches, and the result is true iff that run caught up; `last` only moves forward and never past the largest reported number |
| LegacyMain.LegacyFeed.ProcessingLock | src/main.ts:264-276 | a trigger while processing changes nothing; otherwise the loop runs, leaving the `RunLoop` state, and the flag is cleared |
| LegacyMain.LegacyFeed.Start | src/main.ts:278-300 | without a checkpoint it records the latest sequence number, or fails when none is reported; otherwise it triggers processing once |
| Processing.RunLoopAttempts | src/commands/feed/feed.ts:115-136 | the batches of a run follow each other from `last + 1` without gap or overlap, each of at most 5 sequences; each is what `doProcess` does from the cache the previous one left; only the last can have failed, and none did unless the loop rejected |
| Processing.RunLoopCovers | src/commands/feed/feed.ts:115-136 | no sequence is skipped: the committed batches cover exactly the sequences from the first `last + 1` to the final `last` |
| Processing.RunLoopSent | src/commands/feed/feed.ts:94-136 | the webhook received every attempted batch's posts, in order, and the final cache is the one the last batch left |
| Processing.FeedBatchPosts | src/commands/feed/feed.ts:94-113 | a failed fetch changes nothing; otherwise one embed per collated changeset, with its author's cached image, is posted, and the batch commits iff every post was delivered |
| Processing.LegacyBatchPosts | src/main.ts:224-243 | a failed fetch changes nothing; a failed lookup posts nothing; otherwise one embed per collated changeset, with its author's cached image, is posted, and the batch commits iff every post resolved |
| Processing.LegacyBatchCommitsRefused | src/discord.ts:71-84 | the original feed commits a batch even though the webhook refused one of its posts |
| PointInside.CrossingDirection | src/lib/geometry/point_inside.ts:26-34 | upward iff `p0.lat <= lat < p1.lat`, downward iff `p1.lat <= lat < p0.lat`, otherwise not crossing; a horizontal edge never crosses |
| PointInside.GetBounds | src/lib/geometry/point_inside.ts:56-70 | the box contains every point of the loop, and each side passes through a point of the loop |
| PointInside.BoundingBoxIsTightest | src/lib/geometry/point_inside.ts:56-70 | any box containing the loop contains the bounding box |
| PointInside.StoredBox | src/lib/geometry/point_inside.ts:69 | the stored box has exactly the keys `minLat`, `maxLat`, `minLon` and `maxLon` |
| PointInside.StoredBoundsContainNothing | src/lib/geometry/point_inside.ts:72-79 | as written, no point is inside a box built by `getBounds`, not even the loop's own points |
| BoundsHelpers.ExpandAll | src/lib/boundsHelper.ts:31-33 | each `[lat, lon]` pair becomes the point with that latitude and longitude |
| BoundsHelpers.BoundsHelper.constructor | src/lib/boundsHelper.ts:10-15 | the helper holds the countries read from the bounds file |
| BoundsHelpers.BoundsHelper.PointInBounds | src/lib/boundsHelper.ts:35-51 | true iff some loop of some country has the point in its box and accepted by the convex test |
| BoundsHelpers.PointInBoundsAsWrittenRejects | src/lib/boundsHelper.ts:40-47 | with the box test as written, on the box `getBounds` stores, no loop of any country accepts any point |
| MergeLoops.Reverse | src/commands/bounds/merge_loops.ts:21 | element `i` of the result is element `n - 1 - i` of the input |
| MergeLoops.ReverseReverse | src/commands/bounds/merge_loops.ts:21 | reversing twice restores the geometry |
| MergeLoops.FindIndex | src/commands/bounds/merge_loops.ts:27-34 | a found index is in range and is not the current way |
| MergeLoops.FindIndexIsFirst | src/commands/bounds/merge_loops.ts:27-44 | `findIndex` returns the first other way with the wanted endpoint, and none exactly when there is none |
| MergeLoops.SuccessorIsFirstMatch | src/commands/bounds/merge_loops.ts:27-46 | the chain continues with the first other way starting where the current one ends; only when there is none, with the first ending there, reversed; none iff no other way has an endpoint there |
| MergeLoops.SuccessorMeets | src/commands/bounds/merge_loops.ts:19-46 | consecutive ways of a chain meet: the successor, reversed when the chain reverses it, starts where the current way ends |
| MergeLoops.Visit | src/commands/bounds/merge_loops.ts:19-25 | visiting appends the way to `processed` and only extends the point list |
| MergeLoops.NextStep | src/commands/bounds/merge_loops.ts:48-51 | the chain continues only with an existing way and while steps remain |
| MergeLoops.Chain | src/commands/bounds/merge_loops.ts:18-52 | a chain only extends the point list and the visited ways, and keeps every way non-empty |
| MergeLoops.ChainUnfold | src/commands/bounds/merge_loops.ts:18-52 | one turn of the `while (1)`: stop after the visit, or continue from the successor |
| MergeLoops.VisitReverses | src/commands/bounds/merge_loops.ts:19-22 | a visit changes a way only by reversing it |
| MergeLoops.OriginalOrReversedTransitive | src/commands/bounds/merge_loops.ts:21 | applying "as it was or reversed" twice is still "as it was or reversed" |
| MergeLoops.ChainWays | src/commands/bounds/merge_loops.ts:19-22 | a chain leaves every way's geometry as it was or reversed |
| MergeLoops.ChainStartsWithFirstWay | src/commands/bounds/merge_loops.ts:24 | a chain starts with all points of its first way, which it visits first |
| MergeLoops.MergeFromChain | src/commands/bounds/merge_loops.ts:10-61 | an unprocessed way starts a chain whose closed list becomes the next loop |
| MergeLoops.MergeFromShape | src/commands/bounds/merge_loops.ts:10-61 | the `for` loop only appends loops, at most one per remaining way, all non-empty, and only reverses ways |
| MergeLoops.MergeLoopsShape | src/commands/bounds/merge_loops.ts:6-114 | every returned loop is non-empty; there are at most as many loops as ways; each way is left as it was or reversed |
| MergeLoops.RingSuccessors | src/commands/bounds/merge_loops.ts:27-46 | on a ring of three ways, two of them drawn backwards, each successor is found as the source finds it |
| MergeLoops.RingChain | src/commands/bounds/merge_loops.ts:18-52 | the chain from the first way of that ring reverses the other two and returns to the start |
| MergeLoops.MergeFromAllProcessed | src/commands/bounds/merge_loops.ts:15-17 | once every remaining way is processed, the loop adds nothing |
| MergeLoops.SingleChainMerge | src/commands/bounds/merge_loops.ts:10-61 | a first chain that closes and visits every way is the single loop returned |
| MergeLoops.RingOfThreeWays | src/commands/bounds/merge_loops.ts:6-114 | three ways forming a triangle become one loop `[b, c, a]`, with the backward ways reversed in place |
| MergeLoops.TraceChain | src/commands/bounds/merge_loops.ts:18-52 | the `while (1)` loop on the array computes `Chain`: the same in-place reversals, points, visited ways and ending |
| MergeLoops.MergeLoopsInPlace | src/commands/bounds/merge_loops.ts:6-114 | the whole function on the array computes `MergeLoopsSpec`: the same loops and the same in-place reversals |

## Left out

- **Outside services.** HTTP requests, retries (`retry-axios`), gzip, XML parsing and the settings file are outside the model:
  - Their outcomes are the fields of `Pipeline.Network` and the list of `state.txt` responses.
  - Writing the settings file is the assignment to `last`.
- **Discord.**
  - `randomColor` is not part of `Embeds.Embed`, because the colour is random.
  - The webhook sender's rate-limit back-off is not modelled: `Network.post` gives each post's final outcome after its 429 retries. A post that is rate-limited forever never settles, and the model does not represent that.
- `encodeURI` of the author url is left out: the url is the base followed by the user name.
- **Scheduling and concurrency.**
  - The per-minute `scheduleJob` trigger is not modelled; `RunFeed` and `Start` fire the first trigger only.
  - Concurrent `Promise.all` members are taken one after another in list order, and logging is dropped.
  - The posts are sent as the code sends them, one request per embed, all at once; `arrayChunks` is modelled on its own.
- `Pipeline.Network`: a `diff` failure stands for a rejected download. A gzip or XML error in the stream is not modelled. The promise of src/commands/feed/feed.ts:46 has no `reject` and the stream has no `error` handler, so such an error hangs or crashes the process, leaving `isProcessing` set. The model treats every diff fault as a clean batch failure.
- `FeedCommand.Feed.ProcessingLock`: src/commands/feed/feed.ts:143 attaches only `.finally` to `processingLoop()`, so a rejected loop is an unhandled rejection that ends the Node.js process (from version 15 on), along with the profile cache. The model returns normally, clears the flag and keeps the cache.
- `LegacyMain.LegacyFeed.ProcessingLock`: the same unhandled rejection at src/main.ts:269.
- `BoundsHelpers.BoundsHelper.PointInBounds`: uses the corrected box test `PointInsideBounds` on the named fields. As written, the call at src/lib/boundsHelper.ts:43 hands `pointInsideBounds` a box that src/commands/bounds/bounds.ts:71 stores by name, and that test reads properties `0` to `3`, so the call never accepts (`BoundsHelpers.PointInBoundsAsWrittenRejects`; see the `pointInsideBounds` finding).
- `FeedCommand.Feed.ProcessingLoop`: the loop of the source runs until it catches up or throws. The model reads a finite list of `state.txt` responses and also stops when the list is exhausted.
- `LegacyMain.LegacyFeed.ProcessingLoop`: the same bound as the feed command's loop.
- `MergeLoops.MergeLoopsInPlace`: each chain may take at most `fuel` successor steps. The source can loop forever when a chain cycles without returning to its start way; the model then reports `complete == false`.
- `MergeLoops.TraceChain`: the same fuel bound as `MergeLoops.MergeLoopsInPlace`.
- **Floating-point geometry.**
  - `insideConvex` is a parameter of `BoundsHelpers.BoundsHelper.PointInBounds`, and `sideOfLine`/`insideComplex` are not modelled, because they use floating-point products.
  - Coordinates are exact reals, so rounding in `parseFloat` and comparisons is not modelled.
- Reading the bounds file (`BoundsHelper.read`) is not modelled; the constructor takes the countries as read.
- Logging (`log`, `Logger`) has no effect on the model.

## Findings

| source | as written | input that shows it | evidently intended | confidence | as-written member | corrected member |
|---|---|---|---|---|---|---|
| src/main.ts:77-82 | `filterNodesToChangeset` returns a new map as soon as it inserts one changeset, so each `<create>`/`<modify>`/`<delete>` block contributes at most one changeset | one `<create>` block whose nodes are an in-bounds node of changeset 1 and then one of changeset 2 yields only changeset 1 | every changeset with an in-bounds node is reported, as the streaming filter of src/commands/feed/feed.ts does | not executed; follows from the early `return newMap` | LegacyFilter.OneChangesetPerBlock | Filter.FirstSightingsKeys |
| src/main.ts:207-215 | the cache stores the lookup promise itself, so a rejected profile lookup stays cached; every later batch with that author rejects, and `settings.last` never advances past it | an author whose user request fails once (for example a deleted user) | a failed lookup is shown without an image and does not block the batch, as `ProfileCache` of src/commands/feed/profileCache.ts does with `.catch(() => null)` | not executed; follows from caching the unhandled promise | Pipeline.LegacyBatchFailsForever | Pipeline.FailedLookupShownWithoutImage |
| src/discord.ts:71-84 | the `.catch` of the original `sendWebhookMessage` rethrows only errors without a response and resolves every other non-429 error with `undefined`, so `doProcess` of src/main.ts commits `last` past a batch whose posts the webhook refused | a batch whose every post gets an HTTP 400 answer | a refused post fails the batch, so the batch is retried, as the `sendWebhookMessage` of src/lib/apis/discord.ts:55-65 does by rethrowing | not executed; follows from the missing `throw` in the response branch | Processing.LegacyBatchCommitsRefused | Processing.FeedBatchPosts |
| src/lib/geometry/point_inside.ts:72-79 | `pointInsideBounds` reads `bounds[0]`..`bounds[3]`, but `getBounds` (used at src/commands/bounds/bounds.ts:71) builds `{minLat, maxLat, minLon, maxLon}`; a missing property is `undefined` and every comparison with it is false | any loop and any of its own points, such as `loop[0]` | the test compares with `minLat`, `maxLat`, `minLon` and `maxLon` | not executed; follows from the property names | PointInside.StoredBoundsContainNothing | PointInside.GetBounds |
