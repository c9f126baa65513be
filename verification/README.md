# Telegram feed: verified core

This project models the algorithms of the Telegram feed reader that carry its
hardest invariants and proves them in Dafny 4.11. `dafny verify dfyconfig.toml`
checks all of it.

SQL tables are maps and sets of rows, and each committed transaction is one step.
Code that updates rows, buffers, maps or timers in place is a class or a method with
loops, proved against functions on values; the theorems are about those functions and
about every run of them. Times are integers, and whatever Telegram answers is a
parameter.

| file | models |
|---|---|
| `Utf16.dfy`, `Markup.dfy`, `TextHtml.dfy`, `Rendering.dfy` | the entity renderer: offset conversion, escaping, white-listed tags, the sweep with its stack of closing tags, and what a client reads from its output |
| `PostStore.dfy`, `Ingest.dfy`, `Convergence.dfy`, `Captions.dfy`, `Downloads.dfy` | posts and media, the album-aware upsert, the album/solo split, replays by overlapping feeds, the text each post ends with, and which picture is stored for which photo |
| `MergeAlbums.dfy`, `MergedHistory.dfy` | the one-shot merge of posts that belong to one album, and the merge among the feeds |
| `BackfillLock.dfy`, `HistoryBackfill.dfy`, `HistoryFaults.dfy`, `Passes.dfy`, `Eligibility.dfy`, `Turns.dfy` | the TTL lock, the downward history worker, its crashes and the feeds beside it, its ticks as passes under the lock, the query that picks its channels, and the line they stand in |
| `Keyset.dfy`, `AdminListing.dfy`, `Cursors.dfy`, `Feed.dfy`, `FeedCache.dfy`, `FeedRaces.dfy` | keyset paging, cursor strings, the feed, its page cache, and requests and marks under way at one time |
| `RateLimit.dfy` | the sliding-window limiter |
| `Subscriptions.dfy`, `JoinQueue.dfy` | source links and reference counts, the sweep, the join queue with its worker and poller |
| `ReadTracker.dfy` | the client's read tracker |
| `Prelude.dfy`, `Decimal.dfy`, `Sorting.dfy` | shared helpers |

## Where the code and its documentation differ

The model follows the code.

- The renderer promises safe HTML for any entities. Crossing entities leave the earlier
  element unclosed: `Renders` says the markup parses exactly when no two spans cross,
  and two formatted entities that overlap anywhere never do (`OverlapDoesNotParse`).
- `upsert_post` is described as idempotent. It is rolled back when one batch carries a
  file twice: `UpsertFailsOnRepeatedFile` gives the exact condition, and
  `RepeatedPhotoFails` an album that meets it.
- An album's pictures are meant to be downloaded one per message, in the order of its
  media. The loop pairs the media rows with all messages, and a message without a file has
  no row: every photo ends with its own picture if and only if no such message stands
  before a photo (`OwnPicturesIff`); else one shows another photo's picture or none
  (`PictureOf`, `PictureOfAnother`).
- The history worker is meant to reach the start of a channel. A crash loses messages
  exactly when no cursor had been saved and a message of the batch at or above the least
  id now stored was neither committed nor there before: `CompleteAfterCrash`, for every
  crash point; `CrashInFirstPassLosesAMessage` is a failing family. Through any crashes,
  ticks and other feeds, `CompleteThroughFaults` says exactly what is complete when no
  cursor is saved at first; with a saved cursor nothing is lost (`SavedCursorLosesNothing`).
- The album merge is called safe on the boot path. Catch-up runs before it: when it brings
  the next message of an album whose first is an untagged post, the newcomer takes the tag
  and the merge raises (`CatchUpStopsMerge`; `RunFolds` has the exact condition). Its
  result is described as the posts deleted; it is more than that by the groups of which
  one post was found (`ReportedIs`).
- The history lock is meant to belong to one pass. A release does not look at who holds
  it: when a pass outlives its TTL, its late release frees its successor's lock and lets a
  third pass in (`OverdueReleaseLetsThirdIn`). `EndKeepsLock` says exactly which ends
  leave a lock standing; without any assumption on the passes' length two acquisitions
  are separated by an expiry or by an end that unlocks (`AcquisitionsAreSeparated`).
- The query that picks channels is described as round-robin. A pass puts its channel
  behind another exactly when it ends in a release or a completion (`GoesBackIff`), and
  only a pass that raises leaves the rest of its page untaken (`TakenIff`). `LineMoves` is
  the exact account over any ticks; while every pass ends, each eligible channel is served
  in its turn (`ServedInTurn`). One channel whose every pass raises is the only one ever
  tried, whatever the page's size (`OneBadChannelStarvesAll`), and so is one that keeps
  meeting a FloodWait at one channel a tick (`FrontStarves`).
- The feed handler calls the slice below a cursor immutable and so safe to cache. A change
  of the tables keeps the cache in step exactly when on every cached page each post is
  still there and in view, and none that has come into view has a place
  (`ChangeKeepsCurrent`); `HideKeepsCurrent` and `InsertKeepsCurrent` are the two common
  cases. While nothing but requests happens the cache is transparent (`RunTransparent`).
- A cached page is meant never to show a read post. That holds while a request and a mark
  are one step each (`RunClean`). With their commits, scans, deletes, fetches and stores
  interleaved, a page shows a read post exactly when a mark of one was committed since the
  page was fetched, and has either not dropped its user's pages yet or had scanned them
  before the page was stored (`StaleExactly`, `FeedCleanExactly`); until a mark has dropped
  the pages, requests are answered with the post just read (`CommittedNotDropped`).
- The sweep is meant to park channels without subscribers. Its update does not look at
  the count again: `ParkKeepsDormant` gives the exact condition.
- The join worker says the next iteration retries after a FloodWait, and catches the
  errors of a join to go on. A request is left in progress for ever not only on a
  FloodWait or an uncaught error, but also when every answer is good and the chat goes by
  a username that another channel was stored under: the insert breaks the unique index.
  `AbandonsIff` is exact, `NameMovesOn` and `TwoChatsOneName` are failing inputs,
  `AbandonedForEver` says what follows. In the poller the same error ends the loop, so the
  rows after it are not polled (`PollSettles`).
- The limiter's text speaks of entries older than the window's start; the script also
  drops an entry exactly at it, so the window is open on the left.

## Model

| member | source | states |
|---|---|---|
| `Utf16.DecodeEncode` | backend/src/ingester/text_html.py:85-93 | encoding a text as UTF-16 code units and decoding it gives the text back |
| `Utf16.OffsetIsLeastCover` | backend/src/ingester/text_html.py:85-93 | the index for an offset is the least number of characters whose encoding reaches it: inside a surrogate pair it rounds up, negative offsets give 0, offsets past the end the length |
| `Utf16.UnitsCounted` | backend/src/ingester/text_html.py:85-93 | a prefix has one code unit a character and one more for each beyond the basic plane |
| `Utf16.Monotone` | backend/src/ingester/text_html.py:44-48 | larger code-unit offsets never give smaller indices |
| `Utf16.BoundaryRoundTrip` | backend/src/ingester/text_html.py:85-93 | on character boundaries the conversion inverts the prefix length in code units |
| `Markup.EscapeIsEscapeAll` | backend/src/ingester/text_html.py:96-107 | the three chained replaces print what escaping character by character prints, for every text |
| `Markup.EscapeAttrChars` | backend/src/ingester/text_html.py:166-167 | an escaped attribute value holds no quote of either kind and no angle bracket |
| `Markup.UnescapeEscaped` | backend/src/ingester/text_html.py:166-167 | reading the five references back gives every escaped value exactly |
| `Markup.SanitizedScheme` | backend/src/ingester/text_html.py:170-186 | every link kept starts with an allowed scheme in any case, hence with no blocked one; which links are refused; KeptLink says what is kept |
| `Markup.KeptLink` | backend/src/ingester/text_html.py:170-186 | of any text made of white space, a bare part with no white space at its ends, and white space, the link kept is the bare part, with `https://` before it exactly when it carries no allowed scheme; none is kept exactly when the bare part is empty or carries another scheme |
| `Markup.SanitizedOnce` | backend/src/ingester/text_html.py:170-186 | sanitizing a kept link again changes nothing |
| `Markup.ReadBack` | backend/src/ingester/text_html.py:110-163 | the printed attributes parse to exactly the names and the unescaped values they were printed from, and never end the tag early |
| `Markup.TagsAreWhiteListed` | backend/src/ingester/text_html.py:110-163 | whatever entity, text and link come in, the opening tag is the expected element with exactly the expected attributes, the href reading back as the sanitized link, and the closing tag is the element's |
| `Markup.LexPrint` | backend/src/ingester/text_html.py:70-82 | an HTML lexer reads the printed pieces back exactly, so no text passes for a tag |
| `TextHtml.NestedEntitiesGiveLaminarSpans` | backend/src/ingester/text_html.py:44-57 | entities nested or disjoint in code units become spans nested or disjoint in characters |
| `TextHtml.SortIsStable` | backend/src/ingester/text_html.py:62-63 | the sort is a permutation ordered by start, longer first, and keeps the order of spans over the same characters |
| `TextHtml.OpenElementsCover` | backend/src/ingester/text_html.py:70-82 | when a parser reads a character, the elements open are exactly those whose parsed ranges cover it, outer ones first |
| `TextHtml.EmptyIffLaminar` | backend/src/ingester/text_html.py:70-80 | at the end of the sweep the stack is empty exactly when no two spans cross |
| `TextHtml.PlainText` | backend/src/ingester/text_html.py:40-41 | the early return prints what the sweep over no spans must: markup that shows the text and parses to it without elements |
| `TextHtml.Sweep` | backend/src/ingester/text_html.py:65-82 | the output shows exactly the text, and parses, to exactly the text and the spans in sort order, if and only if no two spans cross |
| `TextHtml.CloseTags` | backend/src/ingester/text_html.py:71-73 | closing at a position pops just the tags that end there on top of the stack |
| `TextHtml.OpenTags` | backend/src/ingester/text_html.py:74-78 | opening at a position opens every span that starts there, in sort order |
| `TextHtml.EntitiesToHtml` | backend/src/ingester/text_html.py:30-82 | no text gives no markup; any text with any entities gives markup that shows the text and parses to the converted spans exactly when they do not cross; Rendering says what those spans are |
| `TextHtml.CrossingInput` | backend/src/ingester/text_html.py:30-82 | bold on the first two characters of "abc" and italic on the last two give crossing spans |
| `TextHtml.OverlapDoesNotParse` | backend/src/ingester/text_html.py:70-82 | for any text and any two overlapping entities, bold then italic, the markup shows the text and does not parse |
| `Rendering.PrintedAsMeant` | backend/src/ingester/text_html.py:110-192 | for every kind, a client reads an element and attributes from the tags printed if and only if the entity means them: the style by its kind, a link by its bare text, a mention by the name behind its at signs, one to 64 letters, digits and underscores; and nothing is printed for an entity that means none |
| `Rendering.RangeIff` | backend/src/ingester/text_html.py:44-52 | the characters of a span are exactly those whose first code unit lies in the entity's range |
| `Rendering.ConvertedAsMeant` | backend/src/ingester/text_html.py:44-57 | an entity becomes a span if and only if it covers some characters and means an element over them, and the span is of those characters and is read as that element |
| `Rendering.ConvertedAre` | backend/src/ingester/text_html.py:43-57 | the spans are those of the entities that become one, each once, in their order |
| `Rendering.ClientReads` | backend/src/ingester/text_html.py:30-82 | a client that parses the markup of a text whose spans do not cross gets the text, and exactly one span for each entity that means something: over the characters it covers, as the element and with the attributes it means, the href of a link included |
| `PostStore.Inserted` | backend/src/shared/repositories/posts.py:57-63 | inserting media fails exactly when a file would be on the post twice, and otherwise adds just the given rows |
| `PostStore.InsertedDistinct` | backend/src/shared/repositories/posts.py:51-63 | rows numbered from above the highest position keep files and positions distinct |
| `PostStore.UpsertKeepsIndexes` | backend/src/shared/repositories/posts.py:28-84 | whatever is upserted, a commit keeps every unique index and the foreign key |
| `PostStore.UpsertKeepsPosts` | backend/src/shared/repositories/posts.py:8-84 | an upsert leaves every stored post as it is, so messages once stored stay |
| `PostStore.Tables.InsertMedia` | backend/src/shared/repositories/posts.py:57-63 | the insert loop adds all rows, or none when a unique index would break |
| `PostStore.Tables.UpsertPost` | backend/src/shared/repositories/posts.py:8-84 | solo and album branches, dedupe by file, positions behind the highest, the conflict and the rolled-back case: the whole new state and the id returned, which the next three rows spell out |
| `PostStore.UpsertCreates` | backend/src/shared/repositories/posts.py:66-84 | with no post of its group and none at its message, a commit adds the post given, field by field, under a new id that is returned, with exactly the media rows given at the positions given, and nothing else |
| `PostStore.UpsertAppends` | backend/src/shared/repositories/posts.py:38-64 | with a post of its group, a commit adds to it exactly the rows given whose files it lacks, in their order on the consecutive positions behind its highest, and changes no post |
| `PostStore.UpsertSkips` | backend/src/shared/repositories/posts.py:66-77 | with a post at its message and none of its group nothing changes, and no id is returned |
| `Ingest.AlbumOrderIrrelevant` | backend/src/ingester/normalize.py:108-153 | the order in which an album's messages arrive changes neither the post, nor its caption, nor its media rows |
| `Ingest.AlbumPost` | backend/src/ingester/normalize.py:118-145 | an album's post has the least of its messages' ids, that message's group, and the text of the first message in id order that has one |
| `Ingest.AlbumRowsFor` | backend/src/ingester/normalize.py:147-153 | each message with a file has one media row, its photo's, else its video's, else its document's, at the number of messages before it in id order; there are no other rows |
| `Ingest.MessagePost` | backend/src/ingester/normalize.py:85-105 | a single message's post has its own text, empty or not, and its own file |
| `Ingest.SplitIsSplit` | backend/src/ingester/last_days_backfill.py:52-64 | each message is in exactly one bucket, and each bucket is the input's messages of one group, in order |
| `Ingest.SplitAlbumsSolos` | backend/src/ingester/last_days_backfill.py:52-64 | the loop computes that split |
| `Ingest.IngestMessages` | backend/src/ingester/history_backfill.py:169-216 | a batch runs its albums' upserts, then its solos', each in a transaction; it stops at the first that fails, and then just those before it are kept |
| `Captions.AlbumsFirst` | backend/src/ingester/history_backfill.py:181-216 | a batch's albums are stored before its single messages |
| `Ingest.RunJobsKeepsIndexes` | backend/src/ingester/last_days_backfill.py:132-159 | any list of upserts keeps the tables' indexes |
| `Convergence.UpsertFailsOnRepeatedFile` | backend/src/shared/repositories/posts.py:44-63 | an upsert is rolled back if and only if two of the rows it inserts carry one file; files already on the group's post do not count |
| `Convergence.RepeatedPhotoFails` | backend/src/shared/repositories/posts.py:44-63 | two messages of one album with one photo are rolled back |
| `Convergence.AppendHolds` | backend/src/shared/repositories/posts.py:28-64 | appending to a group's post, however the album was cut, puts each fed file on it once |
| `Convergence.SoloHolds` | backend/src/shared/repositories/posts.py:66-84 | a solo upsert, first or repeated, leaves one post for the message with its file |
| `Convergence.AlbumHolds` | backend/src/shared/repositories/posts.py:28-84 | an album upsert, whole or part, first or repeated, leaves one post for the group with the files fed so far |
| `Convergence.BatchHolds` | backend/src/ingester/history_backfill.py:181-216 | a batch of a history is ingested without error, and the tables then hold what they held and the batch |
| `Convergence.PrefixHolds` | backend/src/ingester/history_backfill.py:181-216 | so are the first k transactions of the batch, for every k: the tables hold what they held and the messages committed |
| `Convergence.ReplayHolds` | backend/src/ingester/live.py:59-103 | any run of batches, album events and live messages, in any order, chunking and repetition, ends with exactly one post per solo and per (channel, group) fed, each fed file on it once, on positions of their own |
| `Convergence.ReplayGoesOn` | backend/src/ingester/live.py:59-103 | so does any run of feeds on tables that hold part of the history |
| `Convergence.ReplaysConverge` | backend/src/shared/repositories/posts.py:28-84 | two such runs that fed the same messages end with the same posts and files |
| `Convergence.OneRowPerFile` | backend/src/shared/repositories/posts.py:33-48 | a post has as many media rows as files |
| `Captions.ReplayTexts` | backend/src/ingester/live.py:59-103 | after any run of feeds each post without a group is a fed message's, text included, and each group's post is that of those of its messages that the first feed to bring any handed over: their least id, their caption |
| `Captions.SoloShowsText` | backend/src/ingester/live.py:59-103 | each ungrouped message fed, in whatever order, chunks and repetition, ends with a post of its own text |
| `Downloads.StorePictures` | backend/src/ingester/live.py:136-162 | the loop over rows and messages stores what AllStored says; PictureOf says what that is |
| `Downloads.PictureOf` | backend/src/ingester/live.py:136-162 | the row of a photo gets the picture of the message whose place among all messages is the row's place among those with a file; when that one has no photo, or its download brings nothing, it keeps what it had |
| `Downloads.OwnPicturesIff` | backend/src/ingester/live.py:136-162 | when the downloads bring data every photo of an album ends with its own picture if and only if no message without a file stands before a photo |
| `Downloads.PictureOfAnother` | backend/src/ingester/live.py:136-162 | behind a message without a file the second of two photos shows the first one's picture, and the first has none |
| `MergeAlbums.MembersAre` | backend/src/ingester/merge_existing_albums.py:101-112 | a group's members are just the target posts Telegram puts in it, each once, lowest message id first |
| `MergeAlbums.MergedGroup` | backend/src/ingester/merge_existing_albums.py:127-174 | a merged group keeps its head alone, tagged, with every file of its members; moved rows lie above the head's positions, each on its own, in the order that MergedOrder gives; other posts are untouched |
| `MergeAlbums.MergedOrder` | backend/src/ingester/merge_existing_albums.py:127-164 | of two moved rows the one stands before the other if and only if its old post's message id is smaller, or the post is one and its media id is smaller; and their positions are the consecutive ones from the head's highest plus one |
| `MergeAlbums.DroppedForSooner` | backend/src/ingester/merge_existing_albums.py:144-157 | a row is dropped only when its file is on the head, or on a moved row that comes sooner in that order |
| `MergeAlbums.NothingCascades` | backend/src/ingester/merge_existing_albums.py:166-168 | deleting the tails removes no media row |
| `MergeAlbums.RunFolds` | backend/src/ingester/merge_existing_albums.py:111-174 | a run goes through if and only if no post already carries the tag of a group to be merged, and then folds every group |
| `MergeAlbums.FilesConserved` | backend/src/ingester/merge_existing_albums.py:141-164 | each head ends with exactly the files of its group's members; a file on two of its rows was on two of the head's own rows before |
| `MergeAlbums.MergeKeepsIndexes` | backend/src/ingester/merge_existing_albums.py:127-174 | merging a group keeps every unique index and the foreign key |
| `MergeAlbums.RunKeepsIndexes` | backend/src/ingester/merge_existing_albums.py:101-176 | so does a run, stopped after any number of groups: later upserts find valid tables |
| `MergeAlbums.RunKeepsOrder` | backend/src/ingester/merge_existing_albums.py:111-174 | after any number of groups of a run each merged album's media stand in that order |
| `MergeAlbums.SecondRunFindsNothing` | backend/src/ingester/merge_existing_albums.py:101-174 | a second run with the same Telegram answers finds no group and changes nothing |
| `MergeAlbums.GroupRows` | backend/src/ingester/merge_existing_albums.py:101-109 | the grouping loop gives the groups in the order they are met, each with its members |
| `MergeAlbums.MoveRows` | backend/src/ingester/merge_existing_albums.py:152-164 | the loop over one tail's media moves or drops each row |
| `MergeAlbums.MoveTails` | backend/src/ingester/merge_existing_albums.py:131-164 | the loops over the tails move or drop all their media, tail by tail in id order |
| `MergeAlbums.MergeMembers` | backend/src/ingester/merge_existing_albums.py:111-174 | one group's transaction: the whole new state, or nothing when the tag is taken; MergedGroup and MergedOrder say what is in it |
| `MergeAlbums.MergeExistingAlbums` | backend/src/ingester/merge_existing_albums.py:101-179 | the groups are merged one after another in the order met; the run stops at a taken tag, and keeps exactly the groups before it; the number returned; RunFolds and RunKeepsOrder say what is in the tables |
| `MergeAlbums.ReportedIs` | backend/src/ingester/merge_existing_albums.py:111-179 | the number returned is the posts deleted, and one more for each group of which one post was found |
| `MergedHistory.MergeHolds` | backend/src/ingester/merge_existing_albums.py:101-176 | merging a history stored as untagged single posts, with true answers, goes through and gives tables that hold exactly its messages: one post a group, each of its files once |
| `MergedHistory.MergedThenFed` | backend/src/ingester/merge_existing_albums.py:101-176 | feeds that go on from there end with the posts and files of any feeds over the same messages |
| `MergedHistory.CatchUpStopsMerge` | backend/src/ingester/main.py:68-84 | catch-up brings the next message of an album whose first is an untagged post; the merge that follows stops |
| `BackfillLock.StateTable.TryAcquireLock` | backend/src/shared/repositories/channel_backfill.py:107-126 | granted exactly on a missing row or a lock that has run out; the row is then locked until now plus the TTL, else nothing changes |
| `BackfillLock.StateTable.ReleaseLock` | backend/src/shared/repositories/channel_backfill.py:129-142 | clears the lock and stores cursor and time on that row alone |
| `BackfillLock.StateTable.MarkFullyBackfilled` | backend/src/shared/repositories/channel_backfill.py:145-153 | closes the channel and clears its lock |
| `BackfillLock.StateTable.DeferAfterFloodWait` | backend/src/shared/repositories/channel_backfill.py:156-166 | pushes the lock out and clears nothing |
| `BackfillLock.GrantedOnceOverdue` | backend/src/shared/repositories/channel_backfill.py:112-126 | while passes keep to their TTL and one is under way, the lock is granted exactly from the moment it outlives its TTL |
| `BackfillLock.RunExclusive` | backend/src/ingester/history_backfill.py:81-95 | in every state of every run of passes no longer than their TTL a channel has at most one pass under way |
| `BackfillLock.AcquisitionsAreSeparated` | backend/src/shared/repositories/channel_backfill.py:107-166 | between two successful acquisitions of a channel's lock either the first one's TTL runs out or an end on that channel unlocks it, however long any pass takes |
| `BackfillLock.EndKeepsLock` | backend/src/shared/repositories/channel_backfill.py:129-166 | an end leaves a lock standing until its time if and only if it is of another channel, a crash, or a deferral that reaches as far |
| `BackfillLock.OverdueReleaseLetsThirdIn` | backend/src/shared/repositories/channel_backfill.py:129-142 | the release of a pass that outlived its TTL frees its successor's lock, and a third pass runs beside it |
| `BackfillLock.PunctualPassesAreSeparated` | backend/src/shared/repositories/channel_backfill.py:107-166 | when passes keep to their TTL the first pass itself has ended before the second acquisition |
| `BackfillLock.DeferralBlocks` | backend/src/shared/repositories/channel_backfill.py:156-166 | after a FloodWait deferral an attempt succeeds only when the wait is over or an end on that channel has unlocked it, however long any pass takes |
| `BackfillLock.PunctualDeferralBlocks` | backend/src/shared/repositories/channel_backfill.py:156-166 | when passes keep to their TTL nothing succeeds until the wait is over |
| `HistoryBackfill.BatchIsSpan` | backend/src/ingester/history_backfill.py:114-120 | a batch is exactly the stretch of history from its oldest message up to the cursor, and leaves that many fewer below |
| `HistoryBackfill.FetchedPass` | backend/src/ingester/history_backfill.py:143-162 | a pass that fetches stores the whole batch and moves the cursor strictly down to its oldest message; an empty batch closes the channel |
| `HistoryBackfill.QuietStep` | backend/src/ingester/history_backfill.py:121-141 | a tick that is not picked, or whose fetch fails, moves neither cursor nor history |
| `HistoryBackfill.OneTick` | backend/src/ingester/history_backfill.py:81-166 | one channel's turn: lock, fetch outcome, ingest and the commit that ends the pass, as one new state; when an upsert fails, the jobs before it are kept and the lock stays; Passes says which acquisition and end it is |
| `HistoryBackfill.RunReached` | backend/src/ingester/history_backfill.py:111-162 | whatever mix of fetches, failures and waits, exactly the history between the cursor and where it started is ingested, albums cut by a batch included |
| `HistoryBackfill.ClosedAfterExactly` | backend/src/ingester/history_backfill.py:143-162 | with N messages below the start and batches of B the channel is closed after exactly ceil(N / B) + 1 failure-free passes, with all N ingested |
| `HistoryFaults.InterruptedHolds` | backend/src/ingester/history_backfill.py:152-162 | a crash after any number of a pass's transactions leaves tables that hold what was fed and no new cursor |
| `HistoryFaults.RestartCursor` | backend/src/shared/repositories/channel_backfill.py:67-70 | without a saved cursor the worker starts again at the least id now stored |
| `HistoryFaults.CompleteIffNoGap` | backend/src/shared/repositories/channel_backfill.py:67-70 | a closed channel holds all of the history below a point if and only if what lay between the worker's first cursor and that point was ingested before |
| `HistoryFaults.CompleteAfterCrash` | backend/src/ingester/history_backfill.py:152-162 | for every crash point and every later run of ticks that closes the channel, all of the history below the dead pass's start is ingested if and only if a cursor had been saved or every message of the batch at or above the least id now stored was committed or there before |
| `HistoryFaults.EitherEndIsSafe` | backend/src/ingester/history_backfill.py:152-162 | a crash before the first or after the last transaction of a batch loses nothing |
| `HistoryFaults.SavedCursorLosesNothing` | backend/src/ingester/history_backfill.py:115-162 | with a saved cursor, any mix of ticks, crashes and feeds of other workers ends, when the channel is closed, with all of the history below the cursor |
| `HistoryFaults.CompleteThroughFaults` | backend/src/shared/repositories/channel_backfill.py:67-70 | without a saved cursor, through any ticks, crashes and other feeds up to the first pass that saves one and after it: a closed channel holds all of the history below a point if and only if what lay from the least id stored when that pass began up to the point was there then or was brought by another feed |
| `HistoryFaults.NeverFetchedAbove` | backend/src/ingester/history_backfill.py:115-119 | a message at or above the cursor is never fetched by any later run |
| `HistoryFaults.CrashInFirstPassLosesAMessage` | backend/src/shared/repositories/channel_backfill.py:67-70 | a crash between the two transactions of a first batch leaves a message that no later run ingests |
| `Passes.TickIsPass` | backend/src/ingester/history_backfill.py:81-162 | a tick that picks the channel is one acquisition of its lock and one end of the pass: a FloodWait defers for as long as it asks, a failed fetch releases at the cursor, a fetch that finds nothing closes the channel, another releases at the last of the batch; only a fetch changes posts; any other tick changes nothing |
| `Passes.CrashIsPass` | backend/src/ingester/history_backfill.py:152-162 | a pass whose worker dies after any number of transactions is an acquisition that ends in a crash |
| `Passes.PassIsVisit` | backend/src/ingester/history_backfill.py:81-166 | such a pass is a visit of the line, so what Turns proves holds of ticks |
| `Passes.PicksAgainIff` | backend/src/ingester/history_backfill.py:121-162 | after a tick that picked it a channel is picked again: after a FloodWait if and only if the wait is over, after a fetch that found nothing never, else at any time |
| `Passes.FloodWaitKeeps` | backend/src/ingester/history_backfill.py:121-131 | a FloodWait moves neither the cursor nor the time the channel was last served, and no other channel's row |
| `Passes.FloodWaitRespected` | backend/src/ingester/history_backfill.py:121-131 | after a FloodWait no tick and no restarted worker of any later run, with any crashes and other feeds in it, picks the channel before the wait is over |
| `Eligibility.JoinAggregates` | backend/src/shared/repositories/channel_backfill.py:59-61 | the fan-out of the joins changes neither the distinct post count nor the maximum read count |
| `Eligibility.MinUnreadIsMinimum` | backend/src/shared/repositories/channel_backfill.py:37-61 | the aggregate is the least number of unread posts over the followers, those who have read nothing included |
| `Eligibility.SelectsNearlyCaughtUp` | backend/src/shared/repositories/channel_backfill.py:63-100 | the channels eligible are exactly the active, unbanned, unfinished, unlocked ones with a post and a follower who has at most the threshold unread |
| `Turns.GoesBackIff` | backend/src/shared/repositories/channel_backfill.py:129-166 | a pass puts its channel behind another one if and only if it ends in a release or a completion; a FloodWait, an upsert that raises and a crash leave it in its place |
| `Turns.EligibleAgainIff` | backend/src/shared/repositories/channel_backfill.py:63-100 | with nothing else changed a channel is eligible again after its pass if and only if its history is not closed and the lock left behind has run out |
| `Turns.TakenIff` | backend/src/ingester/history_backfill.py:80-95 | a channel of the page is taken if and only if no pass before it raised |
| `Turns.LineMoves` | backend/src/shared/repositories/channel_backfill.py:101-102 | over any ticks that pass over an eligible channel: the line before it loses a full page a tick, but for the places whose channel was not served, loses those who left and gains those who entered |
| `Turns.PickedInTime` | backend/src/shared/repositories/channel_backfill.py:101-102 | so a channel that stays eligible is picked as soon as the pages had room for the line before it, the places kept and those who entered |
| `Turns.ServedInTurn` | backend/src/ingester/history_backfill.py:80-95 | while every pass ends in a release or a completion an eligible channel is not only picked but served, within as many ticks as the line before it fills pages |
| `Turns.FrontStarves` | backend/src/ingester/history_backfill.py:80-95 | a channel in front whose passes all raise, or meet a FloodWait at one channel a tick, is picked first for ever, and no channel is ever served |
| `Turns.OneBadChannelStarvesAll` | backend/src/ingester/history_backfill.py:49-63 | for any tables, page and limit, with ticks further apart than the lock lasts, there is such a run of any length |
| `Keyset.SortFilterCommute` | backend/src/shared/repositories/admins.py:180-194 | ordering the rows a condition keeps is keeping them of the ordered table |
| `Keyset.QueryAfter` | backend/src/shared/repositories/admins.py:196-223 | a condition true of just the rows after a given one selects the listing's next rows, in order |
| `Keyset.QueryRestrict` | backend/src/shared/repositories/feed.py:137-171 | a further condition leaves a page as it was if and only if every row of the page meets it |
| `Keyset.QueryInsert` | backend/src/shared/repositories/feed.py:137-171 | a new row leaves a page as it was if and only if the query does not ask for it or the page is full and ends before it |
| `Keyset.QueryIff` | backend/src/shared/repositories/feed.py:137-171 | an ordered list is a query's page if and only if each of its rows is asked for and every other row asked for lies beyond it |
| `Keyset.AheadWalk` | backend/src/shared/repositories/admins.py:225-231 | a client of an endpoint that looks one row ahead has after k pages the first k pages' rows, and is finished exactly when there are no more |
| `Keyset.ToEmptyWalk` | backend/src/api/routers/feed.py:95-99 | a client of an endpoint that always gives a cursor finishes one page after the last row |
| `AdminListing.ClausesMeanAfter` | backend/src/shared/repositories/admins.py:133-220 | for every field, order and nullability the cursor clauses hold of a row, in SQL's three-valued logic, if and only if it comes strictly after the cursor's row |
| `AdminListing.ListOrderTotal` | backend/src/shared/repositories/admins.py:175-185 | banned first unless sorting by it, the column with nulls last, id descending is a total order of the table's rows |
| `AdminListing.CursorRoundTrip` | backend/src/shared/repositories/admins.py:87-130 | decoding an encoded cursor gives the same flag, value, id, field and order, for every field |
| `AdminListing.CursorBoundToSort` | backend/src/shared/repositories/admins.py:196-199 | a cursor is refused exactly by requests for another field or order |
| `AdminListing.FoundFrom` | backend/src/shared/repositories/admins.py:196-231 | the page after a row's cursor is the next rows of the listing |
| `AdminListing.WalkShowsAll` | backend/src/shared/repositories/admins.py:149-233 | following the cursors never fails, has after k pages just the first k pages of matching rows in order, and stops exactly after the last |
| `AdminListing.ShownIsListing` | backend/src/shared/repositories/admins.py:175-194 | the rows walked are the matching ones, each once, in the order asked for |
| `AdminListing.ShownInOrder` | backend/src/shared/repositories/admins.py:165-194 | of two rows shown the first comes before the second by the rows' own fields, sort field by sort field: banned first, the field's value in the order asked for, those without one last, then the greater id |
| `AdminListing.PrecedesIs` | backend/src/shared/repositories/admins.py:165-185 | that is the order of the query, for every field and direction |
| `Cursors.UnpaddedRoundTrip` | backend/src/api/pagination.py:16-24 | base64 with its padding stripped and worked out again from the length decodes to the same bytes |
| `Prelude.BreakFirst` | backend/src/api/pagination.py:25 | splitting at the first bar gives both parts back |
| `Cursors.KeyCursorRoundTrip` | backend/src/api/pagination.py:16-26 | a feed or post-list cursor survives its string, which is never empty and needs no escaping in a URL |
| `Cursors.DecodedIff` | backend/src/api/pagination.py:20-28 | a string is read as a cursor if and only if it encodes a text of a time, a bar and an id, split at the first bar; every other string is the bad-cursor error |
| `Cursors.CatalogRoundTrip` | backend/src/api/pagination.py:113-135 | a catalog cursor survives its string, view included |
| `Feed.InitialCoversAll` | backend/src/api/pagination.py:30-34 | the initial cursor is above a post with a positive id exactly when the post is dated before the sentinel |
| `Feed.FetchedFrom` | backend/src/shared/repositories/feed.py:153-172 | the page below a post's cursor is the timeline's next posts |
| `Feed.WalkShowsTimeline` | backend/src/api/routers/feed.py:95-99 | on unchanging tables following the cursor strings shows every post of the timeline once, in order, and ends at the first empty page |
| `Feed.TimelineIsVisible` | backend/src/shared/repositories/feed.py:137-171 | the timeline is exactly the posts dated before the sentinel, of channels the user follows and has not hidden and no one has banned, but for those hidden or, unless asked for, read; the newest first, and of one time the greater id |
| `FeedCache.PatternOwner` | backend/src/api/routers/feed.py:106-111 | a user's invalidation pattern matches that user's keys and no other's |
| `FeedCache.KeyDeterminesRequest` | backend/src/api/routers/feed.py:43-45 | one key stands for one request, whatever text a client sends as a cursor |
| `FeedCache.Endpoint.GetFeed` | backend/src/api/routers/feed.py:28-103 | the answer and the cache after a request: bad cursor, hit, miss, and the views that are never cached; AnsweredFrom says which is which |
| `FeedCache.AnsweredFrom` | backend/src/api/routers/feed.py:37-103 | whatever the cache holds, a request without a cursor, with the read posts, or with an unreadable cursor gets the tables' answer and leaves the cache alone; any other gets its key's page, or else the tables', and that page is then its key's |
| `FeedCache.RefreshIsFresh` | backend/src/api/routers/feed.py:38-45 | after every run, whatever changed in it, opening the feed shows the first posts of the timeline of the tables as they are at that moment, and caches nothing |
| `FeedCache.RefreshShowsNew` | backend/src/api/routers/feed.py:38-39 | so a post newer than all that comes in is what the next refresh shows first |
| `FeedCache.Endpoint.BulkMarkRead` | backend/src/shared/repositories/user_read_posts.py:9-28 | adds the pairs and returns exactly the growth of the read set; an unknown post changes nothing |
| `FeedCache.Endpoint.MarkRead` | backend/src/api/routers/feed.py:114-124 | marks, drops just that user's pages, and returns the growth of the read set |
| `FeedCache.AnswersUnread` | backend/src/api/routers/feed.py:46-49 | no default-path answer, cached or fresh, shows a post its user has read |
| `FeedCache.RunClean` | backend/src/api/routers/feed.py:43-48 | in every reachable state, whatever else changes the tables, no cached page holds a post its user has read |
| `FeedCache.CacheTransparent` | backend/src/api/routers/feed.py:39-49 | answering from a current cache is answering without it |
| `FeedCache.RunTransparent` | backend/src/api/routers/feed.py:28-124 | while only requests happen every cached page is the page the tables give now |
| `FeedCache.HiddenPostStillCached` | backend/src/api/routers/feed.py:39-42 | hiding a post drops it from the tables' page and leaves it on every cached page that shows it |
| `FeedCache.ChangeKeepsCurrent` | backend/src/api/routers/feed.py:39-49 | any change of the tables (a channel followed, left or banned, a post hidden, shown, read, added or deleted) keeps the cache in step if and only if on every cached page each post is still there and in view, and none that has come into view has a place |
| `FeedCache.HideKeepsCurrent` | backend/src/api/routers/feed.py:39-49 | hiding a post keeps the cache in step if and only if no cached page of that user shows it |
| `FeedCache.InsertKeepsCurrent` | backend/src/api/routers/feed.py:39-49 | inserting a post keeps the cache in step if and only if it has no place on any cached page |
| `FeedCache.LateStoreClean` | backend/src/api/routers/feed.py:101-102 | storing a page fetched earlier keeps the agreement if and only if none of its posts is read at that moment |
| `FeedCache.MarkBetweenFetchAndStore` | backend/src/api/routers/feed.py:101-124 | a mark between a request's fetch and its store leaves a read post in the cache |
| `FeedRaces.ReadsGrow` | backend/src/api/routers/feed.py:114-124 | over any run a pair is read exactly when it was at the start or a mark of it was committed since |
| `FeedRaces.StoreCleanIffUnmarked` | backend/src/api/routers/feed.py:46-102 | with fetches and stores of any requests interleaved with the steps of marks and other changes, a store keeps the agreement if and only if no mark by that user of a post on its page was committed since its fetch |
| `FeedRaces.SurvivorWasLate` | backend/src/api/routers/feed.py:106-111 | a page that outlives a mark of its user was stored after that mark's scan |
| `FeedRaces.StaleExactly` | backend/src/api/routers/feed.py:46-124 | in every run a cached page shows a read post if and only if a mark of one was committed since its fetch and has either not dropped its user's pages or had scanned them before the store |
| `FeedRaces.CleanExactly` | backend/src/api/routers/feed.py:46-124 | in every reachable state the cache is free of read posts if and only if no entry has been overtaken in that way |
| `FeedRaces.FeedCleanExactly` | backend/src/api/routers/feed.py:46-124 | the same of the feed's own query, cursors and keys |
| `FeedRaces.CommittedNotDropped` | backend/src/api/routers/feed.py:121-123 | between a mark's commit and its delete a request is answered from the cache with the post just read |
| `RateLimit.SortedSet.CheckAndRegister` | backend/src/api/rate_limit.py:27-43 | prune, count, reject or add and expire: the decision and the whole new key |
| `RateLimit.KeptHolds` | backend/src/api/rate_limit.py:35-42 | neither pruning nor the key's expiry forgets a request that the window still counts |
| `RateLimit.AcceptsByHistory` | backend/src/api/rate_limit.py:27-43 | with a clock that does not run back, a request is accepted if and only if fewer than the limit of the accepted ones lie in the window that ends with it |
| `RateLimit.WindowBound` | backend/src/api/rate_limit.py:70-82 | over any run no interval as long as the window, wherever it starts, sees more than the limit accepted |
| `Subscriptions.SourceTables.IncrementRefCount` | backend/src/shared/repositories/channels.py:54-71 | adds one to the row, or makes it with a count of one, and returns it |
| `Subscriptions.SourceTables.DecrementRefCount` | backend/src/shared/repositories/channels.py:74-96 | takes one off, not below zero; a missing row stays missing |
| `Subscriptions.SourceTables.AddUserSource` | backend/src/shared/repositories/user_sources.py:30-58 | link, count only when the link is new, both hides dropped, and the answer |
| `Subscriptions.SourceTables.RemoveUserSource` | backend/src/shared/repositories/user_sources.py:61-78 | unlink, count only when there was a link, hide dropped, and the answer |
| `Subscriptions.SourceTables.SweepOnce` | backend/src/ingester/refcount_sweep.py:34-61 | parks exactly the active channels with a count of zero and drops just their entries from the live map |
| `Subscriptions.ClampIdle` | backend/src/shared/repositories/channels.py:93-96 | taking a follower away always takes one off the count: the clamp never takes effect |
| `Subscriptions.RemoveUndoesAdd` | backend/src/shared/repositories/user_sources.py:30-78 | removing a link just added gives back every link and every count, and touches no other pair's hides |
| `Subscriptions.StepLinks` | backend/src/shared/repositories/user_sources.py:30-78 | a user is linked by a join, and directly to a channel that is active or waits for its backfill; a link goes only when its user takes it away |
| `Subscriptions.StepStatus` | backend/src/shared/repositories/channels.py:54-71 | a channel's first link makes its row, waiting for its backfill; the backfill makes it active, a sweep that finds no link parks it, and nothing else moves it |
| `Subscriptions.HiddenUntil` | backend/src/shared/repositories/user_sources.py:41-75 | over any run a hidden channel stays hidden if and only if its user neither takes it up nor away in it, and in the catalog if and only if it is not taken up |
| `Subscriptions.RunConserves` | backend/src/shared/repositories/user_sources.py:30-78 | in every reachable state, however sweeps interleave, a channel's count is the number of its links |
| `Subscriptions.SweepParksUnfollowed` | backend/src/ingester/refcount_sweep.py:39-55 | an uninterrupted sweep parks exactly the active channels nobody follows, so no active one without a follower is left |
| `Subscriptions.RunKeepsDormant` | backend/src/api/routers/sources.py:82-93 | with uninterrupted sweeps a dormant channel has no follower in any reachable state, but for channels between join and backfill |
| `Subscriptions.ParkKeepsDormant` | backend/src/ingester/refcount_sweep.py:48-55 | an update that comes later than its select keeps that rule if and only if the count is zero then, or the channel is being joined again |
| `Subscriptions.SubscribeDuringSweep` | backend/src/ingester/refcount_sweep.py:39-55 | a user who subscribes between select and update follows a dormant channel |
| `JoinQueue.OldestIsLeast` | backend/src/shared/repositories/join_queue.py:16-24 | the row claimed is the (created_at, id)-least pending one; none is claimed only when none is pending |
| `JoinQueue.Queue.EnqueuePublicJoin` | backend/src/api/routers/sources.py:98-122 | answers with the user's request in flight, made only if there is none |
| `JoinQueue.Queue.AddPrivateSource` | backend/src/api/routers/sources.py:125-140 | every invite gets a new pending row |
| `JoinQueue.Queue.PopPending` | backend/src/shared/repositories/join_queue.py:9-29 | claims the oldest pending row and changes no other |
| `JoinQueue.Queue.UpsertChannel` | backend/src/shared/repositories/channels.py:8-44 | a chat has one channel: the existing row unchanged, or a new one; the insert raises exactly when another channel carries the username |
| `JoinQueue.Queue.FinishJoin` | backend/src/ingester/join_worker.py:128-157 | channel, invite hash, link and done row in one transaction, rolled back when the channel's insert raises |
| `JoinQueue.Queue.Settle` | backend/src/shared/repositories/join_queue.py:60-107 | what each outcome writes, error code and reason included, and whether it raised |
| `JoinQueue.Queue.HandleOnePending` | backend/src/ingester/join_worker.py:309-433 | one claim and what Telegram's answers make of it, branch by branch, the join that raises included |
| `JoinQueue.WorkerAnswers` | backend/src/ingester/join_worker.py:160-433 | with a pending row the worker marks the oldest one in progress and then does with it what the next two rows say; without one nothing changes |
| `JoinQueue.PublicAnswer` | backend/src/ingester/join_worker.py:309-433 | for each answer about a username: its error code, the join, or nothing |
| `JoinQueue.PrivateAnswer` | backend/src/ingester/join_worker.py:160-306 | for each answer about an invite: its error code, the wait for an approval, the join, or nothing |
| `JoinQueue.Queue.ApprovalPollOnce` | backend/src/ingester/approval_poller.py:62-135 | the rows awaiting approval are settled one by one by their age or Telegram's answer; a join that raises ends the loop |
| `JoinQueue.PollSettles` | backend/src/ingester/approval_poller.py:74-135 | a poll settles exactly the rows before the first one whose join raises, each as its own answer says, and changes no other |
| `JoinQueue.PollOneMeans` | backend/src/ingester/approval_poller.py:74-135 | a row as old as the timeout fails by age whatever Telegram answers; a younger one fails with invite_invalid or invite_expired, ends done and linked to its chat's channel when the user is a member, or stays as it is |
| `JoinQueue.PollAnswers` | backend/src/ingester/approval_poller.py:74-135 | over a whole poll so does each row settled, by its own age and answer |
| `JoinQueue.RunSound` | backend/src/shared/repositories/join_queue.py:9-107 | in every reachable state each row was claimed at most once, held rows are as their holder left them, done rows have a channel, and a user has at most one request in flight for a username |
| `JoinQueue.StepAdvances` | backend/src/ingester/join_worker.py:309-433 | a step leaves a row alone or moves it to a later stage, so done and failed are for ever |
| `JoinQueue.RunAdvances` | backend/src/ingester/approval_poller.py:74-132 | so does every run |
| `JoinQueue.DoneLinksRequester` | backend/src/ingester/join_worker.py:128-157 | the step that makes a row done links its requester to the row's channel, which is a chat's and carries the invite it was joined by |
| `JoinQueue.StepConserves` | backend/src/ingester/join_worker.py:153-155 | joins keep the reference counts right |
| `JoinQueue.AbandonsIff` | backend/src/ingester/join_worker.py:158-433 | a claimed request is left in progress exactly on a FloodWait while its name is resolved or joined, on an error that nothing catches (for an invite a FloodWait of its check or an unforeseen error of its import), or when the chat joined has no row and another channel carries its username |
| `JoinQueue.AbandonedForEver` | backend/src/ingester/join_worker.py:390-408 | such a row never changes again, and every later request of its user for that username is answered with it |
| `JoinQueue.RunKeepsNames` | backend/src/shared/repositories/channels.py:18-36 | a username stays with the channel first stored under it, over every run |
| `JoinQueue.RunNameTakenIff` | backend/src/ingester/join_worker.py:136-146 | in every reachable state an insert breaks the index on usernames if and only if the chat has no row and its name, in some spelling of upper and lower case, is another channel's |
| `JoinQueue.FoundInAnyCase` | backend/src/api/routers/sources.py:74-78 | a channel stored by a join is found under its name however a user types it |
| `JoinQueue.NameMovesOn` | backend/src/ingester/join_worker.py:128-157 | once a channel's username has gone to another chat, a request that reaches that chat with good answers is left in progress, links nobody and answers all later requests |
| `JoinQueue.TwoChatsOneName` | backend/src/ingester/join_worker.py:309-433 | a run from an empty queue in which that happens |
| `JoinQueue.BlindInsert` | backend/src/api/routers/sources.py:103-116 | an insert whose check ran earlier keeps one request in flight if and only if there is none at that moment |
| `ReadTracker.PostRead.Flush` | frontend/tma/src/features/feed/usePostRead.ts:29-45 | closes the window and moves all that is pending into one batch |
| `ReadTracker.PostRead.ScheduleFlush` | frontend/tma/src/features/feed/usePostRead.ts:47-50 | opens a window unless one is open |
| `ReadTracker.PostRead.HandleEntries` | frontend/tma/src/features/feed/usePostRead.ts:52-79 | starts and clears dwell timers, entry by entry |
| `ReadTracker.PostRead.DwellElapsed` | frontend/tma/src/features/feed/usePostRead.ts:62-67 | a post that dwelled becomes pending unless it was sent |
| `ReadTracker.PostRead.SetElement` | frontend/tma/src/features/feed/usePostRead.ts:84-101 | detaches the old card with its timer, and attaches the new one |
| `ReadTracker.PostRead.MarkRead` | frontend/tma/src/features/feed/usePostRead.ts:107-114 | a tapped post is sent at once, unless it was sent |
| `ReadTracker.PostRead.Unmount` | frontend/tma/src/features/feed/usePostRead.ts:122-127 | sends what is pending and leaves no timer |
| `ReadTracker.RunTidy` | frontend/tma/src/features/feed/usePostRead.ts:29-114 | over any events no id is sent twice, nothing pending was sent, what was sent is what is marked sent, and whatever is pending has a window open |
| `ReadTracker.FiredIsPending` | frontend/tma/src/features/feed/usePostRead.ts:62-67 | a dwell timer that fires makes its post pending with a window open, unless it was sent |
| `ReadTracker.DwelledIsReported` | frontend/tma/src/features/feed/usePostRead.ts:29-127 | a post whose dwell timer fires is in a batch by the first debounce timer, tap of an unsent post or cleanup after it |
| `ReadTracker.WindowSends` | frontend/tma/src/features/feed/usePostRead.ts:47-50 | whatever is pending has a window open, and whatever happens until then the timer of that window, two seconds after it opened, has it sent |
| `ReadTracker.ObservedSets` | frontend/tma/src/features/feed/usePostRead.ts:52-79 | after a report of the observer a card whose last entry is in view is on a timer, pending or sent, and one whose last entry is out of view is on no timer |
| `ReadTracker.StayedIsRead` | frontend/tma/src/features/feed/usePostRead.ts:52-101 | a card that comes into view and stays there is on a timer from then or from before: when it fires a dwell time later, the post is sent or pending with a window open |
| `ReadTracker.AttachKeepsInverse` | frontend/tma/src/features/feed/usePostRead.ts:84-101 | the element maps stay inverse if and only if the element is not another post's at that moment |
| `ReadTracker.RunHonest` | frontend/tma/src/features/feed/usePostRead.ts:52-101 | a running timer is never older than its card or than the card's stay in the viewport |
| `ReadTracker.ReportedWasRead` | frontend/tma/src/features/feed/usePostRead.ts:52-114 | every post in every batch was tapped, or its card stayed in the viewport without a break for the dwell time |

## Left out

- Telegram, MinIO, Redis and Postgres transport, the bytes of photos and the text of storage keys, sessions and proxies: foreign calls; Telegram's answers are parameters.
- JWT, initData, TOTP and password checks, FastAPI wiring, schemas, logging, configuration, React components: outside the algorithms.
- Date formatting, JSON and base64 of the admin cursor, and the database's collation are parameters: encodings that read back what they wrote, and a strict total order.
- Lone surrogates in texts: the code raises on them before it converts an offset.
- `str.lower` outside ASCII is a parameter applied character by character.
- Sizes, durations, types of media, and dates, views and markup of stored posts: copied, never decided on where posts are stored.
- Saved, hidden and read post pages and the catalog's pages: the same keyset shape as the feed; of them only the cursors are modelled.
- The 404, 403 and "not available" replies of the source handlers, and the choice between username and invite when a dormant channel is queued: single branches.
- Liveness of the queue and completeness of the live map: the code provides neither.
- A live map entry made by a join, and the avatar stored with it: written once, never decided on.
- MergeExistingAlbums: the targets are one list in any order, which the source makes channel by channel, and a batch of ids that fails to load appears as posts Telegram has no answer for.
- MergeHolds: takes all posts for targets, as when every channel is active; the source skips the others.
- IngestMessages: the number of new posts that one copy returns is not modelled, as it also counts albums seen before.
- StorePictures: a storage key stands for the photo it was made from, and whether a download brings data is a parameter; single messages, whose row and photo are one message's, are not in it.
- OneTick: the lock is won and the pass ended at one clock reading; BackfillLock and Turns have passes that take time. One channel at a time, with its cursor read when its turn comes, where the source reads it with the page; whether it is picked is a parameter, and Turns says when it is. Two workers at once on one channel with a cursor read before a lock is won are not modelled.
- LineMoves: asks for one worker on one clock; other workers' passes would appear as channels that enter and leave.
- SelectsNearlyCaughtUp: the order, the limit and whose turn it is are in Turns, the cursor returned with each channel in HistoryFaults.RestartCursor.
- SavedCursorLosesNothing: asks, as ReplayHolds does, that the feeds beside the worker belong to one history.
- HandleOnePending: the backfill and activation that follow a join are separate transactions; activation is a step of Subscriptions.
- ApprovalPollOnce: the backfill that follows an approval is not part of it.
- CursorRoundTrip: JSON and base64 are a parameter that reads back what it wrote; the mapping of the fields to the payload is modelled.
- HideKeepsCurrent: asks for unique post ids, as the primary key gives; so do InsertKeepsCurrent and ChangeKeepsCurrent.
- StaleExactly: a scan is one step, and the other changes in its runs leave the table of read posts alone; only deleting a post takes its read marks back.
- ChangeKeepsCurrent: a post is its id, date and channel; edits of its text or media are not changes here, though a cached page keeps the old ones.
- AbandonsIff: usernames are ASCII, as the worker notes; titles and lengths of columns are not modelled.
- ReplayHolds: asks that an id names one message and that no two messages of an album carry the same file; UpsertFailsOnRepeatedFile says what happens otherwise.
- RunExclusive: asks for passes no longer than their TTL, on one shared clock; AcquisitionsAreSeparated, EndKeepsLock and OverdueReleaseLetsThirdIn say what holds otherwise.
- KeyCursorRoundTrip: reading accepts less than Python does: no characters outside the alphabet, no text outside ASCII, no white space or underscores in numbers.
- AcceptsByHistory: the key's expiry runs on the same clock as the requests.
- WindowBound: members of the sorted set are distinct, as the random part of each makes them.
- RunSound: one join worker and one poller, as the ingester runs them, and enqueues one at a time; BlindInsert says what happens otherwise.
- RunHonest: time does not run backwards and no two cards share an element; AttachKeepsInverse says what happens otherwise.
