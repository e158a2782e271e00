# Verified model of the Argos OSINT core

This project models the parts of the Argos OSINT repository whose correctness rests on several
functions together, and proves what they keep. Check it with
`dafny verify dfyconfig.toml` (Dafny 4.11). Each module stands for one component:

| module | component |
|---|---|
| `Discovery`, `Coverage` | phases 1 and 2 of an Atlas collection cycle as crash and resume state machines, with the loops of `run_atlas_inner` as methods proved to be runs of those machines |
| `Dedup` | judging, keeping and replacing headlines, and the per-country totals |
| `Bands` | band sizes, temperatures and scoring |
| `HostFeed` | the start and stop protocol of the host telemetry feed |
| `LiveTransport` | the browser's socket, retry and watchdog |
| `Scrub`, `Prompt`, `Packet`, `References`, `Validate` | the neighborhood brief: removing record ids, what the model is shown, cutting the packet to size, numbering references, checking a model's answer |
| `Tokenizing`, `Normalized`, `Names`, `Matcher` | the actor matcher: words, the normalized form with its way back, comparison keys, whole-name search |
| `Inventory` | the inventory worker with its late publisher index |
| `Classifier`, `ActorIndex`, `Insights`, `Repair` | classification receipts and batches, the phase-6 index, claim settlement, repair paging |
| `Sorting`, `Wrappers` | the stable library sort that several of them call; optional values |

## Assumptions of the model

- A store transaction is one atomic step. A crash may fall between any two steps.
- Digests and printed keys are abstract functions; where it matters they are assumed injective.
- Lower-casing maps letters to letters and is idempotent. Letters, white space and the lower
  case of a character are parameters of `Names`, with the facts used listed in
  `Names.Unicode`; U+02BC counts as a letter there, as it does in Unicode.
- The multi-pattern search of the matcher is taken as "all places of all patterns".
- Floating point is replaced by exact arithmetic: rounding half up for band sizes, `real` for
  temperatures and confidences.
- Network replies, quota answers, pauses, model answers, actor bindings, publisher lookups and
  text tests are inputs: a run is any sequence of events, an oracle is a function parameter.

## What turned out false of the code

Each of these is stated with its exact condition, and with an input or run that shows it.

- **A remembered fault can be forgotten.** `run_atlas_inner` clears `acquisition_retry` on every
  resume in phases 1 and 2 and goes on from the saved cursor. A failed page or job is asked for
  again by some continuation if and only if the saved cursor has not passed it, or is in phase 3
  or later and the saved `acquisition_retry` has not (`Discovery.AskedAgainExactlyWhen`,
  `Coverage.AskedAgainExactlyWhen`). `FaultForgotten` in both modules is a run that loses one,
  `LateParkKeepsFault` one that does not, and `Coverage.CycleEndsWithoutIt` a cycle that ends
  with the job undone.
- **A feed can lose its subscribers** when a read fails, and also when the release store that
  clears `running` becomes visible only after the second receiver count
  (`HostFeed.NoneLostExactlyWhen`). The next subscriber restarts it.
- **A watchdog can outlive its socket** in `live-transport.ts`: `onopen` publishes before it
  creates the interval, and a listener may drop the last subscription in between
  (`LiveTransport.KeptExactlyWhen`, `LiveTransport.WatchdogLeftBehind`).
- **A recorded contradiction can be evicted** by restoring another
  (`Validate.TwoContradictionsStayExactlyWhen`).
- **A comparison key need not be a fixed point** of `normalize_alias`, and the key recorded in a
  mention need not be the matched one (`Names.KeyIsFixedExactlyWhen`, `Matcher.MentionHasKey`).
- **Deduplicating claims can change a fingerprint**, and leave two claims with one, when an
  unattributed assertion is given the article of the qualified claim it replaces
  (`Insights.KeepsFingerprintsExactlyWhen`, `Insights.DistinctExactlyWhen`,
  `Insights.DedupeCollides`). Claims that all name an article are safe.
- **Record ids reach the prompt**, though the comment at
  `crates/argos-osint-core/src/brain_neighborhood_brief.rs:1263-1266` says that the model must
  never see one. Receipts, statuses and subtypes are sent as they are, and a related record's
  receipt is its own id; and a payload text is shortened after it was scrubbed, which can cut a
  known id out of a longer token (`Prompt.PromptExactlyWhen`, `Prompt.ReceiptLeaks`,
  `Prompt.CutLeaks`).
- **An entity can be shown as an edge.** The same comment says that an id maps to the record it
  names, but an edge takes over the ids of its members (`Prompt.OwnReferenceExactlyWhen`,
  `Prompt.MemberIsShownAsEdge`).
- **Replacing can make an id** when a replacement text is part of one
  (`Scrub.TextsAreCleanExactlyWhen` for ids of one token, `Scrub.ScrubTextClean` and
  `Scrub.SplitIdLeaks` for others).
- **`scrub_value` taken alone passes an id** that is a bare text under a key that should hold a
  list of ids (`Scrub.ScrubbedExactlyWhen`, `Scrub.BareIdLeaks`). Its one caller gives it typed
  payloads, whose id lists always are lists, and those come out free of ids
  (`Prompt.PayloadIsFree`).
- **A batch that lists an article twice can never be classified completely**, since the receipt
  is compared with the batch by length (`Classifier.SucceedsExactlyWhen`). The cycle makes its
  batches of stored articles with distinct ids
  (`crates/argos-osint-core/src/atlas.rs:2690-2713`), so such a batch does not arise there.

## Model

| member | source | states |
|---|---|---|
| `Discovery.CountsAreReceipted` | crates/argos-osint-core/src/atlas.rs:2256-2416 | over every interleaving of pages, faults, quota stops, pauses, crashes and resumes, the saved `counts` are the hits of the receipted pages of both providers, each page once |
| `Discovery.PageCounts` | crates/argos-osint-core/src/atlas.rs:2339-2400 | in any run, a page with headlines stores a receipt of the first of them, up to 50 for its provider: its hits, the running total, the stop (no further page, 50 reached, or fifth page) and the token (`newsdata` only); the saved counts grow by exactly those hits |
| `Discovery.NextPlaceIsSaved` | crates/argos-osint-core/src/atlas.rs:2402-2416 | after the receipt the place of the next page is saved with the statistics, unless the page ends the provider |
| `Discovery.ReceiptIsReused` | crates/argos-osint-core/src/atlas.rs:2286-2300 | a page with a receipt is not read again: paging goes on with its total and its token |
| `Discovery.PausesSave` | crates/argos-osint-core/src/atlas.rs:3061-3077 | a pause saves place and statistics, before a page or at the phase; a crash loses what is in memory |
| `Discovery.ProviderEnds` | crates/argos-osint-core/src/atlas.rs:2260-2300 | when a provider ends (fault, no quota, full, out of pages, or a receipt that stops it) the second follows, at its saved place or its first page, then phase 2; a real fault is counted and the first one remembered |
| `Discovery.ResumeForgets` | crates/argos-osint-core/src/atlas.rs:2203-2210 | a resume in phase 1 or 2 starts at the saved cursor with no fault counted or remembered; after that it forgets nothing |
| `Discovery.FreshIs` | crates/argos-osint-core/src/atlas.rs:882-894 | a new cycle is at its first page with nothing counted, failed or received |
| `Discovery.PhasesFollow` | crates/argos-osint-core/src/atlas.rs:2641-2888 | phases 2, 3, 4 and 6 follow each other, each saved with the statistics as it begins |
| `Discovery.LaterFaultCounts` | crates/argos-osint-core/src/atlas.rs:2608-2624 | a fault of phase 2 is counted, and remembered if it is the first |
| `Discovery.FinishGoesBack` | crates/argos-osint-core/src/atlas.rs:2961-2975 | an unfinished cycle is saved at its first remembered fault, else at phase 6 when only the index is missing, else at phase 3 |
| `Discovery.ReceiptsFormPrefix` | crates/argos-osint-core/src/atlas.rs:2264-2300 | receipted pages of a provider form a prefix of its pages, below the page limit, and each receipt carries the running total of hits, at most 50 |
| `Discovery.AtMostHundred` | crates/argos-osint-core/src/atlas.rs:2274-2290 | a cycle never counts more than 100 headlines in phase 1 |
| `Discovery.ReceiptIsFinal` | crates/argos-osint-core/src/atlas.rs:2286-2298 | a receipted page keeps its receipt for ever and is never again about to be applied |
| `Discovery.TokenChains` | crates/argos-osint-core/src/atlas.rs:2264-2300 | the token sent for page `n > 0`, on a first pass or after any resume, is the one that the receipt of page `n - 1` recorded |
| `Discovery.AskedAgainExactlyWhen` | crates/argos-osint-core/src/atlas.rs:2203-2416 | wherever a cycle is down after any run, some continuation asks for a page without receipt if and only if the saved cursor has not passed it (phase 1, and not on `newsdata` for a `gnews` page), or is in phase 3 or later with a saved `acquisition_retry` that has not |
| `Discovery.FaultIsRetriedExactlyWhen` | crates/argos-osint-core/src/atlas.rs:2359-2381 | a page that failed, after any pauses, crashes, parks and resumes whatever, is asked for again by some continuation if and only if that holds of what the store then has |
| `Discovery.FirstFaultIsRetried` | crates/argos-osint-core/src/atlas.rs:2961-2974 | in an invocation that is not interrupted, the cursor at the end of the cycle is exactly the place of the first real fault |
| `Discovery.FaultForgotten` | crates/argos-osint-core/src/atlas.rs:2203-2208 | a concrete run: the first page fails and is remembered, the cycle is paused, and no continuation asks for that page |
| `Discovery.LateParkKeepsFault` | crates/argos-osint-core/src/atlas.rs:2203-2208 | a concrete run: the same fault is still remembered when the cycle is paused in phase 3, and a continuation asks for the page |
| `Discovery.PauseForgetsFirstProvider` | crates/argos-osint-core/src/atlas.rs:2203-2208 | a pause on the second provider followed by a resume clears the remembered fault of the first, and no continuation pages the first provider again |
| `Discovery.CommitKeeps` | crates/argos-osint-core/src/atlas.rs:2990-3009 | the one transaction of receipt, cursor and statistics keeps the phase-1 invariant |
| `Discovery.RunKeeps` | crates/argos-osint-core/src/atlas.rs:2256-2416 | the invariant holds after any sequence of events |
| `Discovery.Collector.LeaveFor` | crates/argos-osint-core/src/atlas.rs:2260-2273 | the method that leaves a provider reaches the state the model says |
| `Discovery.Collector.TakePage` | crates/argos-osint-core/src/atlas.rs:2335-2358 | applying a readable page, with a crash before or after the save, is a run of the machine |
| `Discovery.Collector.SavePage` | crates/argos-osint-core/src/atlas.rs:2388-2416 | the save, a possible crash around it, and the advance are a run of the machine |
| `Discovery.Collector.Turn` | crates/argos-osint-core/src/atlas.rs:2274-2416 | every turn of the page loop is a run of the machine |
| `Discovery.Collector.CollectHeadlines` | crates/argos-osint-core/src/atlas.rs:2256-2416 | one whole invocation of phase 1, killed anywhere, leaves rows that some run of the machine leaves |
| `Discovery.Collector.constructor` | crates/argos-osint-core/src/atlas.rs:882-894 | a new run starts with the first cursor, no counts and no receipts |
| `Coverage.SkippedAreExactlyEarlier` | crates/argos-osint-core/src/atlas.rs:992-1016 | the jobs that `job_is_before` skips for the cursor of job `k` are exactly jobs `0..k` |
| `Coverage.NextIsSuccessor` | crates/argos-osint-core/src/atlas.rs:3011-3028 | `next_after_phase2` is the successor in the job list, and the last job is its own |
| `Coverage.JobLeaves` | crates/argos-osint-core/src/atlas.rs:2506-2630 | what a job leaves: hits are committed with receipt and its own cursor, then the next cursor is saved, also by a pause; a fault saves the next cursor; no quota saves nothing; a pause before it saves its own |
| `Coverage.HandledJobIsPassedOver` | crates/argos-osint-core/src/atlas.rs:2501-2525 | a job that the cursor skips, that has its receipt or that has no feed is passed over |
| `Coverage.PhaseTwoStartsAndEnds` | crates/argos-osint-core/src/atlas.rs:2203-2505 | phase 2 starts anew with what phase 1 remembers, or at the saved cursor with nothing; after the last job phase 3 is saved with the statistics, and the end goes back to the remembered place |
| `Coverage.FirstFaultIsRetried` | crates/argos-osint-core/src/atlas.rs:2608-2624 | without an interruption the cycle ends with the cursor of the first job that got a real fault, whatever faults follow and after quota faults only |
| `Coverage.QuotaFaultsAreNotRetried` | crates/argos-osint-core/src/atlas.rs:2608-2624 | without a real fault it ends in phase 3 with nothing remembered |
| `Coverage.ReceiptsAreWrittenOnce` | crates/argos-osint-core/src/atlas.rs:2517-2588 | however often phase 2 is paused, killed and resumed, no provider and country get a second receipt |
| `Coverage.NothingIsMissed` | crates/argos-osint-core/src/atlas.rs:2472-2634 | once the saved cursor has left phase 2, every job has its receipt, is unsupported, or could not be done when last tried (fault or no quota) |
| `Coverage.AskedAgainExactlyWhen` | crates/argos-osint-core/src/atlas.rs:2203-2208 | wherever a cycle is down, some continuation asks for a job that is not done if and only if `job_is_before` is false of it and the saved cursor, or the cursor is in phase 3 or later and it is false of the saved `acquisition_retry` |
| `Coverage.FaultIsRetriedExactlyWhen` | crates/argos-osint-core/src/atlas.rs:2608-2634 | a job that failed, after any interruptions whatever, is asked for again by some continuation if and only if that holds of what the store then has |
| `Coverage.KilledFaultIsRetriedExactlyWhen` | crates/argos-osint-core/src/atlas.rs:3011-3028 | a process killed right after a fault comes back to the failed job if and only if it is the last of the list, its own successor |
| `Coverage.FaultForgotten` | crates/argos-osint-core/src/atlas.rs:2203-2208 | a concrete run: the fault of the first job is remembered, the cycle is paused, and no continuation asks for the job |
| `Coverage.CycleEndsWithoutIt` | crates/argos-osint-core/src/atlas.rs:2961-2974 | that run goes on to a cycle that ends at phase 3, with the job undone and nothing remembered |
| `Coverage.LateParkKeepsFault` | crates/argos-osint-core/src/atlas.rs:2203-2208 | a concrete run: the same fault survives a pause in phase 3, and a continuation asks for the job |
| `Coverage.ResumeSkipsOnlyHandled` | crates/argos-osint-core/src/atlas.rs:2501-2505 | at every moment a resume would skip only jobs already handled |
| `Coverage.RunKeeps` | crates/argos-osint-core/src/atlas.rs:2472-2634 | the phase-2 invariant holds after any sequence of events |
| `Coverage.Coverer.Finished` | crates/argos-osint-core/src/atlas.rs:2567-2605 | receipt and cursor together, then the queue where a pause parks at the following job, are steps of the machine |
| `Coverage.Coverer.CoverCountries` | crates/argos-osint-core/src/atlas.rs:2501-2634 | one invocation of phase 2, killed between any two transactions, leaves rows that some run of the machine leaves |
| `Dedup.Judge` | crates/argos-osint-core/src/atlas.rs:744-780 | the two scans return the verdict said without them: dropped if unusable, known, or beaten by any rival; else in place of the last rival |
| `Dedup.DroppedExactlyWhen` | crates/argos-osint-core/src/atlas.rs:744-776 | a headline is dropped if and only if it is unusable, has a known URL or title, or meets another outlet's version that ranks higher, or as high and it is undated or not published earlier |
| `Dedup.ReplacesTheLast` | crates/argos-osint-core/src/atlas.rs:757-782 | a headline that is not dropped replaces the last other version |
| `Dedup.KeptExactlyWhen` | crates/argos-osint-core/src/atlas.rs:757-782 | it is kept as new if and only if there is none |
| `Dedup.EarlierExactlyWhen` | crates/argos-osint-core/src/atlas.rs:766-769 | dates compare as texts: at the first difference the smaller character or the end comes first |
| `Dedup.EarlierIsTotal` | crates/argos-osint-core/src/atlas.rs:766-769 | of two different dates exactly one is earlier |
| `Dedup.NormJoins` | crates/argos-osint-core/src/atlas.rs:385-391 | titles are normalized character by character |
| `Dedup.NormOfOne` | crates/argos-osint-core/src/atlas.rs:385-391 | letters in lower case and digits stay, nothing else |
| `Dedup.AdmittedIsNew` | crates/argos-osint-core/src/atlas.rs:744-760 | a headline that is not dropped has an id and a normalized title of its own |
| `Dedup.HitKeeps` | crates/argos-osint-core/src/atlas.rs:1514-1602 | one headline, kept, dropped, replacing across countries or refused, leaves the run consistent |
| `Dedup.HitChanges` | crates/argos-osint-core/src/atlas.rs:1514-1602 | what a headline changes in the rows and in the seen list, when it is kept, replaces a row of this run, or neither |
| `Dedup.HitsKeep` | crates/argos-osint-core/src/atlas.rs:1514-1602 | any sequence of headlines keeps run rows distinct in URL digest and normalized title, every row in `seen`, and each origin's `articles` equal to the number of its rows |
| `Dedup.OutsideRunIsRefused` | crates/argos-osint-core/src/atlas.rs:1565-1571 | a replacement naming a row of another run changes nothing, and happens only for a rival that is beaten |
| `Dedup.SeedGuards` | crates/argos-osint-core/src/atlas.rs:2232-2246 | after a restart a saved row is guarded exactly when nothing already seen has its id, or something with its id also has its title |
| `Dedup.BumpFirst` | crates/argos-osint-core/src/atlas.rs:1545-1551 | only the first origin of a country moves, never below zero |
| `Dedup.Collection.Move` | crates/argos-osint-core/src/atlas.rs:1572-1587 | the in-place origin update is the specified one |
| `Dedup.Collection.Remember` | crates/argos-osint-core/src/atlas.rs:1344-1349 | the replaced entries leave `seen` and the new one is last |
| `Dedup.Collection.TakeHits` | crates/argos-osint-core/src/atlas.rs:1514-1602 | the loop over one reply makes exactly the specified changes to rows, seen list and origins |
| `HostFeed.MutualExclusion` | crates/argos-osint-api/src/host_metrics.rs:83-126 | for any threads, interleaving, failing reads and store delay, at most one producer owns the feed, and one does exactly when `running` is set |
| `HostFeed.ProducerMoves` | crates/argos-osint-api/src/host_metrics.rs:83-126 | what a producer does at each of its places |
| `HostFeed.NoneLostExactlyWhen` | crates/argos-osint-api/src/host_metrics.rs:83-126 | no subscriber that finished `subscribe` is ever left without a producer if and only if reads never fail and the clearing store is ordered before the second count |
| `HostFeed.FailedReadLoses` | crates/argos-osint-api/src/host_metrics.rs:116-120 | a run in which a failed read leaves a waiting subscriber without a producer |
| `HostFeed.LateStoreLoses` | crates/argos-osint-api/src/host_metrics.rs:97-108 | a run in which a release store seen late leaves a subscriber without a producer |
| `HostFeed.NextSubscriberRestarts` | crates/argos-osint-api/src/host_metrics.rs:83-92 | from a lost feed the next subscriber starts a producer |
| `LiveTransport.KeptExactlyWhen` | apps/web-desktop/app/live-transport.ts:44-106 | from the first subscription on, the invariant holds after every event if and only if no listener drops the last subscription while told of the opening: one current socket, one pending retry, a watchdog only for the open current socket; nothing pending without subscriptions; and with subscriptions a socket, a retry or a queued connect |
| `LiveTransport.RunKeeps` | apps/web-desktop/app/live-transport.ts:44-106 | the same from any state in which the invariant holds |
| `LiveTransport.OpenKeepsExactlyWhen` | apps/web-desktop/app/live-transport.ts:51-59 | opening keeps the invariant if and only if the listeners never empty the subscriptions while they hear of it |
| `LiveTransport.WatchdogLeftBehind` | apps/web-desktop/app/live-transport.ts:51-59 | a concrete run after which the subscriptions are empty and a watchdog still runs |
| `LiveTransport.StaleSocketsAreIgnored` | apps/web-desktop/app/live-transport.ts:52-75 | the events of a socket that is not the current one change its own ready state only |
| `LiveTransport.SocketSurvives` | apps/web-desktop/app/live-transport.ts:93-104 | the current socket survives what listeners do exactly when they never remove the last subscription |
| `LiveTransport.DelayDoubles` | apps/web-desktop/app/live-transport.ts:79-80 | retry delays double from one second and stop at thirty |
| `LiveTransport.CloseEventKeeps` | apps/web-desktop/app/live-transport.ts:74-81 | after the current socket closes the invariant holds, no watchdog runs, and one retry is pending if and only if the listeners leave a subscription |
| `LiveTransport.ConnectsExactlyWhen` | apps/web-desktop/app/live-transport.ts:44-50 | a queued connect or a retry opens a socket if and only if there are subscriptions and no socket, and takes back the pending retry |
| `LiveTransport.CloseCountsAttempts` | apps/web-desktop/app/live-transport.ts:69-81 | a retry that is scheduled, and nothing else about a close, raises the attempts by one |
| `LiveTransport.MessagesCountAnew` | apps/web-desktop/app/live-transport.ts:60-68 | a readable message resets the attempts, an unreadable one closes the socket |
| `LiveTransport.ErrorsClose` | apps/web-desktop/app/live-transport.ts:56-72 | an error closes its socket and a stale interval the one it watches |
| `LiveTransport.OpeningKeepsAttempts` | apps/web-desktop/app/live-transport.ts:51-59 | opening starts the watchdog and resets no attempts |
| `LiveTransport.UnsubscribingStops` | apps/web-desktop/app/live-transport.ts:93-104 | the last subscription to go takes retry, watchdog and socket with it, any other nothing |
| `LiveTransport.SubscribingConnects` | apps/web-desktop/app/live-transport.ts:84-92 | subscribing queues a connect unless the socket is open |
| `LiveTransport.Connection.Connect` | apps/web-desktop/app/live-transport.ts:44-50 | the new state of `connect` |
| `LiveTransport.Connection.Subscribe` | apps/web-desktop/app/live-transport.ts:84-92 | the new state of `subscribe` |
| `LiveTransport.Connection.Unsubscribe` | apps/web-desktop/app/live-transport.ts:93-104 | the new state of the returned function |
| `LiveTransport.Connection.HandleOpen` | apps/web-desktop/app/live-transport.ts:51-59 | the handler does what the machine does for the event |
| `LiveTransport.Connection.HandleClose` | apps/web-desktop/app/live-transport.ts:74-81 | the handler does what the machine does for the event, and its retry waits the delay for the attempts so far |
| `Scrub.FinishOrders` | crates/argos-osint-core/src/brain_neighborhood_brief.rs:1298-1302 | the ids are tried longest first, all of them |
| `Scrub.LongestMatch` | crates/argos-osint-core/src/brain_neighborhood_brief.rs:1341-1353 | the id replaced at a place is the longest known id standing there as a whole token; none is only if none stands there |
| `Scrub.ScanIsFaithful` | crates/argos-osint-core/src/brain_neighborhood_brief.rs:1335-1361 | every part of the output is a copied character or the replacement of a whole-token id that stands there |
| `Scrub.ScanLosesNothing` | crates/argos-osint-core/src/brain_neighborhood_brief.rs:1335-1361 | the parts follow each other without gap to the end of the text |
| `Scrub.ScanCovers` | crates/argos-osint-core/src/brain_neighborhood_brief.rs:1335-1361 | every whole-token occurrence of a known id begins inside a replaced part |
| `Scrub.CleanTextUnchanged` | crates/argos-osint-core/src/brain_neighborhood_brief.rs:1335-1361 | text without such an occurrence is returned unchanged |
| `Scrub.Piece` | crates/argos-osint-core/src/brain_neighborhood_brief.rs:1340-1359 | one turn of the loop writes the part that the specification says |
| `Scrub.ScrubLoop` | crates/argos-osint-core/src/brain_neighborhood_brief.rs:1335-1361 | the loop writes exactly the specified text |
| `Scrub.ScrubTextClean` | crates/argos-osint-core/src/brain_neighborhood_brief.rs:1335-1361 | no known id stands whole in any scrubbed text, for ids of any number of tokens, when no replacement text can be laid over part of a known id, or the other way round, so that they agree and token ends fall on token ends |
| `Scrub.TokensApartIsSound` | crates/argos-osint-core/src/brain_neighborhood_brief.rs:1335-1361 | that holds of every table whose ids and replacement texts have no token in common, upper case aside |
| `Scrub.TextsAreCleanExactlyWhen` | crates/argos-osint-core/src/brain_neighborhood_brief.rs:1335-1361 | when every id is a single token, all scrubbed texts are free of known ids if and only if no replacement text contains one |
| `Scrub.SplitIdLeaks` | crates/argos-osint-core/src/brain_neighborhood_brief.rs:1335-1361 | a concrete table whose replacement texts contain no id, and a text from which scrubbing makes one, because a replacement text is the beginning of an id |
| `Scrub.ScrubbedExactlyWhen` | crates/argos-osint-core/src/brain_neighborhood_brief.rs:1365-1414 | with a table as for `ScrubTextClean`, a scrubbed value has no dropped key, no known id in any text, and only packet references in id fields and id lists, if and only if everything it has under an id-list key is a list or had no id before |
| `Scrub.PlainStays` | crates/argos-osint-core/src/brain_neighborhood_brief.rs:1365-1414 | a value without id fields, dropped keys and known ids comes out as it was |
| `Scrub.FieldsBecome` | crates/argos-osint-core/src/brain_neighborhood_brief.rs:1370-1404 | what becomes of a field: some keys go, an id field is shown as the reference of its record or goes, of an id list the references stay, and any other value is scrubbed |
| `Scrub.ReferencesJoin` | crates/argos-osint-core/src/brain_neighborhood_brief.rs:1394-1404 | an id list becomes references in its order |
| `Scrub.ReferenceOfOne` | crates/argos-osint-core/src/brain_neighborhood_brief.rs:1394-1404 | a known record of the packet gives its reference, any other none |
| `Scrub.OutsideIsNoted` | crates/argos-osint-core/src/brain_neighborhood_brief.rs:1405-1411 | the fields that stay, in place of one of its name followed by the count of records outside if there are any |
| `Scrub.OutsideCounts` | crates/argos-osint-core/src/brain_neighborhood_brief.rs:1394-1404 | that count adds up the items of the id lists that give no reference |
| `Scrub.CharactersAre` | crates/argos-osint-core/src/brain_neighborhood_brief.rs:1335-1340 | the small letters, the characters of tokens and the lengths in bytes |
| `Scrub.BareIdLeaks` | crates/argos-osint-core/src/brain_neighborhood_brief.rs:1394-1404 | a value, though no payload, that leaks: any known id as a bare text under an id-list key comes out of `scrub_value` as it was |
| `Prompt.BuildAliases` | crates/argos-osint-core/src/brain_neighborhood_brief.rs:1448-1474 | the loops build the specified table: payload ids, then nodes, then edges, each taking over the ids it has |
| `Prompt.TableIs` | crates/argos-osint-core/src/brain_neighborhood_brief.rs:1448-1473 | an id of two bytes or more, not all digits, is shown as the last edge that has it, else as the last node that has it, else as lying outside if a payload or a run has it, and is not known otherwise |
| `Prompt.CollectedExactlyWhen` | crates/argos-osint-core/src/brain_neighborhood_brief.rs:1310-1331 | the ids a payload brings are its premises, actors, shared actors and ends, for each of the five kinds |
| `Prompt.MentionsExactlyWhen` | crates/argos-osint-core/src/brain_neighborhood_brief.rs:1454-1470 | a node has its own id, its members and its article; an edge its own and its members |
| `Prompt.OwnReferenceExactlyWhen` | crates/argos-osint-core/src/brain_neighborhood_brief.rs:1454-1472 | a node's own id is shown as that node if and only if no edge and no later node has it among its ids |
| `Prompt.MemberIsShownAsEdge` | crates/argos-osint-core/src/brain_neighborhood_brief.rs:1466-1472 | an id that an edge has among its members, as that of an entity, is shown as an edge |
| `Prompt.TableIsSound` | crates/argos-osint-core/src/brain_neighborhood_brief.rs:1448-1474 | the table of any records meets the condition of `ScrubTextClean` when the ids begin with a letter, digit, `_` or `-` and have no token that is a reference or a word of the phrase for records outside |
| `Prompt.ArticleTableIsSound` | crates/argos-osint-core/src/brain_neighborhood_brief.rs:1448-1474 | a table with an id of several tokens, `article:run-1/a-1`, is such a one |
| `Prompt.PayloadIsFree` | crates/argos-osint-core/src/brain_neighborhood_brief.rs:1475-1482 | every record payload, of each of its five kinds, comes out of the scrubber free of ids |
| `Prompt.TrimTextExactlyWhen` | crates/argos-osint-core/src/brain_neighborhood_brief.rs:1418-1424 | shortening a clean text leaves it clean if and only if the cut does not fall inside a token that begins with a known id |
| `Prompt.TrimKeeps` | crates/argos-osint-core/src/brain_neighborhood_brief.rs:1418-1424 | a text of up to 600 characters stays; a longer one keeps its first 600 up to the last that is no blank, and an ellipsis |
| `Prompt.CutLeaks` | crates/argos-osint-core/src/brain_neighborhood_brief.rs:1418-1424 | a concrete text without an id that has one after it is shortened |
| `Prompt.PromptExactlyWhen` | crates/argos-osint-core/src/brain_neighborhood_brief.rs:1483-1524 | for any records kept and any payloads left with them: the labels, rationales, subtypes, statuses, receipts and payloads of the prompt hold no known id if and only if no subtype, status or kept receipt does and no payload text is cut inside a token that begins with one |
| `Prompt.CleanIsShown` | crates/argos-osint-core/src/brain_neighborhood_brief.rs:1483-1513 | what holds no known id is shown as it is, with at most six receipts |
| `Prompt.AllAreShown` | crates/argos-osint-core/src/brain_neighborhood_brief.rs:1483-1524 | every record that is kept is shown, in order |
| `Prompt.ReceiptLeaks` | crates/argos-osint-core/src/brain_neighborhood_brief.rs:1502-1506 | an edge whose first receipt is its own id puts that id into the prompt |
| `Packet.ReduceLoop` | crates/argos-osint-core/src/brain_neighborhood_brief.rs:1529-1560 | the loop terminates with the packet that the specification says |
| `Packet.CutShrinks` | crates/argos-osint-core/src/brain_neighborhood_brief.rs:1537-1559 | every cut strictly reduces records or record details |
| `Packet.ReducedIs` | crates/argos-osint-core/src/brain_neighborhood_brief.rs:1537-1559 | roots and their details stay; details go farthest first; no record goes while a non-root detail or an edge detail remains; the surviving records are a first part of the sorted ones |
| `Packet.ReducedFits` | crates/argos-osint-core/src/brain_neighborhood_brief.rs:1531-1560 | at the end the measured size is within the cap, or only roots and edges without details are left |
| `Packet.ReducedIsClosed` | crates/argos-osint-core/src/brain_neighborhood_brief.rs:1553-1559 | a closed packet stays closed: no edge outlives its ends |
| `Packet.AssembledOrder` | crates/argos-osint-core/src/brain_neighborhood_brief.rs:1444-1447 | nodes are ordered by root, hops and id |
| `Packet.SurvivorsKeepReferences` | crates/argos-osint-core/src/brain_neighborhood_brief.rs:1444-1500 | a surviving node has the reference of its place in the full sorted order, and all else unchanged but perhaps its details |
| `Packet.SurvivingEdgesKeepReferences` | crates/argos-osint-core/src/brain_neighborhood_brief.rs:1501-1508 | a surviving edge has the reference of its place among all edges by id, and all else unchanged but perhaps its details |
| `Packet.EdgeReferencesRise` | crates/argos-osint-core/src/brain_neighborhood_brief.rs:1501-1508 | no two edges have one reference, and references rise with the ids |
| `Packet.DetailsGoFarthestFirst` | crates/argos-osint-core/src/brain_neighborhood_brief.rs:1537-1546 | a node that lost its details is no nearer than one that still has some to lose |
| `Packet.EdgeSurvivesExactlyWhen` | crates/argos-osint-core/src/brain_neighborhood_brief.rs:1553-1559 | once a node is gone, an edge is kept if and only if nodes with both its ends are |
| `References.Numbering.Number` | crates/argos-osint-core/src/brain_neighborhood_brief.rs:1088-1124 | a known target gets its number, given out at its first use; an unknown one gets none and changes nothing |
| `References.Numbering.Take` | crates/argos-osint-core/src/brain_neighborhood_brief.rs:1125-1147 | the kept ids are the known ones in order, and each number names its record |
| `References.Numbering.Fill` | crates/argos-osint-core/src/brain_neighborhood_brief.rs:1125-1147 | an item is left with distinct known records and one number for each, nodes before edges |
| `References.Numbering.FillAll` | crates/argos-osint-core/src/brain_neighborhood_brief.rs:1148-1158 | the same for a block, the list of references only growing |
| `References.NumberReferences` | crates/argos-osint-core/src/brain_neighborhood_brief.rs:1078-1160 | the numbered brief has the same items with distinct known records, references counted from 1 over the distinct citations in reading order, and every number naming its record |
| `References.GrowIsNumbered` | crates/argos-osint-core/src/brain_neighborhood_brief.rs:1088-1124 | counting citations one by one lists the distinct ones in first-use order, numbered from 1 |
| `References.NumberingIsDense` | crates/argos-osint-core/src/brain_neighborhood_brief.rs:1078-1160 | references are `1..k` with distinct targets, and every item has as many numbers as records, nodes and edges together |
| `References.NumberedVerifies` | crates/argos-osint-core/src/brain_neighborhood_brief.rs:193-218 | `verify` reports nothing about a numbered brief |
| `References.VerifyNone` | crates/argos-osint-core/src/brain_neighborhood_brief.rs:193-218 | `verify` reports nothing exactly when every item names known nodes and known edges only and each of its numbers is between 1 and the number of references |
| `References.VerifyReports` | crates/argos-osint-core/src/brain_neighborhood_brief.rs:193-218 | `verify` reports exactly the unknown nodes, the unknown edges and the numbers without a reference that some item has |
| `References.Compact` | crates/argos-osint-core/src/brain_neighborhood_brief.rs:222-244 | the printed parts expand to exactly the sorted basis without repeats, and every range spans at least three numbers and could not be wider |
| `Validate.ConvertOne` | crates/argos-osint-core/src/brain_neighborhood_brief.rs:1873-2012 | an item is accepted exactly when it is acceptable, and is the specified item; its length is the first thing refused, then a missing basis, by whether references were written |
| `Validate.AcceptableExactlyWhen` | crates/argos-osint-core/src/brain_neighborhood_brief.rs:1873-1990 | the conditions on an item outright, and its class: tentative if and only if it cites a related edge, a stored inference if and only if it cites an inference and no such edge, coverage if and only if it cites nothing |
| `Validate.CitedExactlyWhen` | crates/argos-osint-core/src/brain_neighborhood_brief.rs:1880-1899 | the cited records are those that some written reference names, a node before an edge |
| `Validate.FirstIsMeant` | crates/argos-osint-core/src/brain_neighborhood_brief.rs:1880-1899 | of two records with one reference the first is meant |
| `Validate.Convert` | crates/argos-osint-core/src/brain_neighborhood_brief.rs:1867-2012 | a block is accepted exactly when each written item is, and keeps all of them, adding their words to the total |
| `Validate.Pin` | crates/argos-osint-core/src/brain_neighborhood_brief.rs:2049-2077 | the restoring loop gives what the specification says, or the error when a contradiction cannot be shown |
| `Validate.KeepCaveat` | crates/argos-osint-core/src/brain_neighborhood_brief.rs:2078-2117 | the caveat block after both host rules |
| `Validate.ValidateGenerated` | crates/argos-osint-core/src/brain_neighborhood_brief.rs:1831-2139 | an answer is accepted exactly when it passes and its contradictions can be shown; the result is the numbering of the merged brief |
| `Validate.AcceptedFits` | crates/argos-osint-core/src/brain_neighborhood_brief.rs:1846-1853 | accepted: at most 2 connections and 1 item in the other blocks, something said, the host overview and caveat present when the host has them |
| `Validate.AcceptedIsGrounded` | crates/argos-osint-core/src/brain_neighborhood_brief.rs:1919-1946 | every own item outside the limits cites packet records only; it is tentative if and only if it cites a related edge, a stored inference if and only if it cites an inference and no such edge, recorded otherwise; tentative items are hedged and stored inferences attributed; any other connection shown is the host's |
| `Validate.AcceptedLimitsAreClassed` | crates/argos-osint-core/src/brain_neighborhood_brief.rs:1919-1946 | the same classes for the answer's own caveats, which may cite nothing |
| `Validate.CaveatKept` | crates/argos-osint-core/src/brain_neighborhood_brief.rs:2078-2112 | a demanded caveat is carried by the answer or replaced by the host's |
| `Validate.CaveatReplacedExactlyWhen` | crates/argos-osint-core/src/brain_neighborhood_brief.rs:2078-2117 | the host's caveat stands in if and only if the answer has none, or a demanded one is not met by its first |
| `Validate.SoleContradictionStays` | crates/argos-osint-core/src/brain_neighborhood_brief.rs:2049-2077 | a sole recorded contradiction is cited in every accepted brief |
| `Validate.TwoContradictionsStayExactlyWhen` | crates/argos-osint-core/src/brain_neighborhood_brief.rs:2049-2077 | of two, the second is always cited, and the first exactly when restoring the second does not evict the last connection as its only carrier |
| `Validate.ContradictionEvicted` | crates/argos-osint-core/src/brain_neighborhood_brief.rs:2066-2073 | for every wording that accepts its two sentences, a concrete answer over a closed packet is accepted and the first of its two contradictions is cited nowhere |
| `Validate.NumberingShows` | crates/argos-osint-core/src/brain_neighborhood_brief.rs:1125-1147 | numbering hides no citation of a packet edge |
| `Tokenizing.SliceWords` | crates/argos-osint-core/src/actor_catalog.rs:232-234 | the source text from the start of one word to the end of a later one has exactly those words |
| `Tokenizing.TokensJoin` | crates/argos-osint-core/src/actor_catalog.rs:281-297 | text after a separator reads as if it stood alone |
| `Tokenizing.TokenCuts` | crates/argos-osint-core/src/actor_catalog.rs:281-297 | what is read up to the start and up to the end of each word |
| `Normalized.NormalizedOffsets` | crates/argos-osint-core/src/actor_catalog.rs:281-302 | the output is the padded folded words, each character with the place it came from |
| `Normalized.ClosedIsPadded` | crates/argos-osint-core/src/actor_catalog.rs:281-302 | the normalized form is the words with single blanks around them |
| `Normalized.PlacesOf` | crates/argos-osint-core/src/actor_catalog.rs:232-233 | the places recorded beside a word's first and last letters are its start and end in the source |
| `Normalized.OccursIsWords` | crates/argos-osint-core/src/actor_catalog.rs:214-215 | the padded key occurs at a place if and only if its words stand in a row there |
| `Names.AliasIsWords` | crates/argos-osint-core/src/brain_actors.rs:44-76 | a key is the folded words of the stripped name, blanks collapsed |
| `Names.NameIsStripped` | crates/argos-osint-core/src/brain_actors.rs:44-61 | blanks go first, then quotes, then a possessive ending, then apostrophes |
| `Names.PossessiveExactlyWhen` | crates/argos-osint-core/src/brain_actors.rs:45-55 | a possessive ending is an apostrophe and an s |
| `Names.QuotesAndApostrophes` | crates/argos-osint-core/src/brain_actors.rs:45-57 | the quotes and the apostrophes there are |
| `Names.JoinedWords` | crates/argos-osint-core/src/brain_actors.rs:62-76 | joining words and reading them again gives the same words |
| `Names.PlainKeyExactlyWhen` | crates/argos-osint-core/src/brain_actors.rs:44-76 | a text that starts and ends with a letter normalizes to its own words if and only if it has no possessive or U+02BC ending |
| `Names.KeyIsFixedExactlyWhen` | crates/argos-osint-core/src/brain_actors.rs:44-76 | a key is a fixed point of normalization if and only if it has no such ending |
| `Names.KeyNotFixed` | crates/argos-osint-core/src/brain_actors.rs:44-76 | a concrete name whose key is not a fixed point |
| `Matcher.NewCatalog` | crates/argos-osint-core/src/actor_catalog.rs:117-148 | a padded key is owned by exactly the actors one of whose names, short forms included, has that key of three characters or more |
| `Matcher.NamedExactlyWhen` | crates/argos-osint-core/src/actor_catalog.rs:117-148 | a pattern names an entry if and only if it is the padded key, of three characters or more, of its name, an alias, or the short form of that entry |
| `Matcher.CuratedExactlyWhen` | crates/argos-osint-core/src/actor_catalog.rs:117-131 | the short form is tied to its one entry |
| `Matcher.FindOverlapping` | crates/argos-osint-core/src/actor_catalog.rs:214-214 | all places of all patterns, overlapping or not |
| `Matcher.OwnedIsWords` | crates/argos-osint-core/src/actor_catalog.rs:124-132 | every pattern is a padded list of folded words |
| `Matcher.HitStands` | crates/argos-osint-core/src/actor_catalog.rs:214-215 | every hit is a run of the key's words in the field |
| `Matcher.StandsHit` | crates/argos-osint-core/src/actor_catalog.rs:214-215 | every run of a key's words is a hit |
| `Matcher.CoversIsWithin` | crates/argos-osint-core/src/actor_catalog.rs:225-231 | one hit covers another exactly when its words do |
| `Matcher.ReportedExactlyWhen` | crates/argos-osint-core/src/actor_catalog.rs:215-231 | a hit is reported if and only if its key has one owner and it is no curated form strictly inside a longer name owned by another alone |
| `Matcher.Reporter` | crates/argos-osint-core/src/actor_catalog.rs:215-231 | the branches that pick the actor of a hit agree with that |
| `Matcher.HitPlaces` | crates/argos-osint-core/src/actor_catalog.rs:232-234 | the reported span is a nonempty stretch of the source from the first to the last matched word |
| `Matcher.MentionHasKey` | crates/argos-osint-core/src/actor_catalog.rs:232-252 | the words of a reported span are the key's; its recorded key is the matched one if and only if the span has no ending that normalization strips |
| `Matcher.TakeField` | crates/argos-osint-core/src/actor_catalog.rs:212-257 | a field adds exactly the mentions it names |
| `Matcher.Fields` | crates/argos-osint-core/src/actor_catalog.rs:210-259 | the actors found are exactly those the fields name, with exactly those mentions, none twice, and the spellings of their mentions |
| `Inventory.RunAccounts` | crates/argos-osint-core/src/atlas_metadata.rs:918-1032 | for every interleaving: once the index is known nothing waits; each collected article was refused, recorded, waits or was dropped, exactly one; recorded, then waiting, in queue order |
| `Inventory.FinishRecordsAll` | crates/argos-osint-core/src/atlas_metadata.rs:1020-1032 | a finish without cancellation leaves none uncollected and none waiting: each is recorded once and in order unless refused or dropped |
| `Inventory.FlushedBalanced` | crates/argos-osint-core/src/atlas_metadata.rs:877-913 | a flush moves every waiting article to recorded or dropped |
| `Inventory.AfterKeeps` | crates/argos-osint-core/src/atlas_metadata.rs:955-1032 | every event keeps the accounts and only adds to what is recorded and dropped |
| `Inventory.EventsDo` | crates/argos-osint-core/src/atlas_metadata.rs:954-1019 | what each event does to the article in hand, the place, the publishers and the cancellation |
| `Inventory.StartIs` | crates/argos-osint-core/src/atlas_metadata.rs:929-955 | the first article is in hand unless the worker is cancelled |
| `Inventory.FlushRecordsIntact` | crates/argos-osint-core/src/atlas_metadata.rs:877-913 | a flush records what is intact and drops the rest |
| `Inventory.Worker.constructor` | crates/argos-osint-core/src/atlas_metadata.rs:929-955 | the first article starts the worker |
| `Inventory.Worker.Flush` | crates/argos-osint-core/src/atlas_metadata.rs:877-913 | the loop drains what waits, in order |
| `Inventory.Worker.Collect` | crates/argos-osint-core/src/atlas_metadata.rs:957-1014 | the article in hand goes to the part its outcome says |
| `Inventory.Worker.Finish` | crates/argos-osint-core/src/atlas_metadata.rs:1020-1032 | an uncancelled finish waits for the index and flushes |
| `Inventory.Worker.Handle` | crates/argos-osint-core/src/atlas_metadata.rs:954-1019 | every event changes the worker as the machine says |
| `Inventory.Work` | crates/argos-osint-core/src/atlas_metadata.rs:918-1032 | any sequence of events leaves the worker in the state of the machine |
| `Classifier.BatchAdapter.Accept` | crates/argos-osint-core/src/atlas_classify.rs:51-87 | what an answer adds to the receipt, and that it succeeds exactly when every row is usable and the receipt is as long as the batch |
| `Classifier.AdmittedIs` | crates/argos-osint-core/src/atlas_classify.rs:57-68 | exactly the usable rows are added, each with its category; nothing accepted before is touched |
| `Classifier.ReceiptOnlyGrows` | crates/argos-osint-core/src/atlas_classify.rs:59-68 | over any sequence of answers, what is settled stays settled with the same category |
| `Classifier.ReceiptIsSound` | crates/argos-osint-core/src/atlas_classify.rs:60-66 | the receipt names only the batch's articles, with categories there are |
| `Classifier.PendingIs` | crates/argos-osint-core/src/atlas_classify.rs:43-49 | pending is exactly the complement of the receipt |
| `Classifier.FullExactlyWhen` | crates/argos-osint-core/src/atlas_classify.rs:78-86 | a receipt is as long as the batch if and only if nothing is pending and no article is listed twice |
| `Classifier.SucceedsExactlyWhen` | crates/argos-osint-core/src/atlas_classify.rs:51-87 | an answer succeeds if and only if its rows are usable, nothing is left pending and no article is listed twice |
| `Classifier.Retry` | crates/argos-osint-core/src/atlas_classify.rs:51-87 | answers to one adapter build the receipt of the specification |
| `Classifier.BatchesForModel` | crates/argos-osint-core/src/atlas_classify.rs:178-196 | the batches concatenate to the articles, have 1 to 8 each, stay within the size limit at each step beyond one article, and each stops only when full |
| `Classifier.GreedyLimits` | crates/argos-osint-core/src/atlas_classify.rs:178-196 | the batch properties outright: one to eight articles, 32 KiB at each step beyond one article, and full when followed by another |
| `Classifier.CountIs` | crates/argos-osint-core/src/atlas_classify.rs:57-60 | an id is counted once for each row that has it |
| `Classifier.GreedyIsUnique` | crates/argos-osint-core/src/atlas_classify.rs:178-196 | those properties determine the cut |
| `Insights.LongerAlias` | crates/argos-osint-core/src/atlas_insights.rs:1535-1566 | the first of the longest admissible token supersets, or the entity itself |
| `Insights.AliasHasMostWords` | crates/argos-osint-core/src/atlas_insights.rs:1535-1566 | an alias appears in the articles, is no country and has all the words and more; no such entity has more; countries and names without words stay |
| `Insights.MergeAliases` | crates/argos-osint-core/src/atlas_insights.rs:268-273 | every entity becomes its alias among the entities before; nothing else changes |
| `Insights.MergeIsIdempotent` | crates/argos-osint-core/src/atlas_insights.rs:268-273 | merging aliases a second time changes nothing |
| `Insights.DedupeClaims` | crates/argos-osint-core/src/atlas_insights.rs:275-298 | the loop keeps what the specification says |
| `Insights.DriftsExactlyWhen` | crates/argos-osint-core/src/atlas_insights.rs:281-292 | a replacement changes the fingerprint if and only if an unqualified unattributed assertion replaces a qualified claim with another article or source |
| `Insights.SameFingerprintExactlyWhen` | crates/argos-osint-core/src/atlas_insights.rs:1607-1633 | which claims have one fingerprint, field by field |
| `Insights.QualifiedKeepsFingerprint` | crates/argos-osint-core/src/atlas_insights.rs:1607-1610 | a qualified claim keeps the fingerprint it brings |
| `Insights.PreferredExactlyWhen` | crates/argos-osint-core/src/atlas_insights.rs:1582-1589 | a fact is preferred, and among equals the more confident |
| `Insights.ReplacedKeeps` | crates/argos-osint-core/src/atlas_insights.rs:283-291 | a claim without an article takes over article, source and country, and nothing else |
| `Insights.DistinctExactlyWhen` | crates/argos-osint-core/src/atlas_insights.rs:275-298 | at every prefix of the input the kept claims have different fingerprints, if and only if no unattributed assertion of the input takes over a group's article onto a fingerprint that an earlier group stands for |
| `Insights.AlwaysDistinctExactlyWhen` | crates/argos-osint-core/src/atlas_insights.rs:275-298 | every list made of given claims is deduplicated to different fingerprints, if and only if no unattributed assertion among them is preferred over a qualified claim of its fingerprint with another article or source |
| `Insights.DedupeCollides` | crates/argos-osint-core/src/atlas_insights.rs:281-292 | a concrete list of three claims that leaves two with one fingerprint |
| `Insights.KeepsFingerprintsExactlyWhen` | crates/argos-osint-core/src/atlas_insights.rs:275-298 | at every prefix of the input the kept claims have exactly the fingerprints that came in, if and only if no unattributed assertion of the input takes over the claims before it that are printed like it |
| `Insights.SteadyExactlyWhen` | crates/argos-osint-core/src/atlas_insights.rs:275-298 | a step of the fold changes a fingerprint if and only if the input has such an assertion |
| `Insights.DedupeKeepsOne` | crates/argos-osint-core/src/atlas_insights.rs:275-298 | on an input without such a takeover, one claim per fingerprint |
| `Insights.DedupeKeepsBest` | crates/argos-osint-core/src/atlas_insights.rs:1582-1589 | on such an input that one is preferred over every claim of its fingerprint |
| `Insights.AgreeingIsSteady` | crates/argos-osint-core/src/atlas_insights.rs:275-298 | no step changes a fingerprint when unattributed assertions agree with the qualified claims printed like them |
| `Insights.DedupeDrifts` | crates/argos-osint-core/src/atlas_insights.rs:284-290 | a concrete input whose fingerprint deduplication loses |
| `Insights.CapKeepsTop` | crates/argos-osint-core/src/atlas_insights.rs:300-304 | a cap keeps as many as asked, loses nothing else, and cuts off nothing more confident than what it keeps |
| `Insights.LinkClaims` | crates/argos-osint-core/src/atlas_insights.rs:306-357 | the relations of every pair, in order |
| `Insights.RelationJoinsTwo` | crates/argos-osint-core/src/atlas_insights.rs:306-357 | every relation joins two different claims of the list with different fingerprints, of one entity unless they only share an article |
| `Insights.RelatedExactlyWhen` | crates/argos-osint-core/src/atlas_insights.rs:306-357 | a relation is listed if and only if two claims, one before the other, have different fingerprints and meet the condition of its kind |
| `Insights.PairsHave` | crates/argos-osint-core/src/atlas_insights.rs:308-310 | no pair of claims is passed over |
| `Insights.FinishInsights` | crates/argos-osint-core/src/atlas_insights.rs:360-395 | the settled claims and relations are those of the merged claims |
| `Insights.SettledParts` | crates/argos-osint-core/src/atlas_insights.rs:374-390 | leads come first, capped, then the deduplicated context |
| `Insights.ContextExactlyWhen` | crates/argos-osint-core/src/atlas_insights.rs:380-386 | a context claim stays if and only if a lead has its entity and none its fingerprint |
| `Insights.SettledDifferent` | crates/argos-osint-core/src/atlas_insights.rs:376-395 | the settled claims, leads and context, have pairwise distinct fingerprints unless an unattributed assertion usurps a qualified claim among the leads or among the context claims |
| `Insights.AttributedSettleDifferent` | crates/argos-osint-core/src/atlas_insights.rs:1474-1480 | claims that all name an article, as accepted ones do, settle to pairwise distinct fingerprints |
| `Insights.LeadsSettleExactlyWhen` | crates/argos-osint-core/src/atlas_insights.rs:376-395 | every list of leads made of given claims settles to distinct fingerprints if and only if none of them usurps another, unless the cap is one claim |
| `ActorIndex.CompleteExactlyWhen` | crates/argos-osint-core/src/atlas_actor_index.rs:30-34 | a pass reports complete if and only if every unit has a current receipt after it |
| `ActorIndex.CurrentExactlyWhen` | crates/argos-osint-core/src/atlas_actor_index.rs:192-200 | a receipt is current if and only if it is for the present revision and its checksum fits |
| `ActorIndex.VisitedExactlyWhen` | crates/argos-osint-core/src/atlas_actor_index.rs:202-207 | a pass visits all units before the first batch of 100 at which it is told to stop |
| `ActorIndex.AllVisited` | crates/argos-osint-core/src/atlas_actor_index.rs:202-207 | and all units if it is never told to |
| `ActorIndex.ActorlessIs` | crates/argos-osint-core/src/atlas_actor_index.rs:208-230 | the report counts the units indexed without any actor |
| `ActorIndex.PassAccounts` | crates/argos-osint-core/src/atlas_actor_index.rs:186-240 | every unit is reused, indexed, failed or unvisited; those current afterwards are the reused and the indexed; stopped exactly when some are unvisited |
| `ActorIndex.CurrentAfter` | crates/argos-osint-core/src/atlas_actor_index.rs:192-230 | a unit is current after a pass if and only if it was, or the pass indexed it |
| `ActorIndex.CurrentStays` | crates/argos-osint-core/src/atlas_actor_index.rs:169-238 | no pass over unchanged revisions loses a current receipt |
| `ActorIndex.CompleteIsStable` | crates/argos-osint-core/src/atlas_actor_index.rs:169-238 | after a complete pass the next reuses all, indexes none and changes nothing |
| `ActorIndex.Repository.IndexOne` | crates/argos-osint-core/src/atlas_actor_index.rs:208-230 | one transaction writes the receipt or leaves the old one |
| `ActorIndex.Repository.IndexBatches` | crates/argos-osint-core/src/atlas_actor_index.rs:202-238 | batches of 100, asked before each whether to stop |
| `ActorIndex.Repository.IndexRun` | crates/argos-osint-core/src/atlas_actor_index.rs:180-240 | the receipts and the report after one pass |
| `Bands.BandSizes` | crates/argos-osint-core/src/atlas.rs:306-340 | the array correction computes the specified sizes |
| `Bands.TakeBack` | crates/argos-osint-core/src/atlas.rs:319-325 | the excess is taken from the last group |
| `Bands.FillFirst` | crates/argos-osint-core/src/atlas.rs:329-337 | an empty group 1 takes one from the next group that has any |
| `Bands.SizesAreFair` | crates/argos-osint-core/src/atlas.rs:305-340 | sizes sum to `n`, group 1 is not empty for `n >= 1`, each is within one of its 20/30/30/20 share |
| `Bands.SizesAre` | crates/argos-osint-core/src/atlas.rs:305-340 | groups 2 and 3 have their rounded shares, what is missing joins group 1, one too many leaves group 4 |
| `Bands.HeatFalls` | crates/argos-osint-core/src/atlas.rs:342-353 | a later rank has no better tier and no higher temperature; temperatures lie in [0.10, 1.0] |
| `Bands.TemperatureIsEven` | crates/argos-osint-core/src/atlas.rs:342-353 | tier 2 falls from 0.99 to 0.70 and tier 3 from 0.69 to 0.10, in equal steps |
| `Bands.RankedFalls` | crates/argos-osint-core/src/atlas.rs:356-366 | ranks fall by count, and by code where counts are equal |
| `Bands.ScoreCounts` | crates/argos-osint-core/src/atlas.rs:356-383 | the bands are the first ranks with their tiers and temperatures |
| `Bands.MoreIsNeverColder` | crates/argos-osint-core/src/atlas.rs:356-383 | strictly more articles never give a worse tier or a lower temperature |
| `Bands.OmittedAreSmallest` | crates/argos-osint-core/src/atlas.rs:366-375 | a country without a band has no more articles than any with one |
| `Bands.FirstIsHottest` | crates/argos-osint-core/src/atlas.rs:356-383 | if any country has articles, the first band has tier 1 and temperature 1.0 |
| `Repair.QueueIs` | crates/argos-osint-core/src/atlas_memory.rs:1168-1183 | the queue holds exactly the past runs above the cursor, rising and each once |
| `Repair.RepairPage` | crates/argos-osint-core/src/atlas_memory.rs:1163-1213 | a page is the first runs of the queue, and moves the cursor to its last |
| `Repair.RunRepairJob` | crates/argos-osint-core/src/atlas_memory.rs:1218-1242 | the loop ends having repaired exactly the queue of its starting cursor, in order |
| `Repair.QueueFollows` | crates/argos-osint-core/src/atlas_memory.rs:1172-1180 | moving the cursor to a run leaves exactly what follows it |
| `Repair.RestartRevisitsOnePage` | crates/argos-osint-core/src/atlas_memory.rs:1218-1235 | a job killed in page `k + 1` and restarted from its saved progress repairs each run of the queue once, the first runs of that page that it had done already twice, and no other run |

## Left out

- HTTP, WebSocket and command-line handlers, the terminal and web interfaces, SurrealDB queries, telemetry, job registry writes and logging.
- Key selection, spare keys, daily quota counters and pacing in `dispatch` and `fetch_with_spare_key`: whether a quota is open is an input of every step.
- Phases 3 to 6 of the cycle apart from their pauses and the phase-6 index; the run states other than the saved cursor.
- Equality of origin totals across crashes and re-scoring: rows are written before the receipt, so totals are proved for one uninterrupted pass.
- Discovery.CountsAreReceipted: counts headlines per country without the 32-bit width, which `AtMostHundred` makes irrelevant; origins derived from counts are not part of the machine.
- Coverage.NothingIsMissed: the country list is fixed for the run of the machine; a retry cursor in phase 1 makes the code score again, and the list may be another when phase 2 restarts.
- Coverage.AskedAgainExactlyWhen: speaks of one country list, as `Coverage.NothingIsMissed` does; what phase 1 does on the way back is `Discovery.AskedAgainExactlyWhen`.
- Discovery.FaultIsRetriedExactlyWhen: says that some continuation asks again, not that every one does: quotas, pauses and further faults can keep it away for ever.
- HostFeed.MutualExclusion: the feed is a state machine over atomic accesses, not a class, because its threads interleave inside its methods; the sample values and the interval are not modelled.
- LiveTransport.KeptExactlyWhen: timers and intervals fire at any time; delays, message contents, which listeners a message reaches, and what is sent over the socket are not modelled.
- Packet.ReducedFits: speaks of the size measured while `omissions` is still empty, as the code does; the notes added afterwards can lift the serialized packet above the cap. Shortening of long fields before the loop is not modelled.
- Scrub.ScrubTextClean: for ids of several tokens the condition is sufficient; that none weaker would do is proved for ids of one token only.
- Scrub.ScrubbedExactlyWhen: object keys are not searched for ids.
- Prompt.PromptExactlyWhen: kind names, references, counts and the notes on omissions, which the program writes itself, are not searched for ids. Ids of one byte or of digits only are not known ids, as in the code; that no known id ends in an ellipsis is assumed. Which records and payloads are kept is `Packet`.
- Validate.ConvertOne: the assertion-stem, number, quotation and relation-direction tests are one abstract test of text and cited records; hedges, attribution and caveat words are abstract tests too. Host notes are not modelled. JSON parsing precedes it.
- Validate.AcceptedIsGrounded: assumes distinct record ids in the packet, which a snapshot guarantees.
- References.NumberReferences: the labels of references are not modelled.
- Normalized.NormalizedOffsets: one place for each character of the output, where the code records a byte span for each byte.
- Matcher.HitPlaces: places are characters of the source; that byte offsets fall on character boundaries is not modelled.
- Matcher.Fields: positions are characters, not bytes; a folded character carries one place however many bytes it has. The order of mentions, actor metadata and `body_actors` with its merging are not modelled.
- Names.AliasIsWords: a possessive is recognized character by character; lower-casing that changes the length of a text is not modelled.
- Inventory.RunAccounts: errors of the store end the worker and are not modelled; the recorded states, the failure flag and the entity statistics are not either.
- Classifier.BatchAdapter.Accept: the cache write, whose failure reports an error after the receipt has grown, is not modelled.
- Insights.FinishInsights: span gating of context claims, source scaling of confidences, statistics and texts are not modelled; admission of a span by the articles is an abstract test.
- Insights.SettledDifferent: usurpation is judged after aliases are merged, on the claims that are settled.
- ActorIndex.Repository.IndexRun: binding of actors is an outcome of each unit; the reconciliation after a batch is not modelled.
- Repair.RunRepairJob: what repairing one run does, and the counters that depend on it, are not modelled; the list of runs is fixed while the job runs.
- Pattern selection and free-text phrasing of the deterministic brief, and the memory phase's display helpers: they affect wording only.
