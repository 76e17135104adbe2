# Junjo: verified models of its hard parts

A Dafny 4.11 project that models the parts of Junjo whose correctness does not show from reading one
function: protocols over shared rows, a stream that must neither lose nor repeat, caches that must
not answer from the past, codecs that must agree, and a roster that must converge. `dafny verify
dfyconfig.toml` checks all of it.

What the source keeps in objects is a class here, and each of its methods is tied to a function on
the object's value (`View() == AfterX(old(View()))`). Where several processes or callbacks
interleave, those functions are the steps of a machine: `Apply` takes one step, a step that is not
enabled changes nothing, `Run` folds any sequence of steps, and the main results hold after every
sequence. Postgres appears by its contract: a row lock is held until commit or abort, a statement
sees what was committed, an abort undoes the counter. Clocks, random delays and the answers of
servers are arguments of the steps, so every choice of them is covered.

## The modules

- The event pipeline: `EventLog` numbers events inside committing transactions, `GameFeed` and
  `GameFeeds` share one tail of the log between streams, `GameEvents` is the client that reconnects
  and resumes. `EventPipeline` runs the three as one, from commit to handler. The server's stream
  route is represented by what it promises: from the resumed position on, in order, cut anywhere.
- Shared rows: `Idempotency` claims and replays keyed requests; `GroupKinds`, `IdentityLink`,
  `MembershipCaps`, `JoinWrites`, `PerUserCaps`, `HarmlessJoins` and `RejoinRace` are membership caps
  under group and per-person locks, with the merge of two people; `LastActivity` follows the audit log by a cursor.
- Permissions: `ContextGraph` validates and queries the inheritance graph,
  `ServerPermissionCache`, `PermissionKeys`, `CheckBatch`, `SharedRequests` and
  `ReactPermissionCache` are the caches and request sharing from the server to React.
- Codecs and arithmetic: `SseFraming`, `Sha256Hash` (sections 4 to 6 of FIPS 180-4, section 2 of
  RFC 2104), `Sha256Vectors` (what its constants are and one known answer) and `WebhookTime`.
- `Roster`, `RosterServer` and `RosterHook`: the reducers of the React hooks and why replay over a
  snapshot converges, what the server's writes store and publish, and the hooks running against it.
- `CaseFold`, `Common`, `InsertionOrder` and `LengthPrefix` hold what several of these share.

## Where the code falls short of its promise

Each of these is proved: a lemma gives the run or the input, and a companion says when the promise
does hold.

- `readSSEFrames` says no frame is delivered once the consumer has closed. The first frame of a read
  that had already resolved is (`GameEvents.LateFrameHappens`); nothing else is
  (`GameEvents.AfterCloseAtMostThePendingFrame`).
- A feed whose log read fails stays behind until the next wake-up or poll, even if wake-ups came in
  during the failed read (`GameFeed.FailedReadWaitsForAnotherWake`).
- Two handlers for one idempotency key are the abandon window apart from the earlier request's clock
  reading to the later claim's write (`Idempotency.OverlapsAreSpaced`). Between readings that holds
  for every handler started by a takeover, and for those alone: one that inserts into an emptied row
  can overlap at any distance above zero (`Idempotency.TakeoversOverlapIff`,
  `Idempotency.InsertsOverlapIff`). The guarantees need an insert to land within the window of its own
  reading (`Idempotency.LateInsertLetsALoserWrite`).
- A link decides from a footprint that holds the two people's own rows, not their memberships. A role,
  an override, metadata or a note written to an attached row between footprint and merge is deleted
  when the survivor has a row in that group (`IdentityLink.LinkLosesARole`), and only then
  (`IdentityLink.LinkLosesIff`).
- A rejoin reads its member row before it waits for the per-person lock and writes by row id. A link
  that moves the row meanwhile leaves the survivor over `maxPerUser` (`RejoinRace.RejoinRacesLink`), and
  so can a strayed write that finds a place left when someone else has counted it
  (`RejoinRace.OnePlaceCountedTwice`). The cap holds over every run in which each commit of a strayed
  row leaves room with the row's owner: a place now, one more for every join of theirs that has
  counted, and one in the merge of every link that has (`PerUserCaps.PeopleStayWithinMaxPerUser`). A
  commit that does not puts someone over, at once or when a transaction that had counted commits next
  (`HarmlessJoins.HarmlessIff`). The member import locks its rows and is not affected.
- Audit entries that become visible later than the overlap window are skipped for good, from the first
  millisecond of lateness on (`LastActivity.TooLateIsReached`, `LastActivity.TooLateIsNeverApplied`,
  `LastActivity.PassedEntryIsAppliedIff`).
- The documentation of `clearPermissionCache` says a check in flight no longer fills the cache. A
  single check does not; a batch does, whenever its request gets a well-formed answer and the cache
  keeps anything (`CheckBatch.ClearedCacheIsRefilledIff`, `CheckBatch.BatchRefillsClearedCache`).
- The roster hooks subscribe before they fetch, but the handshake is asynchronous: what is published
  between the snapshot and the stream's start is lost until the next refetch
  (`RosterHook.LateStreamLosesAJoin`, `RosterHook.MissingStays`). A schedule is right for every log
  exactly when the replay reaches back to the reads (`Roster.ConvergesIff`), which over every run is
  exactly when the stream had opened by then (`RosterHook.NoGapIff`).
- A public join and an accepted invitation publish an empty role list although a rejoining row keeps
  its roles. The roster lacks exactly those roles until a later event names them or the row goes
  (`RosterServer.RosterIsRightIff`, `RosterServer.ReplayShowsTheServer`).
- A link that moves or drops a listed row tells no group's stream, so the roster keeps the old row
  (`RosterServer.ActiveRosterFollowsIff`). `useMembers` does not hear of a deleted group either. With a
  filter other than "active" it cannot follow the server from events alone
  (`RosterServer.FollowsIff`, `RosterServer.OtherRostersPart`).
- memberRows.ts has a patched row's version be the one a conditional write expects. Both hooks ignore
  `member.updated`, so the version shown lags by the updates since the last patch, and a replay can set
  back a version that was loaded right (`RosterServer.ShownVersionLags`,
  `RosterServer.ReplaySetsVersionBack`).

## Model

| member | source | states |
|---|---|---|
| `EventLog.LogTables.WriteGame` | packages/server/src/eventLog.ts:51-65 | one statement moves a game's counter by the number of events and inserts rows numbered from the old counter up, nothing else |
| `EventLog.LogTables.WriteEventLog` | packages/server/src/eventLog.ts:43-67 | for every game at once: its counter and rows move as if its own events, in staging order, had been written alone |
| `EventLog.GroupByGame` | packages/server/src/eventLog.ts:44-49 | a game has a list exactly when an event names it, and the list is its events in order |
| `EventLog.RunKeeps` | packages/server/src/eventLog.ts:24-98 | every interleaving of staging, flushing, single statements, commits, aborts and sweeps keeps counters, locks and committed rows consistent |
| `EventLog.PositionsAreGapless` | packages/server/src/eventLog.ts:51-65 | the positions ever committed for a game are exactly 1..counter, each once, whatever aborted in between |
| `EventLog.StepAppends` | packages/server/src/eventLog.ts:72-98 | each step appends to each game's log exactly the events it commits there: a lone statement its own, a commit those of its queue, any other step none |
| `EventLog.QueueIsWhatWasStaged` | packages/server/src/eventLog.ts:30-37 | whatever other transactions do in between, a running transaction's queue is the concatenation, in step order, of what it staged since it began and before its flush |
| `EventLog.CommitAppendsWhatWasStaged` | packages/server/src/eventLog.ts:84-92 | every commit that takes effect appends to each game's log that game's events of this concatenation, none dropped, repeated or reordered |
| `EventLog.LaterCommitsLieAbove` | packages/server/src/eventLog.ts:20-24 | once a position is visible, no row at or below it is committed later |
| `EventLog.StepShows` | packages/server/src/eventLog.ts:51-65 | a row becomes visible with the step that commits it and stays so until a sweep takes it |
| `EventLog.LogHoldsItsOwnEvents` | packages/server/src/eventLog.ts:44-49 | in every run a game's log holds events of that game alone |
| `EventLog.NoWaitCycle` | packages/server/src/eventLog.ts:39-50 | writing games in sorted order leaves no cycle of waits on counter locks |
| `EventLog.NoDeadlock` | packages/server/src/eventLog.ts:39-50 | whenever some transaction is flushing, some transaction can make its next step |
| `EventLog.TransactionCommits` | packages/server/src/eventLog.ts:77-92 | from any state of a run, a transaction nobody stands in the way of commits, one write for each game, and its events end up in their games' logs in staging order |
| `GameFeed.GameFeed.EventsAfter` | packages/server/src/gameFeed.ts:52-57 | null exactly when the cursor lies before the window, else the window from the cursor on |
| `GameFeed.GameFeed.Wake` | packages/server/src/gameFeed.ts:65-85 | starts a read unless one runs, in which case it only leaves a mark; says which |
| `GameFeed.GameFeed.PageArrived` | packages/server/src/gameFeed.ts:73-84 | a page ends the pass, starts it over when woken meanwhile, or goes on after a full page |
| `GameFeed.ReadLogReads` | packages/server/src/eventLog.ts:121-138 | a page holds rows of the log in increasing order, and reaches every unswept position unless it filled up first |
| `GameFeed.ReadLogSkipsNothing` | packages/server/src/eventLog.ts:121-138 | a page is exactly the unswept rows after its cursor, up to where it filled up |
| `GameFeed.WindowAnswersExactly` | packages/server/src/gameFeed.ts:95-114 | in every run the window is a run of consecutive positions ending at head, within its cap, and a cursor inside it is answered with exactly the log after it |
| `GameFeed.PageKeepsTheNewest` | packages/server/src/gameFeed.ts:98-108 | a page that follows on leaves in the window the newest thousand of what was there and the page, and the head at its last row |
| `GameFeed.PageStartsOverAtAJump` | packages/server/src/gameFeed.ts:98-108 | where rows had been swept the window starts over at the page's last jump in position |
| `GameFeed.NoWakeUpIsLost` | packages/server/src/gameFeed.ts:65-85 | absent failures and stop, with no read in progress, everything committed before the last wake and not swept is at or below head |
| `GameFeed.WokenFeedCatchesUp` | packages/server/src/gameFeed.ts:65-85 | from any state of any run, after a wake-up the reads it takes leave the feed idle with everything committed by then and not swept at or below its head |
| `GameFeed.QuietPassIsOneRead` | packages/server/src/gameFeed.ts:94-113 | a pass nobody wakes is one read when its page is not full |
| `GameFeed.IdleStays` | packages/server/src/gameFeed.ts:65-85 | without a wake-up an idle feed stays where it is, whatever is committed or swept |
| `GameFeed.FailedReadWaitsForAnotherWake` | packages/server/src/gameFeed.ts:78-83 | after a read that fails, wake-ups during it included, nothing moves the feed until the next wake-up, whatever follows |
| `GameFeed.StopEnds` | packages/server/src/gameFeed.ts:87-94 | a stopped feed stays stopped and empty at its head; the read in flight is its last |
| `GameFeeds.Feeds.Acquire` | packages/server/src/gameFeed.ts:131-155 | joins the game's entry or makes one, counting the stream |
| `GameFeeds.Feeds.Release` | packages/server/src/gameFeed.ts:157-164 | gives the count back; the last one drops the entry and stops the feed |
| `GameFeeds.HeldFeedsRun` | packages/server/src/gameFeed.ts:119-164 | in every interleaving of starts, failed starts, joins and releases a held feed runs, and no other feed of its game starts or runs |
| `GameFeeds.NoFeedIsLeaked` | packages/server/src/gameFeed.ts:157-164 | a feed that starts or runs has a stream; a stopped one has none |
| `GameFeeds.StagesMove` | packages/server/src/gameFeed.ts:147-164 | a waiting stream holds its feed exactly once it has started, is refused exactly when the start failed, and a holder lets go once |
| `GameFeeds.PhasesMove` | packages/server/src/gameFeed.ts:131-164 | a feed starts or fails as its position read says and stops exactly when the last stream holding it lets go |
| `GameFeeds.AcquireJoinsOrMakes` | packages/server/src/gameFeed.ts:128-146 | a new stream waits for the game's starting or running feed, and makes one exactly when there is none |
| `GameFeeds.FirstStreamStartsAFeed` | packages/server/src/gameFeed.ts:128-164 | a game without a feed gets one by its first stream, which holds it once started; letting go stops it again |
| `GameEvents.GameSubscription.OnFrame` | packages/sdk/src/gameEvents.ts:285-300 | one frame: stability, position and delivery move together, and an error or a closing handler ends the subscription |
| `GameEvents.GameSubscription.PumpChunk` | packages/sdk/src/gameEvents.ts:285-309 | a whole read, frame by frame until the consumer closes, and then the end of the stream |
| `GameEvents.GameSubscription.OnAccepted` | packages/sdk/src/gameEvents.ts:311-349 | a reconnect resumes from its position, a resync jumps and reports the gap; a connection accepted after close is dropped |
| `GameEvents.GameSubscription.OnRejected` | packages/sdk/src/gameEvents.ts:231-241 | 410 resyncs once or fails, other 4xx fail, the rest retry |
| `GameEvents.GameSubscription.ScheduleRetry` | packages/sdk/src/gameEvents.ts:217-229 | the retry timer, the attempt and the delay bound of one failure |
| `GameEvents.HandlerSeesTheLog` | packages/sdk/src/gameEvents.ts:285-349 | over every run of cuts, failed reconnects, resumes and resyncs the handler got exactly the wanted log entries from the start to the position, in order, each once, save the gaps resyncs reported |
| `GameEvents.WantedIsExact` | packages/sdk/src/gameEvents.ts:139-156 | what is wanted of a stretch of the log is each entry of a type asked for, or of any when none was, that this SDK knows, once and in order |
| `GameEvents.NoGapWithoutResync` | packages/sdk/src/gameEvents.ts:231-241 | without a resync handler there is no gap at all |
| `GameEvents.NeverResyncs` | packages/sdk/src/gameEvents.ts:233-236 | and no resync is ever attempted |
| `GameEvents.OneActivity` | packages/sdk/src/gameEvents.ts:197-277 | while not closed exactly one of an open, a live stream and a retry timer exists; closed, no timer is armed and at most an open or a stream is left to settle; at most one error, only of a closed subscription |
| `GameEvents.ErrorExactlyWhenGivingUp` | packages/sdk/src/gameEvents.ts:209-241 | an open subscription calls onError, once, and closes exactly when an open was refused for good, a 410 met no resync handler or answered a resync, the frame cap was exceeded, the stream ended with reconnecting off, or a frame was malformed or its handler threw before the handler closed |
| `GameEvents.RetriesExactlyWhen` | packages/sdk/src/gameEvents.ts:217-277 | it waits for one more attempt exactly after a transient refusal or a stream that ended, and resyncs exactly on a 410 to a reconnect with a resync handler |
| `GameEvents.RetryReconnects` | packages/sdk/src/gameEvents.ts:224-227 | when the timer of a waiting subscription fires it reconnects from its position |
| `GameEvents.AcceptOpens` | packages/sdk/src/gameEvents.ts:311-349 | an accepted open of an open subscription is read from at once: a reconnect from its own position, a resync from the end of the log with the jump recorded |
| `GameEvents.BackoffStartsOverWhen` | packages/sdk/src/gameEvents.ts:243-283 | the backoff starts over exactly on a handled frame or the stability timer, which each opened stream arms |
| `GameEvents.CapGrows` | packages/sdk/src/gameEvents.ts:218-221 | the delay cap starts at the initial delay and doubles thirty times at most, within the maximum |
| `GameEvents.AnyDelayBelowTheCap` | packages/sdk/src/gameEvents.ts:218-222 | any delay below the cap can come up, and no other |
| `GameEvents.DelaysAreCapped` | packages/sdk/src/gameEvents.ts:217-251 | each delay since the stream last proved itself is at most the cap of its attempt |
| `GameEvents.AfterCloseAtMostThePendingFrame` | packages/sdk/src/gameEvents.ts:197-207 | after close only the first frame of a read that had already resolved can still be delivered |
| `GameEvents.LateFrameHappens` | packages/sdk/src/sse.ts:38-56 | and it can: one event reaches the handler after close, although the reader promises none does |
| `EventPipeline.NextRowIsNext` | packages/server/src/gameFeed.ts:52-57 | what a stream is sent from the feed window, or from a page of the log, is the committed row after its cursor |
| `EventPipeline.NextRowIff` | packages/server/src/routes/gameEvents.ts:201-222 | the next row is there exactly when the window reaches back to the cursor and on past it, or, behind the window, when it is not swept |
| `EventPipeline.ServeSendsIff` | packages/server/src/routes/gameEvents.ts:201-229 | the route moves on by one row, and sends it if its type is asked for, exactly then; nothing else sends |
| `EventPipeline.FeedSeesTheDatabase` | packages/server/src/eventLog.ts:105-138 | in every run the feed reads what the database shows: a row counts as swept for it exactly when a sweep has taken it |
| `EventPipeline.EventsReachTheHandler` | packages/server/src/eventLog.ts:20-24 | database, feed, route and client interleaved at will: the handler got committed rows of its game in position order, each once, and from its start to its position lacks none it handles outside the reported gaps |
| `EventPipeline.CommittedEventsArrive` | packages/server/src/routes/gameEvents.ts:195-225 | from any state of any run in which the subscription is open and may reconnect, the feed runs and nothing beyond the subscription's position is swept: the feed's reads, the route and the subscriber alone bring the handler every row of the log it handles, save those in a reported gap |
| `EventPipeline.CommittedRowsAreServed` | packages/server/src/gameFeed.ts:65-85 | with the feed idle and no read failed, every unswept row committed before the last wake-up is there for any stream that has not had it |
| `SseFraming.MatchDelimiterAt` | packages/sdk-cpp/src/sse_parser.cpp:15-29 | the end of the delimiter starting here, the only one there can be, or 0 |
| `SseFraming.FirstDelimiterIsStable` | packages/sdk-cpp/src/sse_parser.cpp:86-104 | more input never moves a delimiter already found |
| `SseFraming.ExtractAppend` | packages/sdk/src/sse.ts:50-58 | framing a stream in two parts is framing the first and then its rest with the second |
| `SseFraming.DelimitersAreShort` | packages/sdk-cpp/src/sse_parser.cpp:86-104 | after a scan that found nothing, no extension of the buffer has a delimiter beginning before its last three bytes |
| `SseFraming.SseParser.Feed` | packages/sdk-cpp/src/sse_parser.cpp:72-106 | the scan from the remembered place yields the frames and the retained buffer of scanning everything from zero; overflow exactly past the cap, for good |
| `SseFraming.ParseSseFrame` | packages/sdk-cpp/src/sse_parser.cpp:40-70 | line by line consumption of a block computes the frame of its lines |
| `SseFraming.ParseSSEFrame` | packages/sdk/src/events.ts:562-575 | the split-based parser computes the same frame |
| `SseFraming.FeedAll` | packages/sdk-cpp/src/sse_parser.cpp:72-106 | any number of feeds: the frames and buffer of the concatenation |
| `SseFraming.ReadSSEFrames` | packages/sdk/src/sse.ts:31-60 | the reader delivers what the parser would, stops within a frame of the consumer closing, and overflows alike |
| `SseFraming.DrainBuffer` | packages/sdk/src/sse.ts:50-58 | the inner loop: all complete blocks, or those up to the consumer closing |
| `SseFraming.ReadingIsFraming` | packages/sdk/src/sse.ts:31-60 | short of overflow, reading in chunks is framing the whole stream |
| `SseFraming.ChunkingIsIrrelevant` | packages/sdk-cpp/src/sse_parser.cpp:72-106 | two chunkings of one stream on which neither overflows give the same frames |
| `SseFraming.PrintedFrameReadsBack` | packages/sdk/src/events.ts:562-575 | a frame printed with LF or CRLF lines reads back as that frame and leaves nothing |
| `SseFraming.PrintedStreamReadsBack` | packages/sdk/src/events.ts:562-575 | and so does a stream of frames |
| `Sha256Hash.BuildSchedule` | packages/sdk-cpp/src/hmac_sha256.cpp:79-93 | the array holds the message schedule of section 6.2.2 of FIPS 180-4 |
| `Sha256Hash.RunRounds` | packages/sdk-cpp/src/hmac_sha256.cpp:95-119 | the eight working variables after the 64 rounds |
| `Sha256Hash.Sha256State.CompressBuffer` | packages/sdk-cpp/src/hmac_sha256.cpp:79-129 | the state becomes the compression of the buffered block into it |
| `Sha256Hash.Sha256State.Update` | packages/sdk-cpp/src/hmac_sha256.cpp:33-47 | whatever its size, the data is appended to what was fed; the counter wraps at 64 bits |
| `Sha256Hash.Sha256State.Absorb` | packages/sdk-cpp/src/hmac_sha256.cpp:36-45 | one pass of the copy loop, compressing exactly when the block fills |
| `Sha256Hash.Sha256State.Pad` | packages/sdk-cpp/src/hmac_sha256.cpp:52-58 | the wrap-around loop ends, having fed 0x80 and the zeros of section 5.1.1 |
| `Sha256Hash.Sha256State.Finish` | packages/sdk-cpp/src/hmac_sha256.cpp:49-76 | the digest of everything fed, padded with the counted length |
| `Sha256Hash.LengthBytes` | packages/sdk-cpp/src/hmac_sha256.cpp:59-62 | the shifts write the length big-endian |
| `Sha256Hash.BigEndianReadsBack` | packages/sdk-cpp/src/hmac_sha256.cpp:59-62 | big-endian bytes give the number back |
| `Sha256Hash.HashPieces` | packages/sdk-cpp/src/hmac_sha256.cpp:33-76 | for every split of a message under 2^61 bytes into updates, finish is the one-shot hash |
| `Sha256Hash.Sha256Of` | packages/sdk-cpp/src/hmac_sha256.cpp:141-145 | the one-shot entry point equals the specification |
| `Sha256Hash.PadKey` | packages/sdk-cpp/src/hmac_sha256.cpp:150-159 | long keys hashed, short ones zero-padded to the block |
| `Sha256Hash.HmacSha256` | packages/sdk-cpp/src/hmac_sha256.cpp:147-177 | section 2 of RFC 2104 for keys of any length |
| `Sha256Vectors.HmacByItsPads` | packages/sdk-cpp/src/hmac_sha256.cpp:147-177 | for any two pads that are the hashed or zero-filled key xor 0x36 and xor 0x5c byte by byte, the nested hash over them is the result |
| `Sha256Hash.PaddingIsInjective` | packages/sdk-cpp/src/hmac_sha256.cpp:49-66 | no two messages have one padded form |
| `Sha256Hash.LengthFieldFits` | packages/sdk-cpp/src/hmac_sha256.cpp:52 | below 2^61 bytes neither the counter nor the bit length wraps |
| `Sha256Vectors.RotrRotates` | packages/sdk-cpp/src/hmac_sha256.cpp:26-28 | the low bits come round to the top and the others move down under them |
| `Sha256Vectors.ChChooses` | packages/sdk-cpp/src/hmac_sha256.cpp:106 | on any bits: where the first word has ones the choice is the second, where zeros the third |
| `Sha256Vectors.MajAgrees` | packages/sdk-cpp/src/hmac_sha256.cpp:109 | on any bits: where two words agree the majority is what they agree on |
| `Sha256Vectors.InitialHashIsSquareRoots` | packages/sdk-cpp/src/hmac_sha256.cpp:131-133 | the initial hash value is the first 32 bits of the fractions of the square roots of the first eight primes |
| `Sha256Vectors.RoundConstantsAreCubeRoots` | packages/sdk-cpp/src/hmac_sha256.cpp:11-24 | round constant t is the first 32 bits of the fraction of the cube root of the t-th prime, for all 64 |
| `Sha256Vectors.DigestOfAbc` | packages/sdk-cpp/src/hmac_sha256.cpp:79-129 | the digest of the one-block message "abc" is the known answer, computed word by word and round by round |
| `WebhookTime.NextDateCountsOne` | packages/sdk-cpp/src/webhooks.cpp:174-182 | the day count of the next date is one more |
| `WebhookTime.DaysFromCivilCounts` | packages/sdk-cpp/src/webhooks.cpp:164-172 | the closed formula is the recursively counted number of days since 1970-01-01, for every valid date |
| `WebhookTime.DayNumbersFollowDates` | packages/sdk-cpp/src/webhooks.cpp:164-172 | it is strictly monotone and injective |
| `WebhookTime.ReadDigits` | packages/sdk-cpp/src/webhooks.cpp:150-160 | succeeds exactly on that many digits, with their value |
| `WebhookTime.ParseHead` | packages/sdk-cpp/src/webhooks.cpp:193-215 | date and time of day, exactly on that shape |
| `WebhookTime.ReadFraction` | packages/sdk-cpp/src/webhooks.cpp:217-227 | the loop counts the digits and keeps the leading three |
| `WebhookTime.ParseFraction` | packages/sdk-cpp/src/webhooks.cpp:217-231 | one to nine digits, scaled to milliseconds, or refused |
| `WebhookTime.ParseZone` | packages/sdk-cpp/src/webhooks.cpp:233-252 | Z or a signed offset ending the text, or refused |
| `WebhookTime.ParseIso8601Ms` | packages/sdk-cpp/src/webhooks.cpp:192-262 | the staged parser computes the timestamp the text denotes, refusing all else |
| `WebhookTime.PrintedTimestampReadsBack` | packages/sdk-cpp/src/webhooks.cpp:192-262 | any printed valid date-time with any fraction and zone parses to its instant, shifted by exactly the offset |
| `WebhookTime.PrintedTimestampMeans` | packages/sdk-cpp/src/webhooks.cpp:254-261 | and the instant is the days since 1970-01-01, the time of day and the fraction, less what the zone is east of UTC |
| `WebhookTime.AcceptedIsPrinted` | packages/sdk-cpp/src/webhooks.cpp:192-262 | whatever is accepted is the print of a valid date-time |
| `WebhookTime.IsoStringReadsBack` | packages/sdk-cpp/src/webhooks.cpp:184-192 | the parser inverts the ISO printer for every millisecond of years 0 to 9999 |
| `WebhookTime.FractionTruncates` | packages/sdk-cpp/src/webhooks.cpp:217-231 | longer fractions are truncated, not rounded |
| `WebhookTime.ResultsAreBounded` | packages/sdk-cpp/src/webhooks.cpp:258-261 | results stay far within 64 bits |
| `Idempotency.ReplayRepeatsTheAnswer` | packages/server/src/idempotency.ts:52-64 | a replay has the first answer's status, its body unless the status is 204 or 304, and of its headers exactly content-type and etag, with the replay mark |
| `Idempotency.RecordRow.CreateMany` | packages/server/src/idempotency.ts:156-160 | inserts only into an empty row |
| `Idempotency.RecordRow.TakeStale` | packages/server/src/idempotency.ts:179-191 | replaces the row only while it is the claim that was seen, in the state that was seen |
| `Idempotency.RecordRow.Complete` | packages/server/src/idempotency.ts:117-128 | completes only its own claim time's in-progress row |
| `Idempotency.RecordRow.Release` | packages/server/src/idempotency.ts:131-136 | deletes only its own claim time's in-progress row |
| `Idempotency.RecordRow.Sweep` | packages/server/src/idempotency.ts:209-218 | deletes the row once it is older than the retention window |
| `Idempotency.EachClaimIsTakenOnce` | packages/server/src/idempotency.ts:140-145 | over every timely run no claim time is taken over twice |
| `Idempotency.OneTakerWins` | packages/server/src/idempotency.ts:175-192 | of two takers of one stale claim the first to write wins and is recorded, and the other re-reads |
| `Idempotency.LoserNeverWrites` | packages/server/src/idempotency.ts:115-137 | a handler whose claim was taken over changes nothing when it ends, however it ends |
| `Idempotency.EndOfTheOwner` | packages/server/src/idempotency.ts:99-137 | a handler that still holds the key completes the record with its matched answer below 500; any other end leaves no record; a failed write leaves the claim in progress |
| `Idempotency.DeathLeavesTheClaim` | packages/server/src/idempotency.ts:16-18 | a process that dies leaves its claim as it was, in progress until it counts as abandoned |
| `Idempotency.FailuresAreNeverKept` | packages/server/src/idempotency.ts:99-110 | in every run nothing stored, finished or replayed has a status of 500 or more |
| `Idempotency.OverlapsAreSpaced` | packages/server/src/idempotency.ts:16-18 | handlers for one key overlap only when the later claim was written at least the abandon window after the earlier request read the clock |
| `Idempotency.NoStartAfterStored` | packages/server/src/idempotency.ts:172-177 | within the retention window of a completed claim no handler starts |
| `Idempotency.ReplaysMatch` | packages/server/src/idempotency.ts:195-200 | a replay carries the answer of a finished request with the same fingerprint |
| `Idempotency.RetryOutcome` | packages/server/src/idempotency.ts:172-201 | a retry that finds a record within five minutes of an unfinished claim or a day of a completed one gets a conflict on another fingerprint, "in progress" before the first request finished, else the answer that request got; later it goes on to take the record over |
| `Idempotency.ThreeRounds` | packages/server/src/idempotency.ts:154-205 | a request whose round is lost tries again at the insert; one that loses its third round is told "in progress" |
| `Idempotency.TakeoversAreSpaced` | packages/server/src/idempotency.ts:16-18 | between clock readings: a handler started by a takeover read its clock at least the abandon window after every earlier one still running |
| `Idempotency.TakeoversOverlapIff` | packages/server/src/idempotency.ts:179-191 | a takeover can overlap an earlier handler at exactly the distances from the abandon window on |
| `Idempotency.InsertsOverlapIff` | packages/server/src/idempotency.ts:155-160 | an insert into an emptied row can at exactly the distances above zero: the only branch that misses the spacing |
| `Idempotency.LateInsertLetsALoserWrite` | packages/server/src/idempotency.ts:155-160 | an insert landing a whole window late lets a loser store its answer under another fingerprint, so the timing assumption is needed |
| `GroupKinds.RowsCountGroups` | packages/server/src/groupKinds.ts:83-93 | under the unique key the rows the query counts are as many as the groups |
| `GroupKinds.KindLimitFailures` | packages/server/src/groupKinds.ts:71-110 | over the per-user limit fails; of the rest, in request order, one fails exactly when the eligible people before it already fill the group |
| `GroupKinds.AdmittedFillTheRoom` | packages/server/src/groupKinds.ts:99-107 | those admitted are as many as are eligible or as fit, whichever is less |
| `GroupKinds.AllAdmitted` | packages/server/src/groupKinds.ts:71-110 | nobody fails exactly when nobody is over the limit and there is room for all |
| `IdentityLink.LoadFootprint` | packages/server/src/identityLink.ts:96-185 | the loop with its early exit reports something held exactly when there is a second identity or one in another game, a relationship, tag, visibility row, game ban, history, sanction, sanction history, moderation state, or a membership that carries something; banned exactly when an unexpired game ban or group ban of this game exists |
| `IdentityLink.PlanLink` | packages/server/src/identityLink.ts:210-240 | refused exactly when someone is banned, both hold something or a kind would overflow; the attached person never holds anything |
| `IdentityLink.CarriesOrNothing` | packages/server/src/identityLink.ts:156-181 | a membership counts exactly when it is a ban, or active with an override, a note, metadata other than null or an empty object, or a role that is not the group's default |
| `IdentityLink.MemberTable.MergePeople` | packages/server/src/identityLink.ts:252-281 | the bulk delete and update leave the merged table |
| `IdentityLink.MergeKeepsOneRowEach` | packages/server/src/identityLink.ts:263-281 | one row per group and person survives a merge |
| `IdentityLink.MergeJoinsMemberships` | packages/server/src/identityLink.ts:263-281 | the survivor is in every group either was in, the attached person in none |
| `IdentityLink.LinkLosesNothing` | packages/server/src/identityLink.ts:88-95 | with no member write between footprint and merge: every other row is untouched, every attached row moves whole, and a dropped one is no ban and, if active, has no override, no note, null or empty metadata and only default roles |
| `IdentityLink.LinkLosesIff` | packages/server/src/identityLink.ts:210-281 | with member writes between footprint and merge: something carried is deleted exactly when the last write to an attached row in a survivor's group leaves it carrying |
| `IdentityLink.LinkLosesARole` | packages/server/src/identityLink.ts:265-273 | and it happens: a role assigned in between goes with the dropped row |
| `IdentityLink.MergedGroups` | packages/server/src/groupKinds.ts:130-135 | the survivor's active groups after a merge, exactly |
| `MembershipCaps.FitsIsNoFailure` | packages/server/src/groupKinds.ts:71-110 | the check in the machine passes exactly when `kindLimitFailures` finds no failure |
| `MembershipCaps.RunKeeps` | packages/server/src/groupKinds.ts:40-64 | every interleaving keeps the group lock discipline and the counts made under it |
| `MembershipCaps.GroupsStayWithinMaxMembers` | packages/server/src/groupKinds.ts:96-108 | over every run of joins, batches, departures, idle sweeps and merges no group exceeds its member cap |
| `MembershipCaps.LoneJoinLandsIff` | packages/server/src/routes/groups.ts:1118-1168 | a join nobody stands in the way of writes its one row exactly when the person is not active in the group, has a place left in their own cap and the group has room; either way it leaves no lock |
| `MembershipCaps.OneRowWritten` | packages/server/src/routes/groups.ts:1150-1164 | a membership write leaves the found row active with no ban and one version on, or a fresh row of version one |
| `MembershipCaps.DepartFreesAPlace` | packages/server/src/groupKinds.ts:40-64 | a departure under a free lock changes one active row and frees exactly one place |
| `MembershipCaps.LastOneOutEndsTheGroup` | packages/server/src/groupKinds.ts:229-245 | it ends its group exactly when it leaves nobody active there and the kind deletes empty groups |
| `MembershipCaps.SweptGroupsDoNotCount` | packages/server/src/groupKinds.ts:255-303 | an idle sweep of an unlocked group ends it, and it counts for nobody any more |
| `MembershipCaps.JoinTakesItsLocks` | packages/server/src/groupKinds.ts:113-134 | a join takes the per-user locks of the people it adds for its group's kind, if that is capped, all at once or, while one is held, none |
| `MembershipCaps.LinkTakesItsLocks` | packages/server/src/groupKinds.ts:137-151 | a link takes the locks of both people for every capped kind of its game in the same way |
| `JoinWrites.JoinAddsExactly` | packages/server/src/routes/groups.ts:1143-1168 | a join that lands adds its group for exactly the people its rows belong to by then |
| `PerUserCaps.HeldDoNotGrow` | packages/server/src/groupKinds.ts:113-134 | while a transaction holds people's per-user locks, nobody else adds to the groups they are counted in, save by writing a row that strayed to one of them |
| `PerUserCaps.PeopleStayWithinMaxPerUser` | packages/server/src/groupKinds.ts:64-93 | over every run in which each commit of a strayed row leaves room with the row's owner, for the owner, the joins and the links that have counted them, nobody is ever over a per-user cap |
| `HarmlessJoins.HarmlessIff` | packages/server/src/groupKinds.ts:64-93 | and only then: a commit that leaves no room puts someone over at once, or when a transaction that had counted them commits next |
| `HarmlessJoins.CapKeptIffHarmless` | packages/server/src/groupKinds.ts:64-93 | so over every run harmless so far |
| `RejoinRace.RejoinKeepsCapIff` | packages/server/src/routes/groups.ts:1331-1342 | taken by itself, a write by row id keeps the cap of whoever the row belongs to exactly when they have a place left |
| `RejoinRace.OnePlaceCountedTwice` | packages/server/src/routes/groups.ts:1143-1164 | which is not enough over a run: a strayed write takes a place the owner's own rejoin has counted, and both land |
| `RejoinRace.RejoinRacesLink` | packages/server/src/routes/groups.ts:1320-1340 | a concrete run in which a link moves the row first and the survivor ends over the cap |
| `LastActivity.BatchCatchesUp` | packages/server/src/lastActivity.ts:68-95 | after a batch every entry visible to it at or below the cursor has been applied |
| `LastActivity.BatchStoresWhatItApplies` | packages/server/src/lastActivity.ts:96-145 | after a batch every identity that an entry of its page or reread names is stored at that entry's time or later, and a value it changes is raised to the time of such an entry |
| `LastActivity.NothingIsMissed` | packages/server/src/lastActivity.ts:12-18 | over every run in which entries commit within the window, size limits, stale snapshots and rolled back batches included, such an entry was applied by a batch of the run and is in the stored activity |
| `LastActivity.AppliedIsStored` | packages/server/src/lastActivity.ts:96-145 | over every run, whatever counts as applied was in the page or reread of a batch, and each identity it named then is stored at its time or later |
| `LastActivity.StoredOnlyRises` | packages/server/src/lastActivity.ts:96-145 | over every run the stored activity of an identity is the latest time of the entries naming it that the batches among the steps applied, and a step only raises it |
| `LastActivity.PassedEntryIsAppliedIff` | packages/server/src/lastActivity.ts:84-90 | an entry behind the cursor is picked up exactly when created within the window behind it |
| `LastActivity.TooLateIsNeverApplied` | packages/server/src/lastActivity.ts:12-18 | past that it is never applied, whatever follows |
| `LastActivity.TooLateIsReached` | packages/server/src/lastActivity.ts:12-18 | a run from the start gets there at any lateness above zero, and is prompt at exactly zero |
| `LastActivity.PageExists` | packages/server/src/lastActivity.ts:73-83 | the page a batch applies exists for every log and cursor |
| `LastActivity.CatchUp` | packages/server/src/lastActivity.ts:190-204 | the totals are those of the claimed batches up to the first one that is not claimed, is short of full or is told to stop |
| `LastActivity.SumAdds` | packages/server/src/lastActivity.ts:190-204 | the totals count the batches and add up what each applied and raised |
| `ContextGraph.ShapeCheck.Visit` | packages/server/src/permissionContext.ts:219-239 | the memoised search: sound progress, a real closed walk, or a chain past the limit |
| `ContextGraph.InheritanceShapeProblem` | packages/server/src/permissionContext.ts:214-245 | no problem exactly when the graph is acyclic with chains within the limit; a reported cycle is a closed walk |
| `ContextGraph.ExpandFrontier` | packages/server/src/permissionContext.ts:139-152 | one level of the search: the next distance, exactly |
| `ContextGraph.ContextChain` | packages/server/src/permissionContext.ts:131-154 | terminates on every graph with exactly the values within sixteen steps at their distances; without inheritance for the key, the value alone |
| `ContextGraph.WithinIsReachable` | packages/server/src/permissionContext.ts:131-154 | the values within a number of steps are those a walk of that length reaches |
| `ContextGraph.ChainDistancesAreShortest` | packages/server/src/permissionContext.ts:126-154 | the distances are those of shortest walks |
| `ContextGraph.ValidKeyMeans` | packages/server/src/permissionContext.ts:44-50 | a key is accepted exactly when it is one to 32 lowercase letters, digits and underscores, the first a letter |
| `ContextGraph.ValidValueMeans` | packages/server/src/permissionContext.ts:35-63 | a value exactly when it has one to 64 characters, none below a space and none from delete to the last C1 control |
| `ContextGraph.EdgesAreParents` | packages/server/src/permissionContext.ts:139-146 | a step of a walk goes to a declared parent, and to any of them |
| `ContextGraph.NormalizeParents` | packages/server/src/permissionContext.ts:196-203 | accepted exactly when every parent is valid; folded and without repeats |
| `ContextGraph.NormalizeEntries` | packages/server/src/permissionContext.ts:174-204 | accepted exactly on valid, unrepeated entries, as their folded graph |
| `ContextGraph.NormalizeInherit` | packages/server/src/permissionContext.ts:173-207 | accepted exactly on acceptable sources; a refused cycle is real |
| `ContextGraph.NormalizeContextInheritance` | packages/server/src/permissionContext.ts:162-210 | accepted exactly when every key and source is |
| `ContextGraph.NormalizedConfigKeeps` | packages/server/src/permissionContext.ts:162-210 | every key of the list is in the configuration with its own graph |
| `ContextGraph.FoldSourceKeepsEdges` | packages/server/src/permissionContext.ts:180-204 | folding loses no entry and no parent |
| `ContextGraph.StoredGraphIsFolded` | packages/server/src/permissionContext.ts:31-34 | a stored graph is its own folding, so a query folds in vain |
| `ContextGraph.AcceptedChainIsComplete` | packages/server/src/permissionContext.ts:126-154 | on every accepted source the bound truncates nothing: the chain is the full reachable set |
| `ContextGraph.AcceptedConfigIsComplete` | packages/server/src/permissionContext.ts:162-210 | and so for every key of an accepted configuration |
| `CaseFold.FoldLowers` | packages/server/src/permissionContext.ts:31-33 | a fold raises each letter of A to Z by 32, leaves every other character, and yields none of A to Z |
| `CaseFold.FoldIdentifiesCase` | packages/sdk/src/permissionContext.ts:3-7 | two values fold alike exactly when they have one length and, place by place, equal characters or a letter of A to Z and the one 32 above it |
| `ServerPermissionCache.KeyIsInjective` | packages/server/src/permissionCache.ts:82-97 | two checks share a key exactly when they are equal, whatever characters they hold |
| `ServerPermissionCache.PermissionCache.Evict` | packages/server/src/permissionCache.ts:99-107 | removes the key everywhere, index sets included, leaving none empty |
| `ServerPermissionCache.PermissionCache.EvictOverflow` | packages/server/src/permissionCache.ts:71-79 | evicts exactly the oldest keys beyond the cap |
| `ServerPermissionCache.PermissionCache.Get` | packages/server/src/permissionCache.ts:109-126 | a live answer, moved to the end; an expired one is evicted |
| `ServerPermissionCache.PermissionCache.Set` | packages/server/src/permissionCache.ts:128-152 | replaces, files under every group it depends on, trims |
| `ServerPermissionCache.PermissionCache.SweepExpired` | packages/server/src/permissionCache.ts:155-165 | evicts exactly the expired answers and counts them |
| `ServerPermissionCache.PermissionCache.InvalidateGroup` | packages/server/src/permissionCache.ts:167-175 | evicts exactly the group's dependants |
| `ServerPermissionCache.PermissionCache.SetMaxEntries` | packages/server/src/permissionCache.ts:64-67 | a lower cap evicts the oldest at once |
| `ServerPermissionCache.SetKeeps` | packages/server/src/permissionCache.ts:128-152 | a set keeps the two-way index and the cap and never evicts what it just stored |
| `ServerPermissionCache.DependantsAreExact` | packages/server/src/permissionCache.ts:167-175 | what remains after an invalidation is exactly what does not depend on the group |
| `ServerPermissionCache.AnswersAreCurrent` | packages/server/src/permissionCache.ts:109-175 | over every run an answer is the one the steps last set for exactly that check, within its lifetime, with no clear and no invalidation of a group it depends on since |
| `ServerPermissionCache.AnswersAreExact` | packages/server/src/permissionCache.ts:109-175 | while no more keys than the cap have been set, the cache answers every check exactly so: neither more nor less |
| `ServerPermissionCache.SweepLeavesTheLive` | packages/server/src/permissionCache.ts:155-165 | a sweep leaves exactly the entries that have not expired, and the cap is always the one last asked for, at least one |
| `ServerPermissionCache.EvictsLeastRecentlyUsed` | packages/server/src/permissionCache.ts:69-79 | what a new answer pushes out was used before everything that stays |
| `PermissionKeys.EscapedEnds` | packages/sdk/src/permissionContext.ts:16-21 | JSON escaping is prefix-free: the first bare quote ends the string |
| `PermissionKeys.ContextKeyIsCanonical` | packages/sdk/src/permissionContext.ts:9-21 | two contexts have one key exactly when they have the same keys and, under each, values of one length with the same characters up to ASCII case; an absent context is an empty one |
| `PermissionKeys.KeysAreQuestions` | packages/sdk/src/permissionCache.ts:73-92 | one key stands for exactly one question: user, group, permission, inherit flag, and context up to ASCII case of its values |
| `CheckBatch.PermissionCache.Get` | packages/sdk/src/permissionCache.ts:95-101 | a fresh answer or none |
| `CheckBatch.PermissionCache.GetStale` | packages/sdk/src/permissionCache.ts:107-116 | a recently expired answer; one past its window is dropped |
| `CheckBatch.PermissionCache.Set` | packages/sdk/src/permissionCache.ts:118-134 | the entry moves to the end and the oldest beyond the cap go |
| `CheckBatch.SetKeeps` | packages/sdk/src/permissionCache.ts:118-134 | the cap holds, the new answer is kept, every other entry kept is unchanged |
| `CheckBatch.SetIsServed` | packages/sdk/src/permissionCache.ts:95-134 | an answer is fresh for its lifetime from the set that kept it and may be served stale for the window after that, when stale answers are on |
| `CheckBatch.ServedIsLastSet` | packages/sdk/src/permissionCache.ts:95-140 | whatever sets, stale lookups and clears came before, what is served is the result of the key's last set, not cleared since, within those times; a disabled cache serves nothing |
| `CheckBatch.LookingDropsTheDead` | packages/sdk/src/permissionCache.ts:107-116 | a stale lookup changes no answer of any key from then on and leaves none of its own key past its window |
| `CheckBatch.RefusedSliceDropsTheDead` | packages/sdk/src/index.ts:426-438 | a slice refused with a 429 drops exactly the answers of its keys that are past their stale window |
| `CheckBatch.Plan` | packages/sdk/src/index.ts:394-411 | pending is the first position of each distinct key the cache does not answer; every other uncached position repeats one |
| `CheckBatch.Junjo.FetchSlice` | packages/sdk/src/index.ts:414-451 | one request: answers to the right positions, stale ones only when all of the slice have one on a 429, else the error |
| `CheckBatch.Junjo.FetchAll` | packages/sdk/src/index.ts:413-452 | slices of at most a hundred, in order, until one fails |
| `CheckBatch.Junjo.AnswerKeys` | packages/sdk/src/index.ts:380-456 | every key is answered from the cache at the call or from the one request that carried it |
| `CheckBatch.Junjo.CheckBatch` | packages/sdk/src/index.ts:380-456 | results[i] is what the cache held for checks[i] at the call, or the answer to the request entry that asks the same; no two entries of at most a hundred a request ask the same or ask what the cache answers |
| `CheckBatch.ClearedCacheIsRefilledIff` | packages/sdk/src/index.ts:458-465 | a batch in flight when the cache is cleared leaves it empty exactly when its request fails, is refused or is malformed, or the cache keeps nothing anyway |
| `CheckBatch.BatchRefillsClearedCache` | packages/sdk/src/index.ts:458-465 | otherwise its last answer is served as fresh, although the documentation says a check in flight no longer fills the cache |
| `SharedRequests.Sharing.Run` | packages/sdk/src/sharedRequest.ts:37-73 | joins or starts; a caller already aborted leaves at once |
| `SharedRequests.Sharing.Leave` | packages/sdk/src/sharedRequest.ts:101-110 | the last caller to leave an unsettled request unregisters and aborts it |
| `SharedRequests.Sharing.Settle` | packages/sdk/src/sharedRequest.ts:47-62 | settling unregisters and reports a success only while registered |
| `SharedRequests.Sharing.Forget` | packages/sdk/src/sharedRequest.ts:75-82 | detaches everything in flight |
| `SharedRequests.OneRequestPerKey` | packages/sdk/src/sharedRequest.ts:43-70 | at most one unsettled, undetached request per key |
| `SharedRequests.NobodyJoinsADeadRequest` | packages/sdk/src/sharedRequest.ts:43-72 | no caller joins a settled or aborted request |
| `SharedRequests.AbortedOnlyWhenAbandoned` | packages/sdk/src/sharedRequest.ts:101-110 | aborted only while unsettled, when every caller that joined has left |
| `SharedRequests.AbortedIffAbandoned` | packages/sdk/src/sharedRequest.ts:101-110 | in every run an unsettled request has been aborted exactly when all who joined it have left |
| `SharedRequests.SettlesOnce` | packages/sdk/src/sharedRequest.ts:47-62 | a request settles once, with the outcome it got then |
| `SharedRequests.EachCallerIsAnsweredOnce` | packages/sdk/src/sharedRequest.ts:89-139 | a waiting caller leaves exactly on its own signal or timeout, gets its request's outcome exactly by its delivery, and keeps what it got |
| `SharedRequests.EveryWaiterIsReached` | packages/sdk/src/sharedRequest.ts:126-137 | in every run deliveries alone bring each caller waiting on a settled request its outcome, and change nothing else |
| `SharedRequests.ResultsAreReportedOnce` | packages/sdk/src/sharedRequest.ts:31-36 | `onResult` has run once for each request that succeeded while attached, and for no other |
| `ReactPermissionCache.KeysAreQuestions` | packages/react/src/permissionCache.ts:8-29 | for ids without NUL, and any permission, one key is one question |
| `ReactPermissionCache.SegmentsAreIds` | packages/react/src/permissionCache.ts:132-147 | splitting a key gives the user and the group at their places |
| `ReactPermissionCache.SweepsAreExact` | packages/react/src/permissionCache.ts:124-147 | a user or group sweep reaches exactly the checks with that segment |
| `ReactPermissionCache.PermissionCache.Settle` | packages/react/src/permissionCache.ts:78-103 | a settling fetch writes, trims and notifies only while it holds its key's slot |
| `ReactPermissionCache.PermissionCache.InvalidateSegment` | packages/react/src/permissionCache.ts:135-147 | drops exactly the covered answers and slots and notifies exactly the covered listeners |
| `ReactPermissionCache.PermissionCache.InvalidateAll` | packages/react/src/permissionCache.ts:108-118 | everything goes and every listened key is notified |
| `ReactPermissionCache.StaleMarksTheReached` | packages/react/src/permissionCache.ts:108-147 | an invalidation marks as stale exactly the fetches started so far whose key it reaches |
| `ReactPermissionCache.AnswersAreNewerThanInvalidations` | packages/react/src/permissionCache.ts:78-96 | in every interleaving a cached answer comes from a fetch started after the last invalidation that reached its key, and at most the cap are held |
| `ReactPermissionCache.OneWriterPerKey` | packages/react/src/permissionCache.ts:72-106 | at most one fetch per key may still write |
| `ReactPermissionCache.PrefetchStartsOne` | packages/react/src/permissionCache.ts:72-104 | a key is fetched exactly when it has no answer and no fetch of it may still write |
| `ReactPermissionCache.LiveFetchWrites` | packages/react/src/permissionCache.ts:78-103 | a fetch that may still write does: its answer goes to the end, pushing out the oldest alone when five hundred are held; one that failed leaves its key free |
| `ReactPermissionCache.FetchedIsCached` | packages/react/src/permissionCache.ts:66-104 | a key neither held nor being fetched is held once its fetch has succeeded, with what the fetch answered |
| `ReactPermissionCache.AnswersWereBrought` | packages/react/src/permissionCache.ts:78-96 | what the cache says for a key is what the fetch that brought it answered |
| `ReactPermissionCache.InvalidationIsExact` | packages/react/src/permissionCache.ts:108-147 | an invalidation drops the answers and slots it reaches and no others |
| `ReactPermissionCache.DisownedNeverWrites` | packages/react/src/permissionCache.ts:80-84 | a fetch disowned by an invalidation writes nothing |
| `Roster.EventOnCells` | packages/react/src/useMembers.ts:103-167 | the list reducer of either hook does to each user's row what the event means for it, and keeps one row each |
| `Roster.Absorbs` | packages/react/src/pendingEvents.ts:11-20 | rows an event makes equal stay equal when another event comes in between |
| `Roster.ReplayConverges` | packages/react/src/pendingEvents.ts:11-20 | replaying events from b on over a snapshot that agrees with any later prefixes in group, statuses, role sets and ban ends shows what sequential application shows; names and versions of the snapshot are free |
| `Roster.ConvergesIff` | packages/react/src/useGroup.ts:243-250 | for every log and snapshot exactly when the replay reaches back to where the members, and in useGroup the group, were read |
| `Roster.LoadedNamesSurvive` | packages/react/src/memberRows.ts:8-21 | a loaded name is still shown after a replay exactly when the row did not leave the list on the way |
| `RosterServer.FollowsIff` | packages/react/src/useMembers.ts:103-167 | for every filter, which server changes a roster in step follows from their events: exactly those that ask for no row it never loaded, no drop it is not told of and no roles it is not sent |
| `RosterServer.ActiveRosterFollowsIff` | packages/react/src/useGroup.ts:103-133 | an active roster parts exactly at a rejoin whose event omits roles the row kept, and at a link that moves a listed row |
| `RosterServer.OtherRostersPart` | packages/react/src/useMembers.ts:185-192 | every other filter cannot follow some change that useGroup follows |
| `RosterServer.HistoryFollowed` | packages/react/src/useGroup.ts:103-133 | over a whole history of writes an active roster shows what the server lists, less the roles omitted |
| `RosterServer.ReplayShowsTheServer` | packages/react/src/pendingEvents.ts:11-20 | a listing taken anywhere in a history, with all its events replayed over it, shows what the server lists in the end, less the roles rejoins left out since |
| `RosterServer.RosterIsRightIff` | packages/react/src/pendingEvents.ts:11-20 | so it agrees with the server exactly when no role is left out; after the group is deleted, in useMembers exactly when it shows no row |
| `RosterServer.ReplayShowsTheGroup` | packages/react/src/useGroup.ts:126-129 | and useGroup shows the group as it is in the end |
| `RosterServer.ShownVersionLags` | packages/react/src/memberRows.ts:3-6 | a shown version is behind the stored one by exactly the updates since an event last patched the row, or since the listing when none did |
| `RosterServer.WritesRaiseTheVersion` | packages/server/src/routes/groups.ts:1157-1164 | every write to a row but a link's raises its version by one; the later events of one write share it |
| `RosterServer.ReplaySetsVersionBack` | packages/react/src/memberRows.ts:3-6 | and a replay can set back a version that was loaded right |
| `RosterHook.PendingEvents.Hold` | packages/react/src/pendingEvents.ts:31-35 | holds exactly while a fetch is in flight |
| `RosterHook.PendingEvents.HoldFailure` | packages/react/src/pendingEvents.ts:41-45 | keeps the first failure |
| `RosterHook.PendingEvents.Drain` | packages/react/src/pendingEvents.ts:48-53 | returns what was held and stops holding |
| `RosterHook.RosterHook.ReplayHeld` | packages/react/src/useGroup.ts:175-179 | applies the held events in order, then the failure |
| `RosterHook.RosterHook.FetchSucceeded` | packages/react/src/useGroup.ts:196-204 | only the newest fetch replaces the state, then replays |
| `RosterHook.FailureOutlivesFetch` | packages/react/src/pendingEvents.ts:11-20 | a stream failure during a fetch is what the hook reports once it settles |
| `RosterHook.LoadingIff` | packages/react/src/useGroup.ts:181-213 | in every run the hook is loading, and holds events back, exactly while its newest fetch is in flight |
| `RosterHook.NewestFetchSettles` | packages/react/src/useGroup.ts:196-213 | a fetch that settles ends the loading and shows its snapshot, or on an error what was shown, with the held events applied, and reports the stream's failure if one came in meanwhile, else its own; an older one changes nothing shown |
| `RosterHook.RefetchStarts` | packages/react/src/useGroup.ts:181-186 | a refetch shows loading and no error at once; `useMembers` empties its list, `useGroup` keeps showing the old one |
| `RosterHook.StreamBreaksOnce` | packages/react/src/useGroup.ts:253-263 | a stream's failure is shown at once when nothing is held, else kept back, the first one alone |
| `RosterHook.DeliveriesReachTheEnd` | packages/react/src/useGroup.ts:253-256 | an unbroken stream brings the hook everything published, applied or held back in order |
| `RosterHook.SettledRosterIsRight` | packages/react/src/useGroup.ts:181-213 | whatever refetches overlapped: once the events a loaded snapshot reflects have arrived, the roster is the sequential one |
| `RosterHook.SettledRosterShowsTheServer` | packages/react/src/useGroup.ts:181-213 | and when the log is what a history of writes publishes and the snapshot a listing of it, an active roster shows what the server lists after the writes delivered, less the roles rejoins left out |
| `RosterHook.NoGapIff` | packages/react/src/useGroup.ts:243-247 | over every run the replay reaches back to a read exactly when the stream had opened by then |
| `RosterHook.MissingStays` | packages/react/src/useGroup.ts:253-263 | a row missing with no fetch in flight stays missing until the user joins again or the caller refetches |
| `RosterHook.LateStreamLosesAJoin` | packages/react/src/subscriptionHub.ts:126-150 | a handshake finishing after the snapshot loses a join published in between, whatever follows short of a refetch or another join |

## Left out

- HTTP, routing, SQL text, the database driver and JSON parsing: statements are atomic steps with the locking their comments state, and isolation is assumed.
- The claim loop of the idempotency middleware is the step chain `Inserting`, `Finding`, `Taking` and not one method with a loop, because other requests interleave between its statements; the attempt bound is kept.
- Fingerprints are strings that are equal for equal requests; their hashing is not modelled.
- Several transactions taking one lock each at a time: a transaction takes all its per-person locks in one step, so lock-order deadlocks between them are not modelled (Postgres aborts one of the waiters).
- Restoring a soft-deleted group, `maxMembers` changes in flight and the selection loop of the idle sweep: a sweep step may delete any unlocked group, which covers the code's choice.
- A join's roles, audit entries and events, and the bookkeeping a merge does outside memberships (identities, audit rows, bans, invitations).
- Link codes, ban checks and identity rendering: each branch is settled by reading it.
- An identity moved between people while the activity job runs: each batch takes what every entry names as an argument, so any resolution is covered.
- The position read and hub subscription of a starting feed, poll timers and advance listeners.
- `fetchMore` paging, optimistic updates and list order: a snapshot is the whole roster, and rosters are compared row by user with roles as sets. Unmounting is `PendingEvents.Clear` and ends the model.
- Metadata and notes of a roster's rows: `member.updated` carries neither, and both hooks ignore it.
- The order in which group events are published: it is taken to be the order of the writes, and a listing to reflect a prefix of them.
- How a link picks the rows it moves, in `RosterServer`: `Relink` replaces a row by any other or none, which covers it.
- Listeners that call back into the React cache while being notified; subscription of listeners.
- The clock within one planning loop: `CheckBatch.Plan` looks every key up at one time, where the source reads the clock for each key, so an answer expiring in mid-loop counts for all positions or none.
- Rejected promises nobody awaits, timers and abort signals as objects: a caller's signal and timeout are one step each.
- UTF-16 and UTF-8: text is a sequence of characters, a chunk is already decoded, and lone surrogates do not occur. The C++ parser and the TypeScript reader share one alphabet.
- `__proto__` as a context key or value, and error message texts.
- The first open of a subscription, before a handle exists; partial frames in `GameEvents`, which `SseFraming` covers.
- Webhook signatures around the hash and the clock tolerance check; scrypt.
- The dashboard, bans, expiry, event hub, pagination and the two subscription hubs.
- GameEvents.NoGapWithoutResync: says nothing about frames a server never sends; that the stream resumes from the asked position is assumed of the route.
- MembershipCaps.GroupsStayWithinMaxMembers: is about a fixed configuration; a lowered limit does not remove anyone.
- PerUserCaps.PeopleStayWithinMaxPerUser: is about a fixed configuration and runs whose commits of strayed rows leave room; `HarmlessJoins.HarmlessIff` says what the others do.
- LastActivity.NothingIsMissed: needs every entry to commit within the overlap window, as the source documents.
- RosterHook.SettledRosterIsRight: needs the events the snapshot reflects to have been delivered; a broken stream never delivers them.
- RosterHook.SettledRosterShowsTheServer: is about users whose row no link moved since the replay began; what a link does is in `RosterServer.ActiveRosterFollowsIff`.
- Sha256Hash.HashPieces: is for messages under 2^61 bytes, where the 64-bit length field of the standard ends.
