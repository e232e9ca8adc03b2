# Message-list fetching with cooperative cancellation

This project models the message-import core of the twenty messaging module. It has four parts:

- **Cancellation store** (`Cancellation`). There is one flag per channel, kept in the messaging cache under the key `sync-cancel:<channelId>`.
  - `requestCancellation` sets the flag.
  - `shouldCancel` checks the flag and clears it. When the flag was set, it also emits exactly one "sync cancelled" batch event for the record's workspace.
- **Gmail fetcher** (`GmailQuery`, `GmailFetcher`).
  - Without a stored cursor it does a full scan. It computes the excluded categories and builds the search query, optionally with `after:Y/MM/DD`. It then loops over pages, with a cancellation checkpoint before every list call. Finally it reads the first message's history id as the next cursor. A cancellation becomes an empty result.
  - With a stored cursor it does a delta fetch. The history additions lose every id that an excluded category's history reports. Deletions pass through unchanged.
- **IMAP fetcher** (`ImapFetcher`, `DateSort`).
  - It scans INBOX and the sent folder, if there is one. Each mailbox is streamed under its lock, with a cancellation checkpoint before every record.
  - A failing mailbox contributes nothing. A cancellation discards the messages of every mailbox.
  - The merge is sorted newest first, and the oldest date becomes the next cursor.
  - A failed connection gives an empty result that keeps the cursor. The client is closed on every path.
- **Load-date listener** (`LoadDateListener`).
  - When a channel's `loadMessagesAfterDate` changes, it requests cancellation of that channel's sync.
  - For every "sync cancelled" event, it enqueues one fetch job.

## How the model is built

- **Shared state.** It is a `Store`: the cache map plus the log of emitted batches. It is threaded through pure functions.
- **Others' writes.** Writes by other parties during a fetch loop are an `Arrivals` input. Entry k lists the requests and time-to-live expiries that land just before the loop's k-th checkpoint. An expiry removes the key.
- **Provider answers are inputs:**
  - Gmail list pages are a finite sequence. A call beyond the sequence fails.
  - Message history ids, history additions and deletions, and the category histories are given.
  - Each IMAP mailbox stream is given. It is either a lock failure, or a list of records that may end in a stream error.
  - The sent-folder lookup and the connection outcome are given.
- **Unseen helpers are parameters.** These are the folder-to-category mapping, the category search filter, the UTC date decomposition and `toISOString`.
- **Optional values.** An optional string is `Option<string>`. JavaScript truthiness of a string is `Truthy`: present and non-empty.
- **Checkpoints.** A Gmail checkpoint is logged with the answer `shouldCancel` gave, and an IMAP checkpoint is logged in the event trace under the mailbox's lock, so the call logs show where each poll happened and what it saw.
- **Ordering of side effects.** Lock acquisition and release, checkpoints and client release are recorded as an event trace. The trace is checked against a lock discipline.

The Gmail delta result can list an id both as added and as deleted. The code of `getMessageLists` does not keep the two lists disjoint: additions are filtered only against the excluded-category ids, and deletions are passed through as they come. Both lists come from `getMessageIdsFromHistory`, whose body is not part of this model, so the model's `History` input allows an id in both. `DeltaFetch` states only what the code of `getMessageLists` guarantees.

## Model

| member | source | states |
|---|---|---|
| Cancellation.KeyRoundTrip | packages/twenty-server/src/modules/messaging/message-import-manager/services/messaging-sync-abort.service.ts:24 | the channel id can be read back out of its `sync-cancel:` key |
| Cancellation.KeyInjective | packages/twenty-server/src/modules/messaging/message-import-manager/services/messaging-sync-abort.service.ts:24 | two channels share a key exactly when they are the same channel |
| Cancellation.RequestCancellation | packages/twenty-server/src/modules/messaging/message-import-manager/services/messaging-sync-abort.service.ts:20-33 | the channel's record becomes `{shouldCancel: true, workspaceId}`; no other key changes; nothing is emitted |
| Cancellation.ClearCancellation | packages/twenty-server/src/modules/messaging/message-import-manager/services/messaging-sync-abort.service.ts:64-67 | only the channel's key is removed; every other record stays; nothing is emitted |
| Cancellation.ShouldCancel | packages/twenty-server/src/modules/messaging/message-import-manager/services/messaging-sync-abort.service.ts:39-62 | returns true exactly when the record is present with its flag set; then the key is removed and exactly one batch `[{messageChannelId}]` for the record's workspace is appended; otherwise cache and log are untouched |
| Cancellation.Apply | packages/twenty-server/src/modules/messaging/message-import-manager/services/messaging-sync-abort.service.ts:20-33 | a request leaves the channel's key holding `{shouldCancel: true, workspaceId}`, an expiry removes the key; every other key and the event log are unchanged |
| Cancellation.ApplyAll | packages/twenty-server/src/modules/messaging/message-import-manager/services/messaging-sync-abort.service.ts:20-33 | a run of requests and expiries never touches the event log |
| Cancellation.ShouldCancelInterleaved | packages/twenty-server/src/modules/messaging/message-import-manager/services/messaging-sync-abort.service.ts:39-67 | with other writes landing between the read and the delete, the poll answers what the read saw; a true poll ends with the key removed (whatever landed in between) and one batch for the workspace read first; a false poll leaves just the others' writes |
| Cancellation.UninterruptedPollIsAtomic | packages/twenty-server/src/modules/messaging/message-import-manager/services/messaging-sync-abort.service.ts:39-67 | with nothing landing between the read and the delete, the split poll is the atomic one |
| Cancellation.RequestBetweenReadAndDeleteLost | packages/twenty-server/src/modules/messaging/message-import-manager/services/messaging-sync-abort.service.ts:41-53 | a new request landing between a true read and the delete is lost: the batch names the earlier workspace and the next poll returns false |
| Cancellation.RequestThenPoll | packages/twenty-server/src/modules/messaging/message-import-manager/services/messaging-sync-abort.service.ts:25-53 | a poll right after a request returns true and emits one batch tagged with the requested workspace |
| Cancellation.ConsumedAtMostOnce | packages/twenty-server/src/modules/messaging/message-import-manager/services/messaging-sync-abort.service.ts:46-61 | the poll after a true poll returns false and changes nothing |
| Cancellation.ChannelIsolation | packages/twenty-server/src/modules/messaging/message-import-manager/services/messaging-sync-abort.service.ts:24-66 | requesting, clearing or polling one channel does not change whether another channel is pending, nor its record |
| Cancellation.ExpiredRequestNotObserved | packages/twenty-server/src/modules/messaging/message-import-manager/services/messaging-sync-abort.service.ts:29-46 | a request whose record expired before the poll is not observed, and the poll changes nothing |
| Cancellation.OtherChannelsUntouched | packages/twenty-server/src/modules/messaging/message-import-manager/services/messaging-sync-abort.service.ts:24-33 | any sequence of requests and expiries naming other channels leaves a channel's record as it was |
| Cancellation.PollAt | packages/twenty-server/src/modules/messaging/message-import-manager/services/messaging-sync-abort.service.ts:39-61 | a checkpoint grows the event log by one batch exactly when it returns true, keeps the earlier log, and the new batch names only the polled channel |
| Seqs.Filter | packages/twenty-server/src/modules/messaging/message-import-manager/listeners/messaging-message-channel-load-date-update.listener.ts:38-43 | the kept elements are exactly those satisfying the predicate, in their original order (a subsequence), each with its full multiplicity |
| Seqs.Without | packages/twenty-server/src/modules/messaging/message-import-manager/drivers/gmail/services/gmail-get-message-list.service.ts:212-214 | an element is kept exactly when it is not in the drop list; the order and the multiplicity of kept elements are preserved |
| GmailQuery.PadStart2 | packages/twenty-server/src/modules/messaging/message-import-manager/drivers/gmail/services/gmail-get-message-list.service.ts:292-293 | the padded text has length max(2, original), ends with the original text, and is zero-filled in front |
| GmailQuery.PaddedRoundTrip | packages/twenty-server/src/modules/messaging/message-import-manager/drivers/gmail/services/gmail-get-message-list.service.ts:292-293 | a month or day below 100 pads to exactly two characters, which read back as the number |
| GmailQuery.DateRoundTrip | packages/twenty-server/src/modules/messaging/message-import-manager/drivers/gmail/services/gmail-get-message-list.service.ts:290-294 | the `Y/MM/DD` text of a valid calendar day reads back as that year, month and day |
| GmailQuery.TrimStart | packages/twenty-server/src/modules/messaging/message-import-manager/drivers/gmail/services/gmail-get-message-list.service.ts:295 | the result is a suffix of the input that does not start with white space, and only white space was dropped |
| GmailQuery.TrimEnd | packages/twenty-server/src/modules/messaging/message-import-manager/drivers/gmail/services/gmail-get-message-list.service.ts:295 | the result is a prefix of the input that does not end with white space, and only white space was dropped |
| GmailQuery.TrimStartAppend | packages/twenty-server/src/modules/messaging/message-import-manager/drivers/gmail/services/gmail-get-message-list.service.ts:295 | leading white space of a concatenation is the first part's, unless that part is all white space |
| GmailQuery.Trim | packages/twenty-server/src/modules/messaging/message-import-manager/drivers/gmail/services/gmail-get-message-list.service.ts:295 | the result is the input with only white space removed at both ends, and neither of its ends is white space |
| GmailQuery.TrimAfterClause | packages/twenty-server/src/modules/messaging/message-import-manager/drivers/gmail/services/gmail-get-message-list.service.ts:295 | trimming `filter + " after:" + date` only removes the filter's leading white space, plus the space before `after:` when the filter is blank |
| GmailQuery.BuildFinalQuery | packages/twenty-server/src/modules/messaging/message-import-manager/drivers/gmail/services/gmail-get-message-list.service.ts:282-305 | without a date floor the query is the category filter unchanged |
| GmailQuery.QueryWithDate | packages/twenty-server/src/modules/messaging/message-import-manager/drivers/gmail/services/gmail-get-message-list.service.ts:288-295 | with a date floor the query is the trimmed filter, then ` after:` and the date text; the date text reads back as the channel's UTC day |
| GmailFetcher.IncludedDefaultCategories | packages/twenty-server/src/modules/messaging/message-import-manager/drivers/gmail/services/gmail-get-message-list.service.ts:237-241 | a category is included exactly when some configured folder's name maps to it |
| GmailFetcher.ComputeExcludedCategories | packages/twenty-server/src/modules/messaging/message-import-manager/drivers/gmail/services/gmail-get-message-list.service.ts:234-247 | the result is a subsequence of the defaults; a category is in it exactly when it is a default and no folder maps to it |
| GmailFetcher.AddedIds | packages/twenty-server/src/modules/messaging/message-import-manager/drivers/gmail/services/gmail-get-message-list.service.ts:269-271 | an id is kept exactly when it is present and non-empty among the added messages |
| GmailFetcher.CategoryHistoryIds | packages/twenty-server/src/modules/messaging/message-import-manager/drivers/gmail/services/gmail-get-message-list.service.ts:266-271 | an id is listed exactly when it is non-empty and some history record added it |
| GmailFetcher.EmailIdsFromExcludedCategories | packages/twenty-server/src/modules/messaging/message-import-manager/drivers/gmail/services/gmail-get-message-list.service.ts:249-277 | an id is listed exactly when the history of one of the given categories added it |
| GmailFetcher.ScanPages | packages/twenty-server/src/modules/messaging/message-import-manager/drivers/gmail/services/gmail-get-message-list.service.ts:65-111 | every scan records at least one call beyond those made before it |
| GmailFetcher.ScanPrefix | packages/twenty-server/src/modules/messaging/message-import-manager/drivers/gmail/services/gmail-get-message-list.service.ts:65-111 | a scan only appends to the calls made before it |
| GmailFetcher.PageCheckpointDecides | packages/twenty-server/src/modules/messaging/message-import-manager/drivers/gmail/services/gmail-get-message-list.service.ts:65-88 | each iteration starts with a checkpoint labelled with `shouldCancel`'s answer on the store as the outside writes left it; a set flag ends the scan there with the ids so far, no list call, the key consumed and one batch for the record's workspace; otherwise the list call with the current page token follows |
| GmailFetcher.ScanAlternates | packages/twenty-server/src/modules/messaging/message-import-manager/drivers/gmail/services/gmail-get-message-list.service.ts:65-111 | checkpoints and list calls alternate, starting with a checkpoint; the scan was cancelled exactly when it ended on a checkpoint |
| GmailFetcher.ScanTokens | packages/twenty-server/src/modules/messaging/message-import-manager/drivers/gmail/services/gmail-get-message-list.service.ts:78-111 | every list call sends the one query and the token of the page before it, the initial token first |
| GmailFetcher.ScanEmits | packages/twenty-server/src/modules/messaging/message-import-manager/drivers/gmail/services/gmail-get-message-list.service.ts:65-76 | a scan emits exactly one batch, naming the channel, when it is cancelled, and none otherwise; the earlier log is kept |
| GmailFetcher.ScanIds | packages/twenty-server/src/modules/messaging/message-import-manager/drivers/gmail/services/gmail-get-message-list.service.ts:78-111 | an uncancelled scan collects the pages' ids in page order; it stops at the first empty or failed page, or after a page without a next token |
| GmailFetcher.QuietScanNotCancelled | packages/twenty-server/src/modules/messaging/message-import-manager/drivers/gmail/services/gmail-get-message-list.service.ts:65-76 | with no pending flag and no outside writes, the scan is never cancelled and leaves the store unchanged |
| GmailFetcher.FullScanQuery | packages/twenty-server/src/modules/messaging/message-import-manager/drivers/gmail/services/gmail-get-message-list.service.ts:56-63 | without a truthy date floor the query is the category filter for the excluded categories; with one, it is the trimmed filter followed by ` after:` and the floor's UTC day as `Y/MM/DD` (just `after:…` for a blank filter) |
| GmailFetcher.GetMessageListWithoutCursor | packages/twenty-server/src/modules/messaging/message-import-manager/drivers/gmail/services/gmail-get-message-list.service.ts:114-156 | a success has previous cursor `''`, no deletions, and a next cursor that is empty exactly when there are no ids; with ids, the next cursor is the first id's history id |
| GmailFetcher.DeltaFetch | packages/twenty-server/src/modules/messaging/message-import-manager/drivers/gmail/services/gmail-get-message-list.service.ts:197-231 | fails with `NO_NEXT_SYNC_CURSOR` exactly when the new history id is missing; otherwise the additions are a subsequence of the history additions, deletions are passed through, the previous cursor is the stored cursor and the next is the new history id |
| GmailFetcher.GetMessageLists | packages/twenty-server/src/modules/messaging/message-import-manager/drivers/gmail/services/gmail-get-message-list.service.ts:159-232 | never returns `SYNC_CANCELLED`; with a cursor it polls nothing and makes no list call; a success with ids always carries a non-empty next cursor |
| GmailFetcher.FullScanOutcome | packages/twenty-server/src/modules/messaging/message-import-manager/drivers/gmail/services/gmail-get-message-list.service.ts:167-193 | without a cursor: a cancelled scan gives the empty result with both cursors `''` and one emitted batch for the channel; otherwise the ids are the uninterrupted page ids, with an empty result, or the first id's history id, or `NO_NEXT_SYNC_CURSOR` |
| GmailFetcher.CancelledBeforeFirstPage | packages/twenty-server/src/modules/messaging/message-import-manager/drivers/gmail/services/gmail-get-message-list.service.ts:65-76 | a flag already set at the start gives the empty result after a single checkpoint and no list call, consumes the flag and emits its batch |
| GmailFetcher.QuietFullScan | packages/twenty-server/src/modules/messaging/message-import-manager/drivers/gmail/services/gmail-get-message-list.service.ts:65-76 | with no flag and no outside writes a full scan is not cancelled and the store is unchanged |
| GmailFetcher.DeltaAdditions | packages/twenty-server/src/modules/messaging/message-import-manager/drivers/gmail/services/gmail-get-message-list.service.ts:206-227 | an addition is kept exactly when no excluded category's history reports it; kept ids keep their multiplicity; the previous cursor is the stored one |
| GmailFetcher.DeltaIgnoresStore | packages/twenty-server/src/modules/messaging/message-import-manager/drivers/gmail/services/gmail-get-message-list.service.ts:197-231 | the delta result does not depend on the cancellation store or outside writes |
| GmailFetcher.DeltaExample | packages/twenty-server/src/modules/messaging/message-import-manager/drivers/gmail/services/gmail-get-message-list.service.ts:212-231 | additions A, B, C with B in an excluded category give A, C; the deletion D and both cursors pass through |
| DateSort.Insert | packages/twenty-server/src/modules/messaging/message-import-manager/drivers/imap/services/imap-get-message-list.service.ts:73-75 | inserting adds exactly the one element to the multiset |
| DateSort.InsertSorted | packages/twenty-server/src/modules/messaging/message-import-manager/drivers/imap/services/imap-get-message-list.service.ts:73-75 | inserting into a newest-first sequence keeps it newest first |
| DateSort.SortByDateDesc | packages/twenty-server/src/modules/messaging/message-import-manager/drivers/imap/services/imap-get-message-list.service.ts:73-75 | the result is a permutation of the input with non-increasing dates |
| DateSort.InsertWithTime | packages/twenty-server/src/modules/messaging/message-import-manager/drivers/imap/services/imap-get-message-list.service.ts:73-75 | inserting places the element before the equal-dated elements already there |
| DateSort.SortStable | packages/twenty-server/src/modules/messaging/message-import-manager/drivers/imap/services/imap-get-message-list.service.ts:73-75 | for every date, the messages of that date keep their collection order |
| DateSort.LastIsOldest | packages/twenty-server/src/modules/messaging/message-import-manager/drivers/imap/services/imap-get-message-list.service.ts:79-81 | the last sorted message is a collected message no newer than any other |
| DateSort.Ids | packages/twenty-server/src/modules/messaging/message-import-manager/drivers/imap/services/imap-get-message-list.service.ts:77 | the i-th id is the i-th message's id |
| ImapFetcher.MailboxList | packages/twenty-server/src/modules/messaging/message-import-manager/drivers/imap/services/imap-get-message-list.service.ts:33-39 | INBOX first, and a second mailbox exactly when a non-empty sent folder was found, which is that folder |
| ImapFetcher.SinceBound | packages/twenty-server/src/modules/messaging/message-import-manager/drivers/imap/services/imap-get-message-list.service.ts:122-127 | the date floor takes precedence over the cursor; with neither, the scan is unbounded |
| ImapFetcher.Accept | packages/twenty-server/src/modules/messaging/message-import-manager/drivers/imap/services/imap-get-message-list.service.ts:146-157 | a record yields a message exactly when its envelope has a non-empty message id; the date is the envelope's valid date, else `now` |
| ImapFetcher.BuildResult | packages/twenty-server/src/modules/messaging/message-import-manager/drivers/imap/services/imap-get-message-list.service.ts:73-92 | one id per collected message, no deletions, the stored cursor as previous, and the previous cursor or `''` as next when nothing was collected |
| ImapFetcher.BuildResultOrder | packages/twenty-server/src/modules/messaging/message-import-manager/drivers/imap/services/imap-get-message-list.service.ts:73-82 | the ids are those of the newest-first sort, and the next cursor is the date of an oldest collected message |
| ImapFetcher.GetMessageLists | packages/twenty-server/src/modules/messaging/message-import-manager/drivers/imap/services/imap-get-message-list.service.ts:26-108 | no deletions and the stored cursor as previous on every path; no ids means the cursor is kept; a failed connection or sent-folder lookup gives the empty result, leaves the store alone and only closes the client; the client close is always the last effect |
| ImapFetcher.ScanRecords | packages/twenty-server/src/modules/messaging/message-import-manager/drivers/imap/services/imap-get-message-list.service.ts:131-159 | the loop only appends to the trace and polls forward; a cancellation needs a channel id and a record |
| ImapFetcher.ScanRecordsEffects | packages/twenty-server/src/modules/messaging/message-import-manager/drivers/imap/services/imap-get-message-list.service.ts:131-144 | the loop keeps its mailbox's lock held throughout; a cancellation emits exactly one batch naming the channel and needs a non-empty channel id; otherwise nothing is emitted |
| ImapFetcher.ScanRecordsCheckpoints | packages/twenty-server/src/modules/messaging/message-import-manager/drivers/imap/services/imap-get-message-list.service.ts:131-144 | with a channel id there is one checkpoint per record, each logged under the mailbox's lock; an uncancelled loop polls once for every record |
| ImapFetcher.CancelledBeforeRecord | packages/twenty-server/src/modules/messaging/message-import-manager/drivers/imap/services/imap-get-message-list.service.ts:131-159 | a loop cancelled at its n-th poll holds the messages of the n - 1 records before it and not of the record that poll guarded |
| ImapFetcher.RecordCheckpointDecides | packages/twenty-server/src/modules/messaging/message-import-manager/drivers/imap/services/imap-get-message-list.service.ts:134-144 | the checkpoint before a record polls the store as the outside writes left it; a set flag cancels before the record is read and emits the batch for the record's workspace; otherwise the record is taken and the loop goes on |
| ImapFetcher.ScanRecordsYield | packages/twenty-server/src/modules/messaging/message-import-manager/drivers/imap/services/imap-get-message-list.service.ts:131-159 | an uncancelled stream yields the messages of its records in stream order: those with a message id, dated by the envelope or `now` |
| ImapFetcher.GetMessagesFromMailbox | packages/twenty-server/src/modules/messaging/message-import-manager/drivers/imap/services/imap-get-message-list.service.ts:110-181 | a lock failure does nothing; a streamed mailbox is bracketed by its lock acquisition and release; a cancelled, unlockable or failing mailbox yields no messages; a cancellation needs a channel id |
| ImapFetcher.MailboxEffects | packages/twenty-server/src/modules/messaging/message-import-manager/drivers/imap/services/imap-get-message-list.service.ts:117-181 | a mailbox releases the lock it takes, on every exit; at most one batch is emitted, naming the channel, and only when cancelled |
| ImapFetcher.MailboxYields | packages/twenty-server/src/modules/messaging/message-import-manager/drivers/imap/services/imap-get-message-list.service.ts:117-175 | an uncancelled mailbox yields nothing on a lock or stream failure and its records' messages otherwise |
| ImapFetcher.ScanMailboxes | packages/twenty-server/src/modules/messaging/message-import-manager/drivers/imap/services/imap-get-message-list.service.ts:43-71 | the run only polls forward, and a cancellation needs a channel id and a mailbox |
| ImapFetcher.ScanMailboxesEffects | packages/twenty-server/src/modules/messaging/message-import-manager/drivers/imap/services/imap-get-message-list.service.ts:43-71 | over all mailboxes the lock discipline holds, and one batch naming the channel is emitted exactly when the run is cancelled |
| ImapFetcher.ScanMailboxesYield | packages/twenty-server/src/modules/messaging/message-import-manager/drivers/imap/services/imap-get-message-list.service.ts:43-57 | an uncancelled run collects every mailbox's yield, concatenated in mailbox order |
| ImapFetcher.UncancelledOutcome | packages/twenty-server/src/modules/messaging/message-import-manager/drivers/imap/services/imap-get-message-list.service.ts:43-92 | an uncancelled connected run builds its result from every mailbox's yield and emits nothing |
| ImapFetcher.UncancelledRun | packages/twenty-server/src/modules/messaging/message-import-manager/drivers/imap/services/imap-get-message-list.service.ts:73-82 | the ids are a stable, newest-first permutation of the collected messages; the next cursor is the last (oldest) date |
| ImapFetcher.CancelledRun | packages/twenty-server/src/modules/messaging/message-import-manager/drivers/imap/services/imap-get-message-list.service.ts:58-82 | a cancellation discards the messages of every mailbox: no ids, the stored cursor or `''` as next, and one emitted batch for the channel |
| ImapFetcher.FlagSetCancelsRun | packages/twenty-server/src/modules/messaging/message-import-manager/drivers/imap/services/imap-get-message-list.service.ts:43-82 | a flag already set at the start cancels a connected run at its first INBOX record: the empty result, one batch for the record's workspace, and the trace lock INBOX, checkpoint, release INBOX, close client |
| ImapFetcher.ReleaseOnEveryPath | packages/twenty-server/src/modules/messaging/message-import-manager/drivers/imap/services/imap-get-message-list.service.ts:105-107 | every path ends with the client release, after every lock taken was released |
| ImapFetcher.DisciplinedHasNoClose | packages/twenty-server/src/modules/messaging/message-import-manager/drivers/imap/services/imap-get-message-list.service.ts:105-107 | a trace that keeps the lock discipline has no client release, so the client is released exactly once |
| ImapFetcher.FailingMailboxSkipped | packages/twenty-server/src/modules/messaging/message-import-manager/drivers/imap/services/imap-get-message-list.service.ts:162-175 | a mailbox with a lock or stream failure contributes nothing; the mailboxes around it contribute as usual |
| ImapFetcher.NoCheckpointWithoutChannelId | packages/twenty-server/src/modules/messaging/message-import-manager/drivers/imap/services/imap-get-message-list.service.ts:134-139 | with an empty channel id no checkpoint runs, so nothing is cancelled and the store is unchanged |
| ImapFetcher.QuietRun | packages/twenty-server/src/modules/messaging/message-import-manager/drivers/imap/services/imap-get-message-list.service.ts:134-144 | with no flag and no outside writes a run is not cancelled and the store is unchanged |
| ImapFetcher.MergeExample | packages/twenty-server/src/modules/messaging/message-import-manager/drivers/imap/services/imap-get-message-list.service.ts:73-82 | INBOX dates 3 and 1 with sent-folder date 2 give ids in date order 3, 2, 1 and the next cursor at date 1 |
| LoadDateListener.RequestsFor | packages/twenty-server/src/modules/messaging/message-import-manager/listeners/messaging-message-channel-load-date-update.listener.ts:56-60 | one request per event, in order, for the event's record and the batch's workspace |
| LoadDateListener.IssueRequests | packages/twenty-server/src/modules/messaging/message-import-manager/listeners/messaging-message-channel-load-date-update.listener.ts:56-60 | issuing requests emits nothing |
| LoadDateListener.IssueRequestsEffect | packages/twenty-server/src/modules/messaging/message-import-manager/listeners/messaging-message-channel-load-date-update.listener.ts:56-60 | every requested channel ends with a set flag for the workspace; every other key is unchanged |
| LoadDateListener.HandleUpdatedEvent | packages/twenty-server/src/modules/messaging/message-import-manager/listeners/messaging-message-channel-load-date-update.listener.ts:33-65 | the i-th request is for the i-th date-changed event and the batch's workspace; nothing is emitted |
| LoadDateListener.UpdatedEventRequests | packages/twenty-server/src/modules/messaging/message-import-manager/listeners/messaging-message-channel-load-date-update.listener.ts:38-60 | requests go to exactly the events whose changed properties include `loadMessagesAfterDate`; with none, no request is made and the store is unchanged |
| LoadDateListener.UpdatedEventStore | packages/twenty-server/src/modules/messaging/message-import-manager/listeners/messaging-message-channel-load-date-update.listener.ts:38-60 | every date-changed channel ends pending for the batch's workspace; every other cache entry is unchanged |
| LoadDateListener.HandleSyncCancelled | packages/twenty-server/src/modules/messaging/message-import-manager/listeners/messaging-message-channel-load-date-update.listener.ts:67-84 | the queue keeps its jobs and gains one per event, the i-th for the batch's workspace and the i-th event's channel |
| LoadDateListener.Enqueue | packages/twenty-server/src/modules/messaging/message-import-manager/listeners/messaging-message-channel-load-date-update.listener.ts:71-78 | one job per event is appended, in order, each with the batch's workspace and the event's channel; earlier jobs stay |
| LoadDateListener.ObservedCancellationEnqueuesOneJob | packages/twenty-server/src/modules/messaging/message-import-manager/listeners/messaging-message-channel-load-date-update.listener.ts:71-78 | a true poll emits a batch that enqueues exactly one job, for the polled channel and the record's workspace |
| LoadDateListener.RequestedCancellationEnqueuesOneJob | packages/twenty-server/src/modules/messaging/message-import-manager/services/messaging-sync-abort.service.ts:25-53 | after a request for channel c in workspace w, with others touching only other channels, the next poll of c returns true and enqueues exactly `{w, c}` |
| LoadDateListener.DateChangeRestartsChannel | packages/twenty-server/src/modules/messaging/message-import-manager/listeners/messaging-message-channel-load-date-update.listener.ts:38-78 | a date change of channel c in a batch for workspace w makes the next poll of c enqueue exactly one job `{w, c}` |

## Left out

- The settings UI components (`SettingsAccountsMessageChannelDetails.tsx`, `SettingsAccountsMessageAfterDateCard.tsx`) are not part of this model. They hold React state, dispatch record updates, and parse dates against the clock.
- Provider clients are inputs or function parameters, because their code is not part of this model. This covers:
  - the Gmail and IMAP clients;
  - `getHistory` and `getMessageIdsFromHistory`;
  - `findSentMailbox`;
  - `computeGmailCategoryExcludeSearchFilter`;
  - `computeGmailCategoryLabelId`, which is folded into the per-category history input;
  - `mapGmailDefaultFolderToCategoryOrUndefined`.
- The error handlers (`handleGmailMessageListFetchError`, `handleGmailMessagesImportError`, `handleImapMessageListFetchError`) are taken to return normally, because their bodies are not part of this model. Only what the calling code does after them is modelled:
  - a failed page counts as an empty page;
  - a failed detail fetch means a missing history id;
  - an IMAP top-level failure gives the empty result.
- Failures of `getGmailClient` and of the history calls are left out. They would propagate out of the Gmail fetcher as errors, which the model has no value for.
- A failure of the cache read inside `shouldCancel` is left out. The cache is modelled as a map that always answers.
- Cache time-to-live mechanics and the constants (`MESSAGING_SYNC_CANCELLATION_TTL`, `MESSAGING_GMAIL_EXCLUDED_CATEGORIES`, the page-size limit) are not modelled as such:
  - expiry is an `Expire` action that removes the key;
  - the default excluded categories are a parameter;
  - the page size is not modelled.
- JavaScript dates are not modelled; the model uses the following instead:
  - the Gmail floor's UTC day comes from a parameter;
  - an invalid floor date, which would print `NaN`, is not modelled;
  - IMAP dates are integer timestamps rendered by an `isoString` parameter, and reading an ISO string back is taken to give the same timestamp;
  - `new Date()` is one `now` value for the whole run.
- Gmail list entries are ids as strings. An entry without an id is not modelled.
- ScanPages: the provider's answers are a finite sequence, and a list call beyond it fails. A provider that hands out next-page tokens forever is not modelled.
- The IMAP stream's failure is modelled only after its last delivered record (`failsAfter`). A failure that occurs before any record is a stream with no records that fails.
- The changed-properties helper `objectRecordChangedProperties` is not modelled. Its result is given per update event.
- The following are not modelled: logging, dependency injection, the event-bus and queue transport, async scheduling, and two fetch jobs for the same channel running concurrently (the code does not address that).
- The job that picks the provider's fetcher for a channel and acts on its result is not part of this model, since none of its code is among the modelled files.
- Cancellation.ShouldCancel: the fetch loops' checkpoints (`PollAt`) treat the cache read and the delete as one atomic step, so outside writes land only between checkpoints. In the code they are two awaited cache calls. A request landing between them is lost, and the emitted batch names the workspace read first. That case is modelled on its own by `ShouldCancelInterleaved` and `RequestBetweenReadAndDeleteLost`. `RequestThenPoll`, `ConsumedAtMostOnce` and `RequestedCancellationEnqueuesOneJob` rely on the atomic step.
