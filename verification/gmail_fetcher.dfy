/**
 * The Gmail message-list fetcher. Without a stored cursor it does a full scan
 * (paginated search with a cancellation checkpoint before every page, then the
 * first message's history id as the next cursor); with a cursor it does a delta
 * fetch (history additions minus the ids seen in excluded-category histories).
 */
module GmailFetcher {
  import opened Options
  import opened Seqs
  import opened Cancellation
  import opened SyncTypes
  import opened GmailQuery

  /** A configured message folder; only its name is read. */
  datatype MessageFolder = MessageFolder(name: string)

  /** The provider's answer to one `users.messages.list` call. */
  datatype ListResponse =
    | ListOk(messages: Option<seq<string>>, nextPageToken: Option<string>)
    | ListFailed  // the call was rejected and the error handler let the failure pass

  /** The ids of a page; a failed call counts as an empty page. */
  function PageIds(r: ListResponse): seq<string>
  {
    if r.ListOk? && r.messages.Some? then r.messages.value else []
  }

  function PageToken(r: ListResponse): Option<string>
  {
    if r.ListOk? then r.nextPageToken else None
  }

  /** One history record of a category-scoped history call: the ids of its added messages, when present. */
  datatype HistoryRecord = HistoryRecord(messagesAdded: seq<Option<string>>)

  /** The channel's history since the stored cursor, as the history helpers report it. */
  datatype History = History(messagesAdded: seq<string>, messagesDeleted: seq<string>, historyId: Option<string>)

  /**
   * Everything the fetcher obtains from outside: the default excluded categories,
   * the folder-name-to-category mapping, the category search filter, the UTC
   * decomposition of a date, and the provider's answers.
   */
  datatype GmailEnv = GmailEnv(
    excludedByDefault: seq<string>,
    folderCategory: string -> Option<string>,
    categoryFilter: seq<string> -> string,
    utcDay: string -> CalendarDate,
    pages: seq<ListResponse>,             // answers to the successive list calls; later calls fail
    historyIdOf: string -> Option<string>, // `historyId` of `users.messages.get`, None when the call fails
    history: History,
    categoryHistory: string -> seq<HistoryRecord>)

  /** The provider calls of a full scan, in order; a checkpoint carries what `shouldCancel` answered. */
  datatype GmailCall = CheckedCancellation(observed: bool) | ListedPage(query: string, pageToken: Option<string>)

  // ---------------------------------------------------------------- categories

  /** The categories the configured folders map to, in folder order. */
  function IncludedDefaultCategories(folders: seq<MessageFolder>, folderCategory: string -> Option<string>): (r: seq<string>)
    ensures forall x :: x in r <==> exists i :: 0 <= i < |folders| && folderCategory(folders[i].name) == Some(x)
    decreases |folders|
  {
    if folders == [] then []
    else
      var rest := IncludedDefaultCategories(folders[1..], folderCategory);
      assert forall i :: 1 <= i < |folders| ==> folders[i] == folders[1..][i - 1];
      match folderCategory(folders[0].name)
      case Some(c) => [c] + rest
      case None => rest
  }

  /**
   * `comptuteExcludedCategories`: the default excluded categories, in order, minus
   * those a configured folder maps to.
   */
  function ComputeExcludedCategories(
    defaults: seq<string>, folders: seq<MessageFolder>, folderCategory: string -> Option<string>): (r: seq<string>)
    ensures Subsequence(r, defaults)
    ensures forall x :: x in r <==>
      x in defaults && forall i :: 0 <= i < |folders| ==> folderCategory(folders[i].name) != Some(x)
    ensures forall x :: x in r ==> multiset(r)[x] == multiset(defaults)[x]
  {
    Without(defaults, IncludedDefaultCategories(folders, folderCategory))
  }

  /** The truthy ids among the added messages of one history record. */
  function AddedIds(added: seq<Option<string>>): (r: seq<string>)
    ensures forall x :: x in r <==> x != "" && Some(x) in added
    decreases |added|
  {
    if added == [] then []
    else
      var rest := AddedIds(added[1..]);
      assert forall o :: o in added <==> o == added[0] || o in added[1..];
      if Truthy(added[0]) then [added[0].value] + rest else rest
  }

  /** The ids added in a category-scoped history: flattened, truthy ids only. */
  function CategoryHistoryIds(records: seq<HistoryRecord>): (r: seq<string>)
    ensures forall x :: x in r <==>
      x != "" && exists i :: 0 <= i < |records| && Some(x) in records[i].messagesAdded
    decreases |records|
  {
    if records == [] then []
    else
      assert forall i :: 1 <= i < |records| ==> records[i] == records[1..][i - 1];
      AddedIds(records[0].messagesAdded) + CategoryHistoryIds(records[1..])
  }

  /** `getEmailIdsFromExcludedCategories`: the ids added, since the cursor, to any of the categories. */
  function EmailIdsFromExcludedCategories(
    categories: seq<string>, categoryHistory: string -> seq<HistoryRecord>): (r: seq<string>)
    ensures forall x :: x in r <==>
      exists i :: 0 <= i < |categories| && x in CategoryHistoryIds(categoryHistory(categories[i]))
    decreases |categories|
  {
    if categories == [] then []
    else
      assert forall i :: 1 <= i < |categories| ==> categories[i] == categories[1..][i - 1];
      CategoryHistoryIds(categoryHistory(categories[0])) + EmailIdsFromExcludedCategories(categories[1..], categoryHistory)
  }

  // ---------------------------------------------------------------- full scan

  /** The state a full scan ends in: the ids collected, whether it was cancelled, the store, the calls made. */
  datatype Scan = Scan(ids: seq<string>, cancelled: bool, store: Store, calls: seq<GmailCall>)

  function ResponseAt(pages: seq<ListResponse>, k: nat): ListResponse
  {
    if k < |pages| then pages[k] else ListFailed
  }

  /**
   * The paginated loop from its k-th iteration on: a checkpoint, then the list call
   * with the current page token; stop at an empty page, or after a page without a
   * next token.
   */
  function ScanPages(
    s: Store, arrivals: Arrivals, channelId: string, query: string, pages: seq<ListResponse>,
    k: nat, token: Option<string>, ids: seq<string>, calls: seq<GmailCall>): (r: Scan)
    ensures |r.calls| > |calls|
    decreases |pages| - k
  {
    var p := PollAt(s, arrivals, k, channelId);
    if p.cancel then Scan(ids, true, p.store, calls + [CheckedCancellation(true)])
    else
      var response := ResponseAt(pages, k);
      var calls' := calls + [CheckedCancellation(false), ListedPage(query, token)];
      var page := PageIds(response);
      if page == [] then Scan(ids, false, p.store, calls')
      else if Truthy(PageToken(response)) then
        ScanPages(p.store, arrivals, channelId, query, pages, k + 1, PageToken(response), ids + page, calls')
      else Scan(ids + page, false, p.store, calls')
  }

  /** Reference: the ids an uninterrupted scan collects from the successive pages. */
  function RunIds(pages: seq<ListResponse>): seq<string>
    decreases |pages|
  {
    if pages == [] then []
    else if PageIds(pages[0]) == [] then []
    else if Truthy(PageToken(pages[0])) then PageIds(pages[0]) + RunIds(pages[1..])
    else PageIds(pages[0])
  }

  /** The page token the j-th list call of the loop started at iteration k sends. */
  function TokenOfCall(pages: seq<ListResponse>, k: nat, token: Option<string>, j: nat): Option<string>
  {
    if j == 0 then token else PageToken(ResponseAt(pages, k + j - 1))
  }

  /** A scan only appends to the calls made before it. */
  lemma {:induction false} ScanPrefix(
    s: Store, arrivals: Arrivals, channelId: string, query: string, pages: seq<ListResponse>,
    k: nat, token: Option<string>, ids: seq<string>, calls: seq<GmailCall>)
    ensures ScanPages(s, arrivals, channelId, query, pages, k, token, ids, calls).calls[..|calls|] == calls
    decreases |pages| - k
  {
    var p := PollAt(s, arrivals, k, channelId);
    var response := ResponseAt(pages, k);
    var rc := ScanPages(s, arrivals, channelId, query, pages, k, token, ids, calls).calls;
    if p.cancel {
      assert rc == calls + [CheckedCancellation(true)];
    } else if PageIds(response) == [] || !Truthy(PageToken(response)) {
      assert rc == calls + [CheckedCancellation(false), ListedPage(query, token)];
    } else {
      var calls' := calls + [CheckedCancellation(false), ListedPage(query, token)];
      var next := PageToken(response);
      ScanPrefix(p.store, arrivals, channelId, query, pages, k + 1, next, ids + PageIds(response), calls');
      assert rc == ScanPages(p.store, arrivals, channelId, query, pages, k + 1, next, ids + PageIds(response), calls').calls;
      assert rc[..|calls|] == rc[..|calls'|][..|calls|];
    }
  }

  /**
   * Every iteration begins with a real checkpoint: its label is the answer of
   * `shouldCancel` on the store as the arrivals left it. A set flag ends the scan
   * there, with no further list call, the ids so far, and the batch for the record's
   * workspace; otherwise the list call with the current page token follows.
   */
  lemma PageCheckpointDecides(
    s: Store, arrivals: Arrivals, channelId: string, query: string, pages: seq<ListResponse>,
    k: nat, token: Option<string>, ids: seq<string>, calls: seq<GmailCall>)
    ensures var before := ApplyAll(s, ArrivalsAt(arrivals, k));
      var r := ScanPages(s, arrivals, channelId, query, pages, k, token, ids, calls);
      && r.calls[|calls|] == CheckedCancellation(Pending(before, channelId))
      && (Pending(before, channelId) ==>
            && r.cancelled && r.ids == ids && r.calls == calls + [CheckedCancellation(true)]
            && r.store == ShouldCancel(before, channelId).store
            && r.store.emitted == s.emitted + [CancelledBatchFor(channelId, before.cache[Key(channelId)].workspaceId)])
      && (!Pending(before, channelId) ==>
            |r.calls| >= |calls| + 2 && r.calls[|calls| + 1] == ListedPage(query, token))
  {
    var r := ScanPages(s, arrivals, channelId, query, pages, k, token, ids, calls);
    var before := ApplyAll(s, ArrivalsAt(arrivals, k));
    if !Pending(before, channelId) {
      var calls' := calls + [CheckedCancellation(false), ListedPage(query, token)];
      var response := ResponseAt(pages, k);
      if PageIds(response) != [] && Truthy(PageToken(response)) {
        ScanPrefix(ShouldCancel(before, channelId).store, arrivals, channelId, query, pages, k + 1,
                   PageToken(response), ids + PageIds(response), calls');
      }
      assert r.calls[..|calls'|] == calls';
      assert r.calls[|calls|] == calls'[|calls|] && r.calls[|calls| + 1] == calls'[|calls| + 1];
    }
  }

  /**
   * Checkpoints and list calls alternate, starting with a checkpoint; the scan was
   * cancelled exactly when it ended on a checkpoint.
   */
  lemma {:induction false} ScanAlternates(
    s: Store, arrivals: Arrivals, channelId: string, query: string, pages: seq<ListResponse>,
    k: nat, token: Option<string>, ids: seq<string>, calls: seq<GmailCall>)
    ensures var r := ScanPages(s, arrivals, channelId, query, pages, k, token, ids, calls);
      && (forall i :: |calls| <= i < |r.calls| ==> (r.calls[i].CheckedCancellation? <==> (i - |calls|) % 2 == 0))
      && (r.cancelled <==> (|r.calls| - |calls|) % 2 == 1)
    decreases |pages| - k
  {
    var p := PollAt(s, arrivals, k, channelId);
    var response := ResponseAt(pages, k);
    var calls' := calls + [CheckedCancellation(false), ListedPage(query, token)];
    if p.cancel {
      assert ScanPages(s, arrivals, channelId, query, pages, k, token, ids, calls).calls == calls + [CheckedCancellation(true)];
      EndAlternates(calls + [CheckedCancellation(true)], calls, query, token);
    } else if PageIds(response) == [] || !Truthy(PageToken(response)) {
      assert ScanPages(s, arrivals, channelId, query, pages, k, token, ids, calls).calls == calls';
      EndAlternates(calls', calls, query, token);
    } else {
      var next := PageToken(response);
      ScanAlternates(p.store, arrivals, channelId, query, pages, k + 1, next, ids + PageIds(response), calls');
      ScanPrefix(p.store, arrivals, channelId, query, pages, k + 1, next, ids + PageIds(response), calls');
      var r := ScanPages(p.store, arrivals, channelId, query, pages, k + 1, next, ids + PageIds(response), calls');
      assert ScanPages(s, arrivals, channelId, query, pages, k, token, ids, calls).calls == r.calls;
      assert ScanPages(s, arrivals, channelId, query, pages, k, token, ids, calls).cancelled == r.cancelled;
      ShiftAlternates(r.calls, r.cancelled, calls, query, token);
    }
  }

  /** The alternation facts of the rest of a scan, shifted back over its first checkpoint and list call. */
  lemma ShiftAlternates(rc: seq<GmailCall>, cancelled: bool, calls: seq<GmailCall>, query: string, token: Option<string>)
    requires var calls' := calls + [CheckedCancellation(false), ListedPage(query, token)];
      && |rc| > |calls'| && rc[..|calls'|] == calls'
      && (forall i :: |calls'| <= i < |rc| ==> (rc[i].CheckedCancellation? <==> (i - |calls'|) % 2 == 0))
      && (cancelled <==> (|rc| - |calls'|) % 2 == 1)
    ensures forall i :: |calls| <= i < |rc| ==> (rc[i].CheckedCancellation? <==> (i - |calls|) % 2 == 0)
    ensures cancelled <==> (|rc| - |calls|) % 2 == 1
  {
    var calls' := calls + [CheckedCancellation(false), ListedPage(query, token)];
    forall i | |calls| <= i < |rc| ensures rc[i].CheckedCancellation? <==> (i - |calls|) % 2 == 0 {
      if i < |calls'| {
        assert rc[i] == rc[..|calls'|][i] == calls'[i];
      } else {
        assert (i - |calls|) % 2 == (i - |calls'|) % 2;
      }
    }
    assert (|rc| - |calls|) % 2 == (|rc| - |calls'|) % 2;
  }

  /** Every list call sends the scan's query and the token of the page before it (the initial token first). */
  lemma {:induction false} ScanTokens(
    s: Store, arrivals: Arrivals, channelId: string, query: string, pages: seq<ListResponse>,
    k: nat, token: Option<string>, ids: seq<string>, calls: seq<GmailCall>)
    ensures var r := ScanPages(s, arrivals, channelId, query, pages, k, token, ids, calls);
      forall i :: |calls| <= i < |r.calls| && r.calls[i].ListedPage? ==>
        r.calls[i] == ListedPage(query, TokenOfCall(pages, k, token, (i - |calls|) / 2))
    decreases |pages| - k
  {
    var p := PollAt(s, arrivals, k, channelId);
    var response := ResponseAt(pages, k);
    var calls' := calls + [CheckedCancellation(false), ListedPage(query, token)];
    if p.cancel {
      assert ScanPages(s, arrivals, channelId, query, pages, k, token, ids, calls).calls == calls + [CheckedCancellation(true)];
    } else if PageIds(response) == [] || !Truthy(PageToken(response)) {
      assert ScanPages(s, arrivals, channelId, query, pages, k, token, ids, calls).calls == calls';
      EndTokens(calls', calls, query, pages, k, token);
    } else {
      var next := PageToken(response);
      ScanTokens(p.store, arrivals, channelId, query, pages, k + 1, next, ids + PageIds(response), calls');
      ScanPrefix(p.store, arrivals, channelId, query, pages, k + 1, next, ids + PageIds(response), calls');
      assert var r0 := ScanPages(p.store, arrivals, channelId, query, pages, k + 1, next, ids + PageIds(response), calls');
        forall i :: |calls'| <= i < |r0.calls| && r0.calls[i].ListedPage? ==>
          r0.calls[i] == ListedPage(query, TokenOfCall(pages, k + 1, next, (i - |calls'|) / 2));
      var rc := ScanPages(p.store, arrivals, channelId, query, pages, k + 1, next, ids + PageIds(response), calls').calls;
      assert ScanPages(s, arrivals, channelId, query, pages, k, token, ids, calls).calls == rc;
      ShiftTokens(rc, calls, query, pages, k, token);
    }
  }

  /** The token fact of the rest of a scan, shifted back over its first checkpoint and list call. */
  lemma ShiftTokens(rc: seq<GmailCall>, calls: seq<GmailCall>, query: string, pages: seq<ListResponse>, k: nat, token: Option<string>)
    requires var calls' := calls + [CheckedCancellation(false), ListedPage(query, token)];
      && |rc| > |calls'| && rc[..|calls'|] == calls'
      && (forall i :: |calls'| <= i < |rc| && rc[i].ListedPage? ==>
            rc[i] == ListedPage(query, TokenOfCall(pages, k + 1, PageToken(ResponseAt(pages, k)), (i - |calls'|) / 2)))
    ensures forall i :: |calls| <= i < |rc| && rc[i].ListedPage? ==>
      rc[i] == ListedPage(query, TokenOfCall(pages, k, token, (i - |calls|) / 2))
  {
    var calls' := calls + [CheckedCancellation(false), ListedPage(query, token)];
    forall i | |calls| <= i < |rc| && rc[i].ListedPage?
      ensures rc[i] == ListedPage(query, TokenOfCall(pages, k, token, (i - |calls|) / 2))
    {
      if i < |calls'| {
        assert rc[i] == rc[..|calls'|][i] == calls'[i];
      } else {
        assert (i - |calls'|) / 2 + 1 == (i - |calls|) / 2;
      }
    }
  }

  /** The alternation facts of a scan that stops after its first checkpoint, or after its first list call. */
  lemma EndAlternates(rc: seq<GmailCall>, calls: seq<GmailCall>, query: string, token: Option<string>)
    requires rc == calls + [CheckedCancellation(true)] || rc == calls + [CheckedCancellation(false), ListedPage(query, token)]
    ensures forall i :: |calls| <= i < |rc| ==> (rc[i].CheckedCancellation? <==> (i - |calls|) % 2 == 0)
    ensures rc[|rc| - 1].CheckedCancellation? <==> (|rc| - |calls|) % 2 == 1
  {
  }

  /** The token fact of a scan that stops after its first list call. */
  lemma EndTokens(rc: seq<GmailCall>, calls: seq<GmailCall>, query: string, pages: seq<ListResponse>, k: nat, token: Option<string>)
    requires rc == calls + [CheckedCancellation(false), ListedPage(query, token)]
    ensures forall i :: |calls| <= i < |rc| && rc[i].ListedPage? ==>
      rc[i] == ListedPage(query, TokenOfCall(pages, k, token, (i - |calls|) / 2))
  {
  }

  /** The scan emits exactly one "sync cancelled" batch, for the channel, when it is cancelled, and none otherwise. */
  lemma {:induction false} ScanEmits(
    s: Store, arrivals: Arrivals, channelId: string, query: string, pages: seq<ListResponse>,
    k: nat, token: Option<string>, ids: seq<string>, calls: seq<GmailCall>)
    ensures var r := ScanPages(s, arrivals, channelId, query, pages, k, token, ids, calls);
      && |r.store.emitted| == |s.emitted| + (if r.cancelled then 1 else 0)
      && r.store.emitted[..|s.emitted|] == s.emitted
      && (r.cancelled ==> r.store.emitted[|s.emitted|].events == [CancelledEvent(channelId)])
    decreases |pages| - k
  {
    var p := PollAt(s, arrivals, k, channelId);
    var response := ResponseAt(pages, k);
    if !p.cancel && PageIds(response) != [] && Truthy(PageToken(response)) {
      var calls' := calls + [CheckedCancellation(false), ListedPage(query, token)];
      var next := PageToken(response);
      ScanEmits(p.store, arrivals, channelId, query, pages, k + 1, next, ids + PageIds(response), calls');
      var r := ScanPages(p.store, arrivals, channelId, query, pages, k + 1, next, ids + PageIds(response), calls');
      assert r.store.emitted[..|s.emitted|] == s.emitted by {
        assert r.store.emitted[..|s.emitted|] == r.store.emitted[..|p.store.emitted|][..|s.emitted|];
      }
    }
  }

  /** An uncancelled scan collects exactly the reference ids. */
  lemma {:induction false} ScanIds(
    s: Store, arrivals: Arrivals, channelId: string, query: string, pages: seq<ListResponse>,
    k: nat, token: Option<string>, ids: seq<string>, calls: seq<GmailCall>)
    requires k <= |pages|
    ensures var r := ScanPages(s, arrivals, channelId, query, pages, k, token, ids, calls);
      !r.cancelled ==> r.ids == ids + RunIds(pages[k..])
    decreases |pages| - k
  {
    var p := PollAt(s, arrivals, k, channelId);
    if k == |pages| {
      assert pages[k..] == [];
    } else {
      var response := pages[k];
      assert pages[k..][0] == response;
      assert pages[k..][1..] == pages[k + 1..];
      if !p.cancel && PageIds(response) != [] && Truthy(PageToken(response)) {
        var calls' := calls + [CheckedCancellation(false), ListedPage(query, token)];
        ScanIds(p.store, arrivals, channelId, query, pages, k + 1, PageToken(response), ids + PageIds(response), calls');
        assert ids + PageIds(response) + RunIds(pages[k + 1..]) == ids + (PageIds(response) + RunIds(pages[k + 1..]));
      } else if !p.cancel && PageIds(response) != [] {
        assert RunIds(pages[k..]) == PageIds(response);
      } else if !p.cancel {
        assert RunIds(pages[k..]) == [];
      }
    }
  }

  /** Nobody else touching the store and no pending flag: the scan is never cancelled and leaves the store as it was. */
  lemma {:induction false} QuietScanNotCancelled(
    s: Store, arrivals: Arrivals, channelId: string, query: string, pages: seq<ListResponse>,
    k: nat, token: Option<string>, ids: seq<string>, calls: seq<GmailCall>)
    requires Quiet(arrivals) && !Pending(s, channelId)
    ensures var r := ScanPages(s, arrivals, channelId, query, pages, k, token, ids, calls);
      !r.cancelled && r.store == s
    decreases |pages| - k
  {
    QuietPoll(s, arrivals, k, channelId);
    var response := ResponseAt(pages, k);
    if PageIds(response) != [] && Truthy(PageToken(response)) {
      var calls' := calls + [CheckedCancellation(false), ListedPage(query, token)];
      QuietScanNotCancelled(s, arrivals, channelId, query, pages, k + 1, PageToken(response), ids + PageIds(response), calls');
    }
  }

  // ---------------------------------------------------------------- the service

  /** The query of a full scan: the category filter of the excluded categories, with the channel's date floor. */
  function FullScanQuery(channel: Channel, folders: seq<MessageFolder>, env: GmailEnv): (q: string)
    ensures var f := env.categoryFilter(ComputeExcludedCategories(env.excludedByDefault, folders, env.folderCategory));
      && (!Truthy(channel.loadMessagesAfterDate) ==> q == f)
      && (Truthy(channel.loadMessagesAfterDate) ==>
            var date := FormatDate(env.utcDay(channel.loadMessagesAfterDate.value));
            q == if TrimStart(f) == [] then "after:" + date else TrimStart(f) + " after:" + date)
  {
    var excluded := ComputeExcludedCategories(env.excludedByDefault, folders, env.folderCategory);
    var f := env.categoryFilter(excluded);
    if Truthy(channel.loadMessagesAfterDate) then
      QueryWithDate(f, channel.loadMessagesAfterDate, env.utcDay);
      BuildFinalQuery(f, channel.loadMessagesAfterDate, env.utcDay)
    else
      BuildFinalQuery(f, channel.loadMessagesAfterDate, env.utcDay)
  }

  /** The full scan's page loop, started from scratch. */
  function FullScanPages(s: Store, arrivals: Arrivals, channel: Channel, folders: seq<MessageFolder>, env: GmailEnv): Scan
  {
    ScanPages(s, arrivals, channel.id, FullScanQuery(channel, folders, env), env.pages, 0, None, [], [])
  }

  /** The outcome of a fetch: the response or the raised error, the store after it, the full scan's calls. */
  datatype GmailRun = GmailRun(outcome: Result<FetchResult, DriverError>, store: Store, calls: seq<GmailCall>)

  /**
   * `getMessageListWithoutCursor`. A cursor is reported only with messages; a
   * success never carries a previous cursor other than `''`.
   */
  function GetMessageListWithoutCursor(
    s: Store, arrivals: Arrivals, channel: Channel, folders: seq<MessageFolder>, env: GmailEnv): (r: GmailRun)
    ensures r.outcome.Ok? ==>
      && r.outcome.value.previousSyncCursor == Some("")
      && r.outcome.value.messageExternalIdsToDelete == []
      && r.outcome.value.folderId == None
      && (r.outcome.value.nextSyncCursor == "" <==> r.outcome.value.messageExternalIds == [])
    ensures r.outcome.Ok? && r.outcome.value.messageExternalIds != [] ==>
      Some(r.outcome.value.nextSyncCursor) == env.historyIdOf(r.outcome.value.messageExternalIds[0])
  {
    var scan := FullScanPages(s, arrivals, channel, folders, env);
    if scan.cancelled then GmailRun(Err(SyncCancelled), scan.store, scan.calls)
    else if scan.ids == [] then GmailRun(Ok(EmptyResult("", Some(""))), scan.store, scan.calls)
    else
      var anchor := env.historyIdOf(scan.ids[0]);
      if !Truthy(anchor) then GmailRun(Err(NoNextSyncCursor), scan.store, scan.calls)
      else GmailRun(Ok(FetchResult(scan.ids, [], anchor.value, Some(""), None)), scan.store, scan.calls)
  }

  /** The delta fetch of `getMessageLists`, with the stored cursor. */
  function DeltaFetch(cursor: string, folders: seq<MessageFolder>, env: GmailEnv): (r: Result<FetchResult, DriverError>)
    ensures r.Err? <==> !Truthy(env.history.historyId)
    ensures r.Err? ==> r.error == NoNextSyncCursor
    ensures r.Ok? ==>
      && Subsequence(r.value.messageExternalIds, env.history.messagesAdded)
      && r.value.messageExternalIdsToDelete == env.history.messagesDeleted
      && r.value.previousSyncCursor == Some(cursor)
      && Some(r.value.nextSyncCursor) == env.history.historyId
      && r.value.folderId == None
  {
    var excluded := ComputeExcludedCategories(env.excludedByDefault, folders, env.folderCategory);
    var toFilter := EmailIdsFromExcludedCategories(excluded, env.categoryHistory);
    var added := Without(env.history.messagesAdded, toFilter);
    if !Truthy(env.history.historyId) then Err(NoNextSyncCursor)
    else Ok(FetchResult(added, env.history.messagesDeleted, env.history.historyId.value, Some(cursor), None))
  }

  /**
   * `getMessageLists`: a full scan when the stored cursor is empty or absent (a
   * cancellation becomes an empty result), a delta fetch otherwise.
   */
  function GetMessageLists(
    s: Store, arrivals: Arrivals, channel: Channel, folders: seq<MessageFolder>, env: GmailEnv): (r: GmailRun)
    ensures r.outcome != Err(SyncCancelled)
    ensures Truthy(channel.syncCursor) ==> r.store == s && r.calls == []
    ensures r.outcome.Ok? ==> r.outcome.value.messageExternalIds == [] || r.outcome.value.nextSyncCursor != ""
  {
    if !Truthy(channel.syncCursor) then
      var full := GetMessageListWithoutCursor(s, arrivals, channel, folders, env);
      if full.outcome == Err(SyncCancelled) then GmailRun(Ok(EmptyResult("", Some(""))), full.store, full.calls)
      else full
    else
      GmailRun(DeltaFetch(channel.syncCursor.value, folders, env), s, [])
  }

  // ---------------------------------------------------------------- properties of the service

  /**
   * Without a cursor: a cancelled scan yields the empty result with both cursors `''`
   * and exactly one emitted batch for the channel; an uncancelled one yields the
   * reference ids with the first id's history id, or `NO_NEXT_SYNC_CURSOR`.
   */
  lemma FullScanOutcome(s: Store, arrivals: Arrivals, channel: Channel, folders: seq<MessageFolder>, env: GmailEnv)
    requires !Truthy(channel.syncCursor)
    ensures var scan := FullScanPages(s, arrivals, channel, folders, env);
      var r := GetMessageLists(s, arrivals, channel, folders, env);
      && (scan.cancelled ==>
            && r.outcome == Ok(EmptyResult("", Some("")))
            && |r.store.emitted| == |s.emitted| + 1
            && r.store.emitted[|s.emitted|].events == [CancelledEvent(channel.id)])
      && (!scan.cancelled ==>
            && r.store.emitted == s.emitted
            && var ids := RunIds(env.pages);
            && (ids == [] ==> r.outcome == Ok(EmptyResult("", Some(""))))
            && (ids != [] && Truthy(env.historyIdOf(ids[0])) ==>
                  r.outcome == Ok(FetchResult(ids, [], env.historyIdOf(ids[0]).value, Some(""), None)))
            && (ids != [] && !Truthy(env.historyIdOf(ids[0])) ==> r.outcome == Err(NoNextSyncCursor)))
  {
    var query := FullScanQuery(channel, folders, env);
    var scan := FullScanPages(s, arrivals, channel, folders, env);
    var r := GetMessageLists(s, arrivals, channel, folders, env);
    ScanEmits(s, arrivals, channel.id, query, env.pages, 0, None, [], []);
    ScanIds(s, arrivals, channel.id, query, env.pages, 0, None, [], []);
    assert env.pages[0..] == env.pages;
    assert r.store == scan.store;
    if !scan.cancelled {
      assert scan.ids == RunIds(env.pages);
      assert scan.store.emitted[..|s.emitted|] == s.emitted;
    }
  }

  /**
   * A flag already set when the scan starts: the first checkpoint fires, no list call
   * is made, the result is empty and the flag is consumed.
   */
  lemma CancelledBeforeFirstPage(s: Store, channel: Channel, folders: seq<MessageFolder>, env: GmailEnv)
    requires !Truthy(channel.syncCursor) && Pending(s, channel.id)
    ensures var r := GetMessageLists(s, [], channel, folders, env);
      && r.outcome == Ok(EmptyResult("", Some("")))
      && r.calls == [CheckedCancellation(true)]
      && Key(channel.id) !in r.store.cache
      && r.store.emitted == s.emitted + [CancelledBatchFor(channel.id, s.cache[Key(channel.id)].workspaceId)]
  {
  }

  /** With no flag and nobody else touching the store, a full scan is never cancelled and the store is unchanged. */
  lemma QuietFullScan(s: Store, arrivals: Arrivals, channel: Channel, folders: seq<MessageFolder>, env: GmailEnv)
    requires !Truthy(channel.syncCursor) && Quiet(arrivals) && !Pending(s, channel.id)
    ensures !FullScanPages(s, arrivals, channel, folders, env).cancelled
    ensures GetMessageLists(s, arrivals, channel, folders, env).store == s
  {
    QuietScanNotCancelled(s, arrivals, channel.id, FullScanQuery(channel, folders, env), env.pages, 0, None, [], []);
  }

  /**
   * With a cursor the additions are the history additions, in order, minus every id
   * any excluded category's history reports; multiplicities of kept ids are preserved.
   */
  lemma DeltaAdditions(channel: Channel, folders: seq<MessageFolder>, env: GmailEnv)
    requires Truthy(channel.syncCursor) && Truthy(env.history.historyId)
    ensures var r := GetMessageLists(Store(map[], []), [], channel, folders, env).outcome;
      var excluded := ComputeExcludedCategories(env.excludedByDefault, folders, env.folderCategory);
      && r.Ok?
      && r.value.previousSyncCursor == channel.syncCursor
      && (forall x :: x in r.value.messageExternalIds <==>
            && x in env.history.messagesAdded
            && !exists i :: 0 <= i < |excluded| && x in CategoryHistoryIds(env.categoryHistory(excluded[i])))
      && (forall x :: x in r.value.messageExternalIds ==>
            multiset(r.value.messageExternalIds)[x] == multiset(env.history.messagesAdded)[x])
  {
  }

  /** The delta result does not depend on the store, the arrivals or the flag: delta mode has no checkpoint. */
  lemma DeltaIgnoresStore(s: Store, arrivals: Arrivals, channel: Channel, folders: seq<MessageFolder>, env: GmailEnv)
    requires Truthy(channel.syncCursor)
    ensures GetMessageLists(s, arrivals, channel, folders, env).outcome
         == GetMessageLists(Store(map[], []), [], channel, folders, env).outcome
  {
  }

  lemma ExampleCategoryIds()
    ensures CategoryHistoryIds([HistoryRecord([Some("B"), None])]) == ["B"]
  {
    var added: seq<Option<string>> := [Some("B"), None];
    assert added[1..] == [None];
    assert AddedIds(added) == ["B"];
  }

  lemma ExampleWithout()
    ensures Without(["A", "B", "C"], ["B"]) == ["A", "C"]
  {
    var s := ["A", "B", "C"];
    assert s[1..] == ["B", "C"];
    assert s[1..][1..] == ["C"];
  }

  /** Additions A, B, C with B reported by an excluded category's history give A, C; deletions pass through. */
  lemma DeltaExample(env: GmailEnv)
    requires env.excludedByDefault == ["CATEGORY_PROMOTIONS"]
    requires env.history == History(["A", "B", "C"], ["D"], Some("42"))
    requires env.categoryHistory("CATEGORY_PROMOTIONS") == [HistoryRecord([Some("B"), None])]
    ensures GetMessageLists(Store(map[], []), [], Channel("ch", Some("41"), None), [], env).outcome
         == Ok(FetchResult(["A", "C"], ["D"], "42", Some("41"), None))
  {
    var included := IncludedDefaultCategories([], env.folderCategory);
    assert included == [];
    var excluded := ComputeExcludedCategories(env.excludedByDefault, [], env.folderCategory);
    assert excluded == Without(["CATEGORY_PROMOTIONS"], []);
    assert excluded == ["CATEGORY_PROMOTIONS"];
    ExampleCategoryIds();
    var toFilter := EmailIdsFromExcludedCategories(excluded, env.categoryHistory);
    assert toFilter == ["B"] by {
      assert excluded[1..] == [];
    }
    ExampleWithout();
  }
}
