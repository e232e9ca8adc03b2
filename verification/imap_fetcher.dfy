/**
 * The IMAP message-list fetcher: INBOX and the sent folder, each streamed under
 * a mailbox lock with a cancellation checkpoint before every record, merged,
 * sorted newest first, with the oldest date as the next cursor.
 */
module ImapFetcher {
  import opened Options
  import opened Seqs
  import opened Cancellation
  import opened SyncTypes
  import opened DateSort

  /** The `date` field of an envelope as `new Date(date)` sees it. */
  datatype EnvelopeDate = NoDate | InvalidDate | ValidDate(time: int)

  datatype Envelope = Envelope(messageId: Option<string>, date: EnvelopeDate)

  /** One streamed fetch record; its envelope may be missing. */
  datatype FetchedRecord = FetchedRecord(envelope: Option<Envelope>)

  /** What opening a mailbox gives: a lock failure, or a stream of records that may fail after its last record. */
  datatype MailboxStream = LockFailed | Stream(records: seq<FetchedRecord>, failsAfter: bool)

  /** The outcome of `findSentMailbox`. */
  datatype SentLookup = Found(folder: Option<string>) | LookupFailed

  /**
   * The connection and the server's answers: whether `getClient` succeeds, the
   * sent-folder lookup, the stream of each mailbox for a `since` bound, the
   * `toISOString` rendering of a timestamp, and the clock.
   */
  datatype ImapEnv = ImapEnv(
    clientOk: bool,
    sentMailbox: SentLookup,
    serve: (string, Option<string>) -> MailboxStream,
    isoString: int -> string,
    now: int)

  /** Observable side effects, in order: locks, checkpoints and the final client release. */
  datatype ImapEvent = LockAcquired(mailbox: string) | LockReleased(mailbox: string) | Checked(mailbox: string) | ClientClosed

  /** `['INBOX']`, with the sent folder appended when one was found. */
  function MailboxList(sent: Option<string>): (r: seq<string>)
    ensures |r| >= 1 && r[0] == "INBOX"
    ensures |r| == 2 <==> Truthy(sent)
    ensures |r| <= 2 && (|r| == 2 ==> r[1] == sent.value)
  {
    if Truthy(sent) then ["INBOX", sent.value] else ["INBOX"]
  }

  /** The `since` search bound: the date floor first, then the cursor, else unbounded. */
  function SinceBound(channel: Channel): (r: Option<string>)
    ensures Truthy(channel.loadMessagesAfterDate) ==> r == channel.loadMessagesAfterDate
    ensures !Truthy(channel.loadMessagesAfterDate) && Truthy(channel.syncCursor) ==> r == channel.syncCursor
    ensures !Truthy(channel.loadMessagesAfterDate) && !Truthy(channel.syncCursor) ==> r == None
  {
    if Truthy(channel.loadMessagesAfterDate) then channel.loadMessagesAfterDate
    else if Truthy(channel.syncCursor) then channel.syncCursor
    else None
  }

  /** The message a record contributes: only with a truthy message id; a missing or invalid date is `now`. */
  function Accept(record: FetchedRecord, now: int): (r: seq<Dated>)
    ensures |r| <= 1
    ensures |r| == 1 <==> record.envelope.Some? && Truthy(record.envelope.value.messageId)
    ensures |r| == 1 ==> r[0].id == record.envelope.value.messageId.value && r[0].id != ""
    ensures |r| == 1 ==> r[0].time == (if record.envelope.value.date.ValidDate? then record.envelope.value.date.time else now)
  {
    if record.envelope.Some? && Truthy(record.envelope.value.messageId) then
      var e := record.envelope.value;
      [Dated(e.messageId.value, if e.date.ValidDate? then e.date.time else now)]
    else []
  }

  /** Reference: the messages an uninterrupted stream of records yields. */
  function CollectAll(records: seq<FetchedRecord>, now: int): seq<Dated>
    decreases |records|
  {
    if records == [] then [] else Accept(records[0], now) + CollectAll(records[1..], now)
  }

  /** The state after streaming some records: messages so far, cancellation, store, next checkpoint index, side effects. */
  datatype Progress = Progress(messages: seq<Dated>, cancelled: bool, store: Store, polls: nat, trace: seq<ImapEvent>)

  /** The `for await` loop over a mailbox's records; the checkpoint runs only for a truthy channel id. */
  function ScanRecords(
    s: Store, arrivals: Arrivals, k: nat, channelId: string, mailbox: string,
    records: seq<FetchedRecord>, now: int, acc: seq<Dated>, trace: seq<ImapEvent>): (r: Progress)
    ensures r.polls >= k && |r.trace| >= |trace| && r.trace[..|trace|] == trace
    ensures r.cancelled ==> channelId != "" && records != []
    decreases |records|
  {
    if records == [] then Progress(acc, false, s, k, trace)
    else if channelId != "" then
      var p := PollAt(s, arrivals, k, channelId);
      if p.cancel then Progress(acc, true, p.store, k + 1, trace + [Checked(mailbox)])
      else ScanRecords(p.store, arrivals, k + 1, channelId, mailbox, records[1..], now,
                       acc + Accept(records[0], now), trace + [Checked(mailbox)])
    else ScanRecords(s, arrivals, k, channelId, mailbox, records[1..], now, acc + Accept(records[0], now), trace)
  }

  /**
   * `getMessagesFromMailbox`: a lock failure or a failing stream yields nothing for
   * the mailbox; a cancellation escapes; the lock is released whenever it was taken.
   */
  function GetMessagesFromMailbox(
    s: Store, arrivals: Arrivals, k: nat, channel: Channel, mailbox: string, env: ImapEnv, trace: seq<ImapEvent>): (r: Progress)
    ensures env.serve(mailbox, SinceBound(channel)).LockFailed? ==> r == Progress([], false, s, k, trace)
    ensures env.serve(mailbox, SinceBound(channel)).Stream? ==>
      && |r.trace| >= |trace| + 2 && r.trace[..|trace|] == trace
      && r.trace[|trace|] == LockAcquired(mailbox) && r.trace[|r.trace| - 1] == LockReleased(mailbox)
    ensures r.cancelled || env.serve(mailbox, SinceBound(channel)).LockFailed? || env.serve(mailbox, SinceBound(channel)).failsAfter
      ==> r.messages == []
    ensures r.polls >= k && (r.cancelled ==> channel.id != "")
  {
    match env.serve(mailbox, SinceBound(channel))
    case LockFailed => Progress([], false, s, k, trace)
    case Stream(records, failsAfter) =>
      var scan := ScanRecords(s, arrivals, k, channel.id, mailbox, records, env.now, [], trace + [LockAcquired(mailbox)]);
      var released := scan.trace + [LockReleased(mailbox)];
      if scan.cancelled then Progress([], true, scan.store, scan.polls, released)
      else if failsAfter then Progress([], false, scan.store, scan.polls, released)
      else Progress(scan.messages, false, scan.store, scan.polls, released)
  }

  /** The loop over the mailboxes; a cancellation stops it. */
  function ScanMailboxes(
    s: Store, arrivals: Arrivals, k: nat, channel: Channel, mailboxes: seq<string>, env: ImapEnv,
    acc: seq<Dated>, trace: seq<ImapEvent>): (r: Progress)
    ensures r.polls >= k
    ensures r.cancelled ==> channel.id != "" && mailboxes != []
    decreases |mailboxes|
  {
    if mailboxes == [] then Progress(acc, false, s, k, trace)
    else
      var m := GetMessagesFromMailbox(s, arrivals, k, channel, mailboxes[0], env, trace);
      if m.cancelled then Progress(acc, true, m.store, m.polls, m.trace)
      else ScanMailboxes(m.store, arrivals, m.polls, channel, mailboxes[1..], env, acc + m.messages, m.trace)
  }

  /** Reference: what one mailbox contributes when the run is not cancelled. */
  function MailboxYield(stream: MailboxStream, now: int): seq<Dated>
  {
    match stream
    case LockFailed => []
    case Stream(records, failsAfter) => if failsAfter then [] else CollectAll(records, now)
  }

  /** Reference: the contributions of the mailboxes, in mailbox order. */
  function AllYields(mailboxes: seq<string>, since: Option<string>, env: ImapEnv): seq<Dated>
    decreases |mailboxes|
  {
    if mailboxes == [] then [] else MailboxYield(env.serve(mailboxes[0], since), env.now) + AllYields(mailboxes[1..], since, env)
  }

  /** The outcome of `getMessageLists`: the single response element, the store and the side effects. */
  datatype ImapRun = ImapRun(outcome: FetchResult, store: Store, trace: seq<ImapEvent>)

  /** The response built from the merged messages: newest first, oldest date as the next cursor. */
  function BuildResult(all: seq<Dated>, cursor: Option<string>, isoString: int -> string): (r: FetchResult)
    ensures r.messageExternalIdsToDelete == [] && r.previousSyncCursor == cursor && r.folderId == None
    ensures |r.messageExternalIds| == |all|
    ensures all == [] ==> r.nextSyncCursor == OrEmpty(cursor)
  {
    var sorted := SortByDateDesc(all);
    if sorted == [] then FetchResult([], [], OrEmpty(cursor), cursor, None)
    else
      FetchResult(Ids(sorted), [], isoString(sorted[|sorted| - 1].time), cursor, None)
  }

  /**
   * `getMessageLists`. A failed connection or sent-folder lookup, or a cancellation,
   * gives no ids and keeps the cursor; the client is closed on every path.
   */
  function GetMessageLists(s: Store, arrivals: Arrivals, channel: Channel, env: ImapEnv): (r: ImapRun)
    ensures r.outcome.messageExternalIdsToDelete == [] && r.outcome.folderId == None
    ensures r.outcome.previousSyncCursor == channel.syncCursor
    ensures r.outcome.messageExternalIds == [] ==> r.outcome.nextSyncCursor == OrEmpty(channel.syncCursor)
    ensures (!env.clientOk || env.sentMailbox.LookupFailed?) ==>
      r.outcome == EmptyResult(OrEmpty(channel.syncCursor), channel.syncCursor) && r.store == s && r.trace == [ClientClosed]
    ensures r.trace != [] && r.trace[|r.trace| - 1] == ClientClosed
  {
    if !env.clientOk || env.sentMailbox.LookupFailed? then
      ImapRun(EmptyResult(OrEmpty(channel.syncCursor), channel.syncCursor), s, [ClientClosed])
    else
      var mailboxes := MailboxList(env.sentMailbox.folder);
      var scan := ScanMailboxes(s, arrivals, 0, channel, mailboxes, env, [], []);
      var all := if scan.cancelled then [] else scan.messages;
      ImapRun(BuildResult(all, channel.syncCursor, env.isoString), scan.store, scan.trace + [ClientClosed])
  }

  // ---------------------------------------------------------------- properties

  /** The lock discipline, replayed: None once violated, else the mailbox currently locked. */
  function LockState(t: seq<ImapEvent>): Option<Option<string>>
    decreases |t|
  {
    if t == [] then Some(None)
    else
      var before := LockState(t[..|t| - 1]);
      if before.None? then None
      else
        var held := before.value;
        match t[|t| - 1]
        case LockAcquired(m) => if held == None then Some(Some(m)) else None
        case LockReleased(m) => if held == Some(m) then Some(None) else None
        case Checked(m) => if held == Some(m) then Some(held) else None
        case ClientClosed => None
  }

  /** Locks taken one at a time and each released, checkpoints only under the mailbox's lock, no client release. */
  predicate Disciplined(t: seq<ImapEvent>)
  {
    LockState(t) == Some(None)
  }

  lemma LockStateAppend(t: seq<ImapEvent>, e: ImapEvent)
    ensures LockState(t + [e]) == if LockState(t).None? then None else
      var held := LockState(t).value;
      match e
      case LockAcquired(m) => if held == None then Some(Some(m)) else None
      case LockReleased(m) => if held == Some(m) then Some(None) else None
      case Checked(m) => if held == Some(m) then Some(held) else None
      case ClientClosed => None
  {
    assert (t + [e])[..|t + [e]| - 1] == t;
  }

  /** The record loop only adds checkpoints of its mailbox, and emits one batch exactly when it is cancelled. */
  lemma {:induction false} ScanRecordsEffects(
    s: Store, arrivals: Arrivals, k: nat, channelId: string, mailbox: string,
    records: seq<FetchedRecord>, now: int, acc: seq<Dated>, trace: seq<ImapEvent>)
    requires LockState(trace) == Some(Some(mailbox))
    ensures var r := ScanRecords(s, arrivals, k, channelId, mailbox, records, now, acc, trace);
      && LockState(r.trace) == Some(Some(mailbox))
      && |r.store.emitted| == |s.emitted| + (if r.cancelled then 1 else 0)
      && r.store.emitted[..|s.emitted|] == s.emitted
      && (r.cancelled ==> r.store.emitted[|s.emitted|].events == [CancelledEvent(channelId)])
      && (r.cancelled ==> channelId != "")
    decreases |records|
  {
    if records != [] {
      var acc' := acc + Accept(records[0], now);
      if channelId != "" {
        var p := PollAt(s, arrivals, k, channelId);
        LockStateAppend(trace, Checked(mailbox));
        if !p.cancel {
          ScanRecordsEffects(p.store, arrivals, k + 1, channelId, mailbox, records[1..], now, acc', trace + [Checked(mailbox)]);
          assert p.store == ApplyAll(s, ArrivalsAt(arrivals, k));
        }
      } else {
        ScanRecordsEffects(s, arrivals, k, channelId, mailbox, records[1..], now, acc', trace);
      }
    }
  }

  /**
   * With a channel id, one checkpoint per record: an uncancelled loop polls once per
   * record, a cancelled one at most once per record, and each poll is logged under the
   * mailbox's lock.
   */
  lemma {:induction false} ScanRecordsCheckpoints(
    s: Store, arrivals: Arrivals, k: nat, channelId: string, mailbox: string,
    records: seq<FetchedRecord>, now: int, acc: seq<Dated>, trace: seq<ImapEvent>)
    requires channelId != ""
    ensures var r := ScanRecords(s, arrivals, k, channelId, mailbox, records, now, acc, trace);
      && r.polls <= k + |records|
      && |r.trace| == |trace| + (r.polls - k)
      && (forall i :: |trace| <= i < |r.trace| ==> r.trace[i] == Checked(mailbox))
      && (!r.cancelled ==> r.polls == k + |records|)
    decreases |records|
  {
    if records != [] {
      var p := PollAt(s, arrivals, k, channelId);
      if !p.cancel {
        var trace' := trace + [Checked(mailbox)];
        var acc' := acc + Accept(records[0], now);
        ScanRecordsCheckpoints(p.store, arrivals, k + 1, channelId, mailbox, records[1..], now, acc', trace');
        var r := ScanRecords(p.store, arrivals, k + 1, channelId, mailbox, records[1..], now, acc', trace');
        forall i | |trace| <= i < |r.trace| ensures r.trace[i] == Checked(mailbox) {
          if i == |trace| {
            assert r.trace[i] == r.trace[..|trace'|][i] == trace'[i];
          }
        }
      }
    }
  }

  /**
   * Each checkpoint precedes its record: a loop cancelled at its n-th poll has
   * collected the messages of the n - 1 records before it, and not of the record
   * the poll guarded.
   */
  lemma {:induction false} CancelledBeforeRecord(
    s: Store, arrivals: Arrivals, k: nat, channelId: string, mailbox: string,
    records: seq<FetchedRecord>, now: int, acc: seq<Dated>, trace: seq<ImapEvent>)
    ensures var r := ScanRecords(s, arrivals, k, channelId, mailbox, records, now, acc, trace);
      r.cancelled ==> k < r.polls <= k + |records| && r.messages == acc + CollectAll(records[..r.polls - k - 1], now)
    decreases |records|
  {
    if records != [] && channelId != "" {
      var p := PollAt(s, arrivals, k, channelId);
      if p.cancel {
        assert records[..0] == [];
      } else {
        var trace' := trace + [Checked(mailbox)];
        var acc' := acc + Accept(records[0], now);
        CancelledBeforeRecord(p.store, arrivals, k + 1, channelId, mailbox, records[1..], now, acc', trace');
        var r := ScanRecords(p.store, arrivals, k + 1, channelId, mailbox, records[1..], now, acc', trace');
        if r.cancelled {
          var j := r.polls - k - 1;
          assert records[..j][1..] == records[1..][..j - 1];
          assert records[..j][0] == records[0];
        }
      }
    }
  }

  /**
   * The checkpoint before a record polls the store as the arrivals left it: a set flag
   * cancels there, before the record is read, emitting the batch for the record's
   * workspace; otherwise the record is taken and the loop goes on.
   */
  lemma RecordCheckpointDecides(
    s: Store, arrivals: Arrivals, k: nat, channelId: string, mailbox: string,
    records: seq<FetchedRecord>, now: int, acc: seq<Dated>, trace: seq<ImapEvent>)
    requires channelId != "" && records != []
    ensures var before := ApplyAll(s, ArrivalsAt(arrivals, k));
      var r := ScanRecords(s, arrivals, k, channelId, mailbox, records, now, acc, trace);
      && (Pending(before, channelId) ==>
            && r == Progress(acc, true, ShouldCancel(before, channelId).store, k + 1, trace + [Checked(mailbox)])
            && r.store.emitted == s.emitted + [CancelledBatchFor(channelId, before.cache[Key(channelId)].workspaceId)])
      && (!Pending(before, channelId) ==>
            r == ScanRecords(before, arrivals, k + 1, channelId, mailbox, records[1..], now,
                             acc + Accept(records[0], now), trace + [Checked(mailbox)]))
  {
  }

  /** An uncancelled record loop collects the reference messages of its records. */
  lemma {:induction false} ScanRecordsYield(
    s: Store, arrivals: Arrivals, k: nat, channelId: string, mailbox: string,
    records: seq<FetchedRecord>, now: int, acc: seq<Dated>, trace: seq<ImapEvent>)
    ensures var r := ScanRecords(s, arrivals, k, channelId, mailbox, records, now, acc, trace);
      !r.cancelled ==> r.messages == acc + CollectAll(records, now)
    decreases |records|
  {
    if records != [] {
      var acc' := acc + Accept(records[0], now);
      assert acc' + CollectAll(records[1..], now) == acc + CollectAll(records, now);
      if channelId != "" {
        var p := PollAt(s, arrivals, k, channelId);
        ScanRecordsYield(p.store, arrivals, k + 1, channelId, mailbox, records[1..], now, acc', trace + [Checked(mailbox)]);
      } else {
        ScanRecordsYield(s, arrivals, k, channelId, mailbox, records[1..], now, acc', trace);
      }
    }
  }

  /** One mailbox: every lock it takes is released, and at most one batch, naming the channel, is emitted. */
  lemma MailboxEffects(s: Store, arrivals: Arrivals, k: nat, channel: Channel, mailbox: string, env: ImapEnv, trace: seq<ImapEvent>)
    requires Disciplined(trace)
    ensures var r := GetMessagesFromMailbox(s, arrivals, k, channel, mailbox, env, trace);
      && Disciplined(r.trace)
      && |r.store.emitted| == |s.emitted| + (if r.cancelled then 1 else 0)
      && r.store.emitted[..|s.emitted|] == s.emitted
      && (r.cancelled ==> r.store.emitted[|s.emitted|].events == [CancelledEvent(channel.id)])
  {
    match env.serve(mailbox, SinceBound(channel))
    case LockFailed =>
    case Stream(records, failsAfter) =>
      LockStateAppend(trace, LockAcquired(mailbox));
      ScanRecordsEffects(s, arrivals, k, channel.id, mailbox, records, env.now, [], trace + [LockAcquired(mailbox)]);
      var scan := ScanRecords(s, arrivals, k, channel.id, mailbox, records, env.now, [], trace + [LockAcquired(mailbox)]);
      LockStateAppend(scan.trace, LockReleased(mailbox));
  }

  /** One mailbox, not cancelled: nothing on a lock or stream failure, its records' messages otherwise. */
  lemma MailboxYields(s: Store, arrivals: Arrivals, k: nat, channel: Channel, mailbox: string, env: ImapEnv, trace: seq<ImapEvent>)
    ensures var r := GetMessagesFromMailbox(s, arrivals, k, channel, mailbox, env, trace);
      !r.cancelled ==> r.messages == MailboxYield(env.serve(mailbox, SinceBound(channel)), env.now)
  {
    match env.serve(mailbox, SinceBound(channel))
    case LockFailed =>
    case Stream(records, failsAfter) =>
      ScanRecordsYield(s, arrivals, k, channel.id, mailbox, records, env.now, [], trace + [LockAcquired(mailbox)]);
  }

  /** Across the mailboxes: the lock discipline holds, and one batch is emitted exactly when the run is cancelled. */
  lemma {:induction false} ScanMailboxesEffects(
    s: Store, arrivals: Arrivals, k: nat, channel: Channel, mailboxes: seq<string>, env: ImapEnv,
    acc: seq<Dated>, trace: seq<ImapEvent>)
    requires Disciplined(trace)
    ensures var r := ScanMailboxes(s, arrivals, k, channel, mailboxes, env, acc, trace);
      && Disciplined(r.trace)
      && |r.store.emitted| == |s.emitted| + (if r.cancelled then 1 else 0)
      && r.store.emitted[..|s.emitted|] == s.emitted
      && (r.cancelled ==> r.store.emitted[|s.emitted|].events == [CancelledEvent(channel.id)])
    decreases |mailboxes|
  {
    if mailboxes != [] {
      MailboxEffects(s, arrivals, k, channel, mailboxes[0], env, trace);
      var m := GetMessagesFromMailbox(s, arrivals, k, channel, mailboxes[0], env, trace);
      if !m.cancelled {
        ScanMailboxesEffects(m.store, arrivals, m.polls, channel, mailboxes[1..], env, acc + m.messages, m.trace);
        var r := ScanMailboxes(m.store, arrivals, m.polls, channel, mailboxes[1..], env, acc + m.messages, m.trace);
        assert m.store.emitted == s.emitted;
        assert r.store.emitted[..|s.emitted|] == s.emitted;
      }
    }
  }

  /** An uncancelled run collects the mailboxes' yields, concatenated in mailbox order. */
  lemma {:induction false} ScanMailboxesYield(
    s: Store, arrivals: Arrivals, k: nat, channel: Channel, mailboxes: seq<string>, env: ImapEnv,
    acc: seq<Dated>, trace: seq<ImapEvent>)
    ensures var r := ScanMailboxes(s, arrivals, k, channel, mailboxes, env, acc, trace);
      !r.cancelled ==> r.messages == acc + AllYields(mailboxes, SinceBound(channel), env)
    decreases |mailboxes|
  {
    if mailboxes != [] {
      MailboxYields(s, arrivals, k, channel, mailboxes[0], env, trace);
      var m := GetMessagesFromMailbox(s, arrivals, k, channel, mailboxes[0], env, trace);
      if !m.cancelled {
        ScanMailboxesYield(m.store, arrivals, m.polls, channel, mailboxes[1..], env, acc + m.messages, m.trace);
        assert acc + m.messages + AllYields(mailboxes[1..], SinceBound(channel), env)
            == acc + AllYields(mailboxes, SinceBound(channel), env);
      }
    }
  }

  /** The messages of the whole run, when not cancelled: each mailbox's yield, in mailbox order. */
  function CollectedMessages(channel: Channel, env: ImapEnv): seq<Dated>
    requires env.sentMailbox.Found?
  {
    AllYields(MailboxList(env.sentMailbox.folder), SinceBound(channel), env)
  }

  /** The full mailbox loop of a connected run. */
  function RunScan(s: Store, arrivals: Arrivals, channel: Channel, env: ImapEnv): Progress
    requires env.sentMailbox.Found?
  {
    ScanMailboxes(s, arrivals, 0, channel, MailboxList(env.sentMailbox.folder), env, [], [])
  }

  /**
   * The response lists the ids of the sorted merge, and its cursor is the date of
   * the last sorted message, which is an oldest collected message.
   */
  lemma BuildResultOrder(all: seq<Dated>, cursor: Option<string>, isoString: int -> string)
    ensures var sorted := SortByDateDesc(all);
      && BuildResult(all, cursor, isoString).messageExternalIds == Ids(sorted)
      && (all != [] ==> BuildResult(all, cursor, isoString).nextSyncCursor == isoString(sorted[|sorted| - 1].time))
    ensures all != [] ==>
      exists m :: m in all && BuildResult(all, cursor, isoString).nextSyncCursor == isoString(m.time) &&
        (forall n :: n in all ==> m.time <= n.time)
  {
    if all != [] {
      LastIsOldest(all);
      var sorted := SortByDateDesc(all);
      var m := sorted[|sorted| - 1];
      assert m in all && BuildResult(all, cursor, isoString).nextSyncCursor == isoString(m.time);
    }
  }

  /** A connected, uncancelled run builds its response from the collected messages and emits nothing. */
  lemma UncancelledOutcome(s: Store, arrivals: Arrivals, channel: Channel, env: ImapEnv)
    requires env.clientOk && env.sentMailbox.Found?
    requires !RunScan(s, arrivals, channel, env).cancelled
    ensures var r := GetMessageLists(s, arrivals, channel, env);
      && r.outcome == BuildResult(CollectedMessages(channel, env), channel.syncCursor, env.isoString)
      && r.store.emitted == s.emitted
  {
    ScanMailboxesEffects(s, arrivals, 0, channel, MailboxList(env.sentMailbox.folder), env, [], []);
    ScanMailboxesYield(s, arrivals, 0, channel, MailboxList(env.sentMailbox.folder), env, [], []);
    var scan := RunScan(s, arrivals, channel, env);
    assert scan.messages == CollectedMessages(channel, env);
    assert scan.store.emitted == scan.store.emitted[..|s.emitted|];
  }

  /**
   * A connected, uncancelled run returns the ids of the collected messages sorted
   * newest first (a stable permutation of them), with the oldest message's date as the
   * next cursor, and leaves the event log as it was.
   */
  lemma UncancelledRun(s: Store, arrivals: Arrivals, channel: Channel, env: ImapEnv)
    requires env.clientOk && env.sentMailbox.Found?
    requires !RunScan(s, arrivals, channel, env).cancelled
    ensures var r := GetMessageLists(s, arrivals, channel, env);
      var all := CollectedMessages(channel, env);
      var sorted := SortByDateDesc(all);
      && r.outcome.messageExternalIds == Ids(sorted)
      && NonIncreasing(sorted) && multiset(sorted) == multiset(all)
      && (forall t :: WithTime(sorted, t) == WithTime(all, t))
      && (all != [] ==> r.outcome.nextSyncCursor == env.isoString(sorted[|sorted| - 1].time))
      && r.store.emitted == s.emitted
  {
    UncancelledOutcome(s, arrivals, channel, env);
    var all := CollectedMessages(channel, env);
    BuildResultOrder(all, channel.syncCursor, env.isoString);
    forall t ensures WithTime(SortByDateDesc(all), t) == WithTime(all, t) {
      SortStable(all, t);
    }
  }

  /**
   * A cancelled run discards the messages of every mailbox: no ids, the previous
   * cursor kept, and exactly one "sync cancelled" batch emitted for the channel.
   */
  lemma CancelledRun(s: Store, arrivals: Arrivals, channel: Channel, env: ImapEnv)
    requires env.clientOk && env.sentMailbox.Found?
    requires RunScan(s, arrivals, channel, env).cancelled
    ensures var r := GetMessageLists(s, arrivals, channel, env);
      && r.outcome == EmptyResult(OrEmpty(channel.syncCursor), channel.syncCursor)
      && |r.store.emitted| == |s.emitted| + 1
      && r.store.emitted[..|s.emitted|] == s.emitted
      && r.store.emitted[|s.emitted|].events == [CancelledEvent(channel.id)]
  {
    ScanMailboxesEffects(s, arrivals, 0, channel, MailboxList(env.sentMailbox.folder), env, [], []);
  }

  /**
   * A flag already set when the run starts, for a channel with an id, cancels a connected
   * run at the first INBOX record: the empty result, the batch for the record's workspace,
   * and the INBOX lock released before the client.
   */
  lemma FlagSetCancelsRun(
    s: Store, arrivals: Arrivals, channel: Channel, env: ImapEnv, records: seq<FetchedRecord>, failsAfter: bool)
    requires env.clientOk && env.sentMailbox.Found? && channel.id != ""
    requires env.serve("INBOX", SinceBound(channel)) == Stream(records, failsAfter) && records != []
    requires Pending(ApplyAll(s, ArrivalsAt(arrivals, 0)), channel.id)
    ensures RunScan(s, arrivals, channel, env).cancelled
    ensures var before := ApplyAll(s, ArrivalsAt(arrivals, 0));
      var r := GetMessageLists(s, arrivals, channel, env);
      && r.outcome == EmptyResult(OrEmpty(channel.syncCursor), channel.syncCursor)
      && r.store.emitted == s.emitted + [CancelledBatchFor(channel.id, before.cache[Key(channel.id)].workspaceId)]
      && r.trace == [LockAcquired("INBOX"), Checked("INBOX"), LockReleased("INBOX"), ClientClosed]
  {
    var mailboxes := MailboxList(env.sentMailbox.folder);
    RecordCheckpointDecides(s, arrivals, 0, channel.id, "INBOX", records, env.now, [], [LockAcquired("INBOX")]);
    assert mailboxes[0] == "INBOX";
  }

  /** Every path ends with exactly one client release, after every lock has been released. */
  lemma ReleaseOnEveryPath(s: Store, arrivals: Arrivals, channel: Channel, env: ImapEnv)
    ensures var t := GetMessageLists(s, arrivals, channel, env).trace;
      && t != [] && t[|t| - 1] == ClientClosed
      && Disciplined(t[..|t| - 1])
  {
    var r := GetMessageLists(s, arrivals, channel, env);
    if env.clientOk && env.sentMailbox.Found? {
      ScanMailboxesEffects(s, arrivals, 0, channel, MailboxList(env.sentMailbox.folder), env, [], []);
      var scan := RunScan(s, arrivals, channel, env);
      assert r.trace[..|r.trace| - 1] == scan.trace;
    } else {
      assert r.trace[..|r.trace| - 1] == [];
    }
  }

  /** A disciplined trace holds no client release: with the above, the client is closed exactly once. */
  lemma {:induction false} DisciplinedHasNoClose(t: seq<ImapEvent>)
    requires Disciplined(t) || LockState(t).Some?
    ensures ClientClosed !in t
    decreases |t|
  {
    if t != [] {
      var init := t[..|t| - 1];
      assert t == init + [t[|t| - 1]];
      LockStateAppend(init, t[|t| - 1]);
      DisciplinedHasNoClose(init);
    }
  }

  /** A failing mailbox contributes nothing, and the mailboxes after it are still scanned. */
  lemma FailingMailboxSkipped(channel: Channel, env: ImapEnv, mailboxes: seq<string>, i: nat)
    requires i < |mailboxes|
    requires env.serve(mailboxes[i], SinceBound(channel)).LockFailed? ||
             env.serve(mailboxes[i], SinceBound(channel)).failsAfter
    ensures AllYields(mailboxes, SinceBound(channel), env)
         == AllYields(mailboxes[..i], SinceBound(channel), env) + AllYields(mailboxes[i + 1..], SinceBound(channel), env)
  {
    AllYieldsSplit(mailboxes, i, SinceBound(channel), env);
  }

  lemma {:induction false} AllYieldsAppend(a: seq<string>, b: seq<string>, since: Option<string>, env: ImapEnv)
    ensures AllYields(a + b, since, env) == AllYields(a, since, env) + AllYields(b, since, env)
    decreases |a|
  {
    if a == [] {
      assert a + b == b;
    } else {
      assert (a + b)[0] == a[0];
      assert (a + b)[1..] == a[1..] + b;
      AllYieldsAppend(a[1..], b, since, env);
    }
  }

  lemma AllYieldsSplit(mailboxes: seq<string>, i: nat, since: Option<string>, env: ImapEnv)
    requires i < |mailboxes|
    ensures AllYields(mailboxes, since, env)
         == AllYields(mailboxes[..i], since, env) + MailboxYield(env.serve(mailboxes[i], since), env.now)
            + AllYields(mailboxes[i + 1..], since, env)
  {
    var rest := [mailboxes[i]] + mailboxes[i + 1..];
    assert mailboxes == mailboxes[..i] + rest;
    AllYieldsAppend(mailboxes[..i], rest, since, env);
    assert rest[1..] == mailboxes[i + 1..];
  }

  /** With an empty channel id there is no checkpoint: the run is never cancelled and the store is unchanged. */
  lemma {:induction false} NoCheckpointWithoutChannelId(
    s: Store, arrivals: Arrivals, k: nat, mailbox: string, records: seq<FetchedRecord>, now: int,
    acc: seq<Dated>, trace: seq<ImapEvent>)
    ensures var r := ScanRecords(s, arrivals, k, "", mailbox, records, now, acc, trace);
      !r.cancelled && r.store == s && r.trace == trace
    decreases |records|
  {
    if records != [] {
      NoCheckpointWithoutChannelId(s, arrivals, k, mailbox, records[1..], now, acc + Accept(records[0], now), trace);
    }
  }

  lemma {:induction false} QuietRecords(
    s: Store, arrivals: Arrivals, k: nat, channelId: string, mailbox: string,
    records: seq<FetchedRecord>, now: int, acc: seq<Dated>, trace: seq<ImapEvent>)
    requires Quiet(arrivals) && !Pending(s, channelId)
    ensures var r := ScanRecords(s, arrivals, k, channelId, mailbox, records, now, acc, trace);
      !r.cancelled && r.store == s
    decreases |records|
  {
    if records != [] {
      QuietPoll(s, arrivals, k, channelId);
      var k' := if channelId != "" then k + 1 else k;
      var trace' := if channelId != "" then trace + [Checked(mailbox)] else trace;
      QuietRecords(s, arrivals, k', channelId, mailbox, records[1..], now, acc + Accept(records[0], now), trace');
    }
  }

  lemma {:induction false} QuietMailboxes(
    s: Store, arrivals: Arrivals, k: nat, channel: Channel, mailboxes: seq<string>, env: ImapEnv,
    acc: seq<Dated>, trace: seq<ImapEvent>)
    requires Quiet(arrivals) && !Pending(s, channel.id)
    ensures var r := ScanMailboxes(s, arrivals, k, channel, mailboxes, env, acc, trace);
      !r.cancelled && r.store == s
    decreases |mailboxes|
  {
    if mailboxes != [] {
      var m := GetMessagesFromMailbox(s, arrivals, k, channel, mailboxes[0], env, trace);
      match env.serve(mailboxes[0], SinceBound(channel)) {
        case LockFailed =>
        case Stream(records, _) =>
          QuietRecords(s, arrivals, k, channel.id, mailboxes[0], records, env.now, [], trace + [LockAcquired(mailboxes[0])]);
      }
      QuietMailboxes(s, arrivals, m.polls, channel, mailboxes[1..], env, acc + m.messages, m.trace);
    }
  }

  /** With no flag and nobody else touching the store, a run is never cancelled and the store is unchanged. */
  lemma QuietRun(s: Store, arrivals: Arrivals, channel: Channel, env: ImapEnv)
    requires env.clientOk && env.sentMailbox.Found?
    requires Quiet(arrivals) && !Pending(s, channel.id)
    ensures !RunScan(s, arrivals, channel, env).cancelled
    ensures GetMessageLists(s, arrivals, channel, env).store == s
  {
    QuietMailboxes(s, arrivals, 0, channel, MailboxList(env.sentMailbox.folder), env, [], []);
  }

  function Rec(id: string, time: int): FetchedRecord
  {
    FetchedRecord(Some(Envelope(Some(id), ValidDate(time))))
  }

  lemma ExampleSort()
    ensures SortByDateDesc([Dated("m3", 3), Dated("m1", 1), Dated("m2", 2)]) == [Dated("m3", 3), Dated("m2", 2), Dated("m1", 1)]
  {
    var s := [Dated("m3", 3), Dated("m1", 1), Dated("m2", 2)];
    assert s[1..] == [Dated("m1", 1), Dated("m2", 2)];
    assert s[1..][1..] == [Dated("m2", 2)];
    assert Insert(Dated("m1", 1), [Dated("m2", 2)]) == [Dated("m2", 2), Dated("m1", 1)];
  }

  lemma ExampleYields(env: ImapEnv, since: Option<string>)
    requires env.serve("INBOX", since) == Stream([Rec("m3", 3), Rec("m1", 1)], false)
    requires env.serve("Sent", since) == Stream([Rec("m2", 2)], false)
    ensures AllYields(["INBOX", "Sent"], since, env) == [Dated("m3", 3), Dated("m1", 1), Dated("m2", 2)]
  {
    var inbox := [Rec("m3", 3), Rec("m1", 1)];
    assert inbox[1..] == [Rec("m1", 1)];
    assert CollectAll(inbox, env.now) == [Dated("m3", 3), Dated("m1", 1)];
    assert CollectAll([Rec("m2", 2)], env.now) == [Dated("m2", 2)];
    var boxes := ["INBOX", "Sent"];
    assert boxes[1..] == ["Sent"];
  }

  /**
   * INBOX with dates 3 and 1 and the sent folder with date 2 merge to 3, 2, 1, and the
   * next cursor is the rendering of date 1.
   */
  lemma MergeExample(env: ImapEnv, channel: Channel)
    requires env.clientOk && env.sentMailbox == Found(Some("Sent"))
    requires env.serve("INBOX", SinceBound(channel)) == Stream([Rec("m3", 3), Rec("m1", 1)], false)
    requires env.serve("Sent", SinceBound(channel)) == Stream([Rec("m2", 2)], false)
    ensures GetMessageLists(Store(map[], []), [], channel, env).outcome
         == FetchResult(["m3", "m2", "m1"], [], env.isoString(1), channel.syncCursor, None)
  {
    var s := Store(map[], []);
    QuietRun(s, [], channel, env);
    UncancelledOutcome(s, [], channel, env);
    assert MailboxList(Some("Sent")) == ["INBOX", "Sent"];
    ExampleYields(env, SinceBound(channel));
    ExampleBuild(channel.syncCursor, env.isoString);
  }

  lemma ExampleIds()
    ensures Ids([Dated("m3", 3), Dated("m2", 2), Dated("m1", 1)]) == ["m3", "m2", "m1"]
  {
  }

  lemma ExampleBuild(cursor: Option<string>, isoString: int -> string)
    ensures BuildResult([Dated("m3", 3), Dated("m1", 1), Dated("m2", 2)], cursor, isoString)
         == FetchResult(["m3", "m2", "m1"], [], isoString(1), cursor, None)
  {
    ExampleSort();
    ExampleIds();
  }
}
