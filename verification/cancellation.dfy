/**
 * The sync-cancellation store: a per-channel flag kept in the messaging cache
 * under `sync-cancel:<channelId>`, and the log of "sync cancelled" batch events
 * emitted when a fetch loop observes and consumes a flag.
 */
module Cancellation {

  /** The cached value `{shouldCancel, workspaceId}`. */
  datatype CancelRecord = CancelRecord(shouldCancel: bool, workspaceId: string)

  /** One entry `{messageChannelId}` of a "sync cancelled" batch. */
  datatype CancelledEvent = CancelledEvent(messageChannelId: string)

  /** One emitted "sync cancelled" batch, tagged with its workspace. */
  datatype CancelledBatch = CancelledBatch(events: seq<CancelledEvent>, workspaceId: string)

  /** The shared state: the cache entries and the event log, oldest batch first. */
  datatype Store = Store(cache: map<string, CancelRecord>, emitted: seq<CancelledBatch>)

  const KeyPrefix: string := "sync-cancel:"

  /** The cache key of a channel's cancellation record. */
  function Key(channelId: string): string
  {
    KeyPrefix + channelId
  }

  /** The channel a cancellation key belongs to, if it is one. */
  function ChannelOfKey(key: string): (c: string)
  {
    if |key| >= |KeyPrefix| then key[|KeyPrefix|..] else key
  }

  /** Reading the channel back out of its key gives the channel. */
  lemma KeyRoundTrip(channelId: string)
    ensures ChannelOfKey(Key(channelId)) == channelId
  {
    assert Key(channelId)[|KeyPrefix|..] == channelId;
  }

  /** Distinct channels have distinct keys. */
  lemma KeyInjective(a: string, b: string)
    ensures Key(a) == Key(b) <==> a == b
  {
    if Key(a) == Key(b) {
      KeyRoundTrip(a);
      KeyRoundTrip(b);
    }
  }

  /** The channel has a record whose flag is set. */
  predicate Pending(s: Store, channelId: string)
  {
    Key(channelId) in s.cache && s.cache[Key(channelId)].shouldCancel
  }

  /** `requestCancellation`: unconditionally writes `{shouldCancel: true, workspaceId}`. */
  function RequestCancellation(s: Store, channelId: string, workspaceId: string): (r: Store)
    ensures Key(channelId) in r.cache && r.cache[Key(channelId)] == CancelRecord(true, workspaceId)
    ensures forall k :: k != Key(channelId) ==> (k in r.cache <==> k in s.cache)
    ensures forall k :: k != Key(channelId) && k in s.cache ==> r.cache[k] == s.cache[k]
    ensures r.emitted == s.emitted
  {
    Store(s.cache[Key(channelId) := CancelRecord(true, workspaceId)], s.emitted)
  }

  /** `clearCancellation`: deletes the channel's key and nothing else. */
  function ClearCancellation(s: Store, channelId: string): (r: Store)
    ensures Key(channelId) !in r.cache
    ensures forall k :: k != Key(channelId) ==> (k in r.cache <==> k in s.cache)
    ensures forall k :: k != Key(channelId) && k in s.cache ==> r.cache[k] == s.cache[k]
    ensures r.emitted == s.emitted
  {
    Store(s.cache - {Key(channelId)}, s.emitted)
  }

  /** The outcome of one `shouldCancel` poll: the new store and the returned boolean. */
  datatype Poll = Poll(store: Store, cancel: bool)

  /** The batch `shouldCancel` emits for a channel whose record names `workspaceId`. */
  function CancelledBatchFor(channelId: string, workspaceId: string): CancelledBatch
  {
    CancelledBatch([CancelledEvent(channelId)], workspaceId)
  }

  /**
   * `shouldCancel`: check-and-clear. A set flag is deleted and exactly one batch
   * for the record's workspace is emitted; otherwise nothing changes.
   */
  function ShouldCancel(s: Store, channelId: string): (p: Poll)
    ensures p.cancel <==> Pending(s, channelId)
    ensures p.cancel ==> Key(channelId) !in p.store.cache
    ensures forall k :: k != Key(channelId) ==> (k in p.store.cache <==> k in s.cache)
    ensures forall k :: k != Key(channelId) && k in s.cache ==> p.store.cache[k] == s.cache[k]
    ensures p.cancel ==>
      p.store.emitted == s.emitted + [CancelledBatchFor(channelId, s.cache[Key(channelId)].workspaceId)]
    ensures !p.cancel ==> p.store == s
  {
    if Pending(s, channelId) then
      var cleared := ClearCancellation(s, channelId);
      var batch := CancelledBatchFor(channelId, s.cache[Key(channelId)].workspaceId);
      Poll(Store(cleared.cache, cleared.emitted + [batch]), true)
    else
      Poll(s, false)
  }

  /** A requested cancellation is observed by the next poll of that channel. */
  lemma RequestThenPoll(s: Store, channelId: string, workspaceId: string)
    ensures var p := ShouldCancel(RequestCancellation(s, channelId, workspaceId), channelId);
      && p.cancel
      && p.store.emitted == s.emitted + [CancelledBatchFor(channelId, workspaceId)]
      && Key(channelId) !in p.store.cache
  {
  }

  /** A cancellation is consumed at most once: the poll right after a true poll is false and changes nothing. */
  lemma ConsumedAtMostOnce(s: Store, channelId: string)
    requires ShouldCancel(s, channelId).cancel
    ensures var s' := ShouldCancel(s, channelId).store;
      !ShouldCancel(s', channelId).cancel && ShouldCancel(s', channelId).store == s'
  {
  }

  /** Operations on one channel never change what a poll of another channel observes. */
  lemma ChannelIsolation(s: Store, a: string, b: string, workspaceId: string)
    requires a != b
    ensures Pending(RequestCancellation(s, a, workspaceId), b) == Pending(s, b)
    ensures Pending(ClearCancellation(s, a), b) == Pending(s, b)
    ensures Pending(ShouldCancel(s, a).store, b) == Pending(s, b)
    ensures Key(b) in s.cache ==>
      && RequestCancellation(s, a, workspaceId).cache[Key(b)] == s.cache[Key(b)]
      && ShouldCancel(s, a).store.cache[Key(b)] == s.cache[Key(b)]
  {
    KeyInjective(a, b);
  }

  /** Changes to the store made by others between two checkpoints of a fetch loop. */
  datatype StoreAction =
    | Request(channelId: string, workspaceId: string)  // a concurrent `requestCancellation`
    | Expire(channelId: string)                        // the record's time-to-live lapses

  function Apply(s: Store, a: StoreAction): (r: Store)
    ensures a.Request? ==> Key(a.channelId) in r.cache && r.cache[Key(a.channelId)] == CancelRecord(true, a.workspaceId)
    ensures a.Expire? ==> Key(a.channelId) !in r.cache
    ensures forall k :: k != Key(a.channelId) ==> (k in r.cache <==> k in s.cache)
    ensures forall k :: k != Key(a.channelId) && k in s.cache ==> r.cache[k] == s.cache[k]
    ensures r.emitted == s.emitted
  {
    match a
    case Request(c, w) => RequestCancellation(s, c, w)
    case Expire(c) => ClearCancellation(s, c)  // an expired entry is simply gone from the cache
  }

  function ApplyAll(s: Store, acts: seq<StoreAction>): (r: Store)
    ensures r.emitted == s.emitted
    decreases |acts|
  {
    if acts == [] then s else ApplyAll(Apply(s, acts[0]), acts[1..])
  }

  /** A record whose time-to-live lapsed is treated as absent, although it was written true. */
  lemma ExpiredRequestNotObserved(s: Store, channelId: string, workspaceId: string)
    ensures var s' := Apply(RequestCancellation(s, channelId, workspaceId), Expire(channelId));
      !ShouldCancel(s', channelId).cancel && ShouldCancel(s', channelId).store == s'
  {
  }

  /** Actions that name other channels leave a channel's record as it was. */
  lemma {:induction false} OtherChannelsUntouched(s: Store, acts: seq<StoreAction>, channelId: string)
    requires forall i :: 0 <= i < |acts| ==> acts[i].channelId != channelId
    ensures Key(channelId) in ApplyAll(s, acts).cache <==> Key(channelId) in s.cache
    ensures Key(channelId) in s.cache ==> ApplyAll(s, acts).cache[Key(channelId)] == s.cache[Key(channelId)]
    decreases |acts|
  {
    if acts != [] {
      KeyInjective(acts[0].channelId, channelId);
      OtherChannelsUntouched(Apply(s, acts[0]), acts[1..], channelId);
    }
  }

  /** `Arrivals[k]` lists the actions of others landing just before the k-th checkpoint of a fetch loop. */
  type Arrivals = seq<seq<StoreAction>>

  function ArrivalsAt(arrivals: Arrivals, k: nat): seq<StoreAction>
  {
    if k < |arrivals| then arrivals[k] else []
  }

  /** The k-th cancellation checkpoint of a fetch loop for `channelId`. */
  function PollAt(s: Store, arrivals: Arrivals, k: nat, channelId: string): (p: Poll)
    ensures |p.store.emitted| == |s.emitted| + (if p.cancel then 1 else 0)
    ensures p.store.emitted[..|s.emitted|] == s.emitted
    ensures p.cancel ==> p.store.emitted[|s.emitted|].events == [CancelledEvent(channelId)]
  {
    ShouldCancel(ApplyAll(s, ArrivalsAt(arrivals, k)), channelId)
  }

  /**
   * `shouldCancel` as the two cache operations it performs: the read, then, after
   * whatever `others` do meanwhile, the delete; the batch names the workspace that was read.
   */
  function ShouldCancelInterleaved(s: Store, channelId: string, others: seq<StoreAction>): (p: Poll)
    ensures p.cancel <==> Pending(s, channelId)
    ensures p.cancel ==> Key(channelId) !in p.store.cache
    ensures p.cancel ==>
      p.store.emitted == s.emitted + [CancelledBatchFor(channelId, s.cache[Key(channelId)].workspaceId)]
    ensures !p.cancel ==> p.store == ApplyAll(s, others)
  {
    if Pending(s, channelId) then
      var cleared := ClearCancellation(ApplyAll(s, others), channelId);
      Poll(Store(cleared.cache, cleared.emitted + [CancelledBatchFor(channelId, s.cache[Key(channelId)].workspaceId)]), true)
    else
      Poll(ApplyAll(s, others), false)
  }

  /** With nothing landing between the read and the delete, the two steps are the atomic poll. */
  lemma UninterruptedPollIsAtomic(s: Store, channelId: string)
    ensures ShouldCancelInterleaved(s, channelId, []) == ShouldCancel(s, channelId)
  {
  }

  /**
   * A request for the same channel landing between the read and the delete of a true
   * poll is lost: its record is deleted, the batch names the workspace of the earlier
   * record, and the next poll returns false.
   */
  lemma RequestBetweenReadAndDeleteLost(s: Store, channelId: string, workspaceId: string)
    requires Pending(s, channelId)
    ensures var p := ShouldCancelInterleaved(s, channelId, [Request(channelId, workspaceId)]);
      && p.cancel
      && Key(channelId) !in p.store.cache
      && p.store.emitted == s.emitted + [CancelledBatchFor(channelId, s.cache[Key(channelId)].workspaceId)]
      && !ShouldCancel(p.store, channelId).cancel
  {
  }

  /** Arrivals that are all empty: nobody else touches the store during the loop. */
  predicate Quiet(arrivals: Arrivals)
  {
    forall k :: 0 <= k < |arrivals| ==> arrivals[k] == []
  }

  /** Without interference a checkpoint is exactly a `shouldCancel` poll. */
  lemma QuietPoll(s: Store, arrivals: Arrivals, k: nat, channelId: string)
    requires Quiet(arrivals)
    ensures PollAt(s, arrivals, k, channelId) == ShouldCancel(s, channelId)
  {
  }
}
