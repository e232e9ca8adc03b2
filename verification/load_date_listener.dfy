/**
 * The listener that reacts to changes of a channel's `loadMessagesAfterDate`:
 * it requests cancellation of the running sync, and it enqueues a fresh
 * message-list fetch job for every "sync cancelled" event.
 */
module LoadDateListener {
  import opened Seqs
  import opened Cancellation

  /**
   * One record-update event of a message channel. `changedProperties` is what the
   * changed-properties helper computes from the record's before and after states.
   */
  datatype UpdateEvent = UpdateEvent(recordId: string, changedProperties: seq<string>)

  /** A batch of update events of one workspace. */
  datatype UpdateBatch = UpdateBatch(events: seq<UpdateEvent>, workspaceId: string)

  /** One `requestCancellation(channelId, workspaceId)` call. */
  datatype CancelRequest = CancelRequest(channelId: string, workspaceId: string)

  /** The payload of a message-list fetch job. */
  datatype FetchJob = FetchJob(workspaceId: string, messageChannelId: string)

  /** The store after `handleUpdatedEvent`, with the requests it issued in order. */
  datatype UpdateOutcome = UpdateOutcome(store: Store, requests: seq<CancelRequest>)

  const LoadDateProperty: string := "loadMessagesAfterDate"

  predicate ChangesLoadDate(e: UpdateEvent)
  {
    LoadDateProperty in e.changedProperties
  }

  /** The events of the batch whose changed properties include the date floor, in batch order. */
  function ChannelsWithDateChange(events: seq<UpdateEvent>): seq<UpdateEvent>
  {
    Filter(events, ChangesLoadDate)
  }

  /** One request per event, in order, all tagged with the batch's workspace. */
  function RequestsFor(events: seq<UpdateEvent>, workspaceId: string): (r: seq<CancelRequest>)
    ensures |r| == |events|
    ensures forall i :: 0 <= i < |events| ==> r[i] == CancelRequest(events[i].recordId, workspaceId)
    decreases |events|
  {
    if events == [] then []
    else [CancelRequest(events[0].recordId, workspaceId)] + RequestsFor(events[1..], workspaceId)
  }

  /** Issues the requests one after the other against the store. */
  function IssueRequests(s: Store, requests: seq<CancelRequest>): (r: Store)
    ensures r.emitted == s.emitted
    decreases |requests|
  {
    if requests == [] then s
    else IssueRequests(RequestCancellation(s, requests[0].channelId, requests[0].workspaceId), requests[1..])
  }

  /** Requests that all name one workspace set exactly their channels' records. */
  lemma {:induction false} IssueRequestsEffect(s: Store, requests: seq<CancelRequest>, workspaceId: string)
    requires forall i :: 0 <= i < |requests| ==> requests[i].workspaceId == workspaceId
    ensures var r := IssueRequests(s, requests);
      && (forall i :: 0 <= i < |requests| ==>
            Key(requests[i].channelId) in r.cache
            && r.cache[Key(requests[i].channelId)] == CancelRecord(true, workspaceId))
      && (forall k :: (forall i :: 0 <= i < |requests| ==> k != Key(requests[i].channelId)) ==>
            (k in r.cache <==> k in s.cache) && (k in s.cache ==> r.cache[k] == s.cache[k]))
    decreases |requests|
  {
    if requests != [] {
      var s1 := RequestCancellation(s, requests[0].channelId, workspaceId);
      IssueRequestsEffect(s1, requests[1..], workspaceId);
      var r := IssueRequests(s, requests);
      assert r == IssueRequests(s1, requests[1..]);
      forall i | 0 <= i < |requests|
        ensures Key(requests[i].channelId) in r.cache
        ensures r.cache[Key(requests[i].channelId)] == CancelRecord(true, workspaceId)
      {
        if i > 0 {
          assert requests[i] == requests[1..][i - 1];
        } else if exists j :: 0 <= j < |requests[1..]| && Key(requests[1..][j].channelId) == Key(requests[0].channelId) {
          var j :| 0 <= j < |requests[1..]| && Key(requests[1..][j].channelId) == Key(requests[0].channelId);
          assert requests[1..][j].workspaceId == workspaceId;
        }
      }
      forall k | (forall i :: 0 <= i < |requests| ==> k != Key(requests[i].channelId))
        ensures (k in r.cache <==> k in s.cache) && (k in s.cache ==> r.cache[k] == s.cache[k])
      {
        assert k != Key(requests[0].channelId);
        forall j | 0 <= j < |requests[1..]|
          ensures k != Key(requests[1..][j].channelId)
        {
          assert requests[1..][j] == requests[j + 1];
        }
      }
    }
  }

  /**
   * `handleUpdatedEvent`: keeps the events that change `loadMessagesAfterDate`
   * and requests cancellation for each of them, in batch order.
   */
  function HandleUpdatedEvent(s: Store, batch: UpdateBatch): (r: UpdateOutcome)
    ensures |r.requests| == |ChannelsWithDateChange(batch.events)|
    ensures forall i :: 0 <= i < |r.requests| ==>
      r.requests[i] == CancelRequest(ChannelsWithDateChange(batch.events)[i].recordId, batch.workspaceId)
    ensures r.store.emitted == s.emitted
  {
    var changed := ChannelsWithDateChange(batch.events);
    if |changed| == 0 then UpdateOutcome(s, [])
    else
      var requests := RequestsFor(changed, batch.workspaceId);
      UpdateOutcome(IssueRequests(s, requests), requests)
  }

  /** Requests are issued for exactly the events that change the date floor, and for no other. */
  lemma UpdatedEventRequests(s: Store, batch: UpdateBatch)
    ensures var r := HandleUpdatedEvent(s, batch);
      && (forall q :: q in r.requests ==>
            q.workspaceId == batch.workspaceId
            && exists e :: e in batch.events && ChangesLoadDate(e) && e.recordId == q.channelId)
      && (forall e :: e in batch.events && ChangesLoadDate(e) ==>
            CancelRequest(e.recordId, batch.workspaceId) in r.requests)
      && ((forall e :: e in batch.events ==> !ChangesLoadDate(e)) ==> r.requests == [] && r.store == s)
  {
    var r := HandleUpdatedEvent(s, batch);
    var changed := ChannelsWithDateChange(batch.events);
    forall q | q in r.requests
      ensures q.workspaceId == batch.workspaceId
      ensures exists e :: e in batch.events && ChangesLoadDate(e) && e.recordId == q.channelId
    {
      var i :| 0 <= i < |r.requests| && r.requests[i] == q;
      assert changed[i] in changed;
    }
    forall e | e in batch.events && ChangesLoadDate(e)
      ensures CancelRequest(e.recordId, batch.workspaceId) in r.requests
    {
      assert e in changed;
      var i :| 0 <= i < |changed| && changed[i] == e;
      assert r.requests[i] == CancelRequest(e.recordId, batch.workspaceId);
    }
  }

  /**
   * After `handleUpdatedEvent` every date-changed channel has a set flag for the
   * batch's workspace; every other cache entry is as before and nothing is emitted.
   */
  lemma UpdatedEventStore(s: Store, batch: UpdateBatch)
    ensures var r := HandleUpdatedEvent(s, batch).store;
      && (forall e :: e in batch.events && ChangesLoadDate(e) ==>
            Key(e.recordId) in r.cache && r.cache[Key(e.recordId)] == CancelRecord(true, batch.workspaceId))
      && (forall k :: (forall e :: e in batch.events && ChangesLoadDate(e) ==> k != Key(e.recordId)) ==>
            (k in r.cache <==> k in s.cache) && (k in s.cache ==> r.cache[k] == s.cache[k]))
      && r.emitted == s.emitted
  {
    var changed := ChannelsWithDateChange(batch.events);
    var out := HandleUpdatedEvent(s, batch);
    if |changed| > 0 {
      var requests := RequestsFor(changed, batch.workspaceId);
      IssueRequestsEffect(s, requests, batch.workspaceId);
      forall e | e in batch.events && ChangesLoadDate(e)
        ensures Key(e.recordId) in out.store.cache
        ensures out.store.cache[Key(e.recordId)] == CancelRecord(true, batch.workspaceId)
      {
        assert e in changed;
        var i :| 0 <= i < |changed| && changed[i] == e;
        assert requests[i].channelId == e.recordId;
      }
      forall k | (forall e :: e in batch.events && ChangesLoadDate(e) ==> k != Key(e.recordId))
        ensures (k in out.store.cache <==> k in s.cache)
        ensures k in s.cache ==> out.store.cache[k] == s.cache[k]
      {
        forall i | 0 <= i < |requests|
          ensures k != Key(requests[i].channelId)
        {
          assert changed[i] in changed;
        }
      }
    }
  }

  /** Appends one job per event, in order, as the handler's loop does. */
  function Enqueue(queue: seq<FetchJob>, events: seq<CancelledEvent>, workspaceId: string): (q: seq<FetchJob>)
    ensures |q| == |queue| + |events|
    ensures q[..|queue|] == queue
    ensures forall i :: 0 <= i < |events| ==> q[|queue| + i] == FetchJob(workspaceId, events[i].messageChannelId)
    decreases |events|
  {
    if events == [] then queue
    else Enqueue(queue + [FetchJob(workspaceId, events[0].messageChannelId)], events[1..], workspaceId)
  }

  /** `handleSyncCancelled`: one fetch job per event of the batch, carrying the batch's workspace. */
  function HandleSyncCancelled(queue: seq<FetchJob>, batch: CancelledBatch): (q: seq<FetchJob>)
    ensures |q| == |queue| + |batch.events| && q[..|queue|] == queue
    ensures forall i :: 0 <= i < |batch.events| ==>
      q[|queue| + i] == FetchJob(batch.workspaceId, batch.events[i].messageChannelId)
  {
    Enqueue(queue, batch.events, batch.workspaceId)
  }

  /** A poll that observes a set flag causes exactly one job, for that channel and the record's workspace. */
  lemma ObservedCancellationEnqueuesOneJob(s: Store, channelId: string, queue: seq<FetchJob>)
    requires ShouldCancel(s, channelId).cancel
    ensures var p := ShouldCancel(s, channelId);
      && |p.store.emitted| == |s.emitted| + 1
      && HandleSyncCancelled(queue, p.store.emitted[|s.emitted|])
         == queue + [FetchJob(s.cache[Key(channelId)].workspaceId, channelId)]
  {
    var p := ShouldCancel(s, channelId);
    var q := HandleSyncCancelled(queue, p.store.emitted[|s.emitted|]);
    assert q == queue + [FetchJob(s.cache[Key(channelId)].workspaceId, channelId)] by {
      assert q[..|queue|] == queue;
      assert q[|queue|] == FetchJob(s.cache[Key(channelId)].workspaceId, channelId);
    }
  }

  /**
   * End to end: after `requestCancellation(c, w)`, whatever others do to other channels,
   * the next poll of c returns true and its one event yields exactly the job `{w, c}`.
   */
  lemma RequestedCancellationEnqueuesOneJob(
    s: Store, channelId: string, workspaceId: string, acts: seq<StoreAction>, queue: seq<FetchJob>)
    requires forall i :: 0 <= i < |acts| ==> acts[i].channelId != channelId
    ensures var p := ShouldCancel(ApplyAll(RequestCancellation(s, channelId, workspaceId), acts), channelId);
      && p.cancel
      && |p.store.emitted| == |s.emitted| + 1
      && HandleSyncCancelled(queue, p.store.emitted[|s.emitted|]) == queue + [FetchJob(workspaceId, channelId)]
  {
    var s1 := RequestCancellation(s, channelId, workspaceId);
    OtherChannelsUntouched(s1, acts, channelId);
    ObservedCancellationEnqueuesOneJob(ApplyAll(s1, acts), channelId, queue);
  }

  /**
   * End to end through the listener: a date change of channel c in a batch of workspace w
   * makes the next poll of c (others touching only other channels) enqueue exactly `{w, c}`.
   */
  lemma DateChangeRestartsChannel(
    s: Store, batch: UpdateBatch, i: int, acts: seq<StoreAction>, queue: seq<FetchJob>)
    requires 0 <= i < |batch.events| && ChangesLoadDate(batch.events[i])
    requires forall j :: 0 <= j < |acts| ==> acts[j].channelId != batch.events[i].recordId
    ensures var c := batch.events[i].recordId;
      var p := ShouldCancel(ApplyAll(HandleUpdatedEvent(s, batch).store, acts), c);
      && p.cancel
      && |p.store.emitted| == |s.emitted| + 1
      && HandleSyncCancelled(queue, p.store.emitted[|s.emitted|]) == queue + [FetchJob(batch.workspaceId, c)]
  {
    var c := batch.events[i].recordId;
    var s1 := HandleUpdatedEvent(s, batch).store;
    UpdatedEventStore(s, batch);
    assert batch.events[i] in batch.events;
    OtherChannelsUntouched(s1, acts, c);
    ObservedCancellationEnqueuesOneJob(ApplyAll(s1, acts), c, queue);
  }
}
