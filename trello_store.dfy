/**
 * The Trello store as an object: the in-flight map it updates in place, the
 * two poller handle fields, and the handlers that change them.
 *
 * The asynchronous fetch of a sync handler is split in two steps: `BeginSync`
 * is everything the handler does before the fetch settles, and `CompleteSync`
 * is what the continuations of the fetch do, told by a `FetchOutcome` which
 * of them run.
 */
module Trello {
  import opened OpenRequests

  /** An opaque interval handle, as `setInterval` returns it. */
  type Handle = nat

  /** What a continuation of the fetch hands on besides closing its request. */
  datatype SettleEffect =
    | MergeResult   // the `.then` path: the result is reduced into the mailbox
    | ReportError   // the `.catch` path: the error is logged

  /**
   * How the fetch settles. The `.catch` is chained after the `.then`, so it
   * also runs when the `.then` continuation throws after its own close: before
   * deferring the merge (reading a field of an empty response) or after it
   * (a change listener throwing inside `emitChange`).
   */
  datatype FetchOutcome =
    | Fulfilled                         // only `.then` runs, to its end
    | Rejected                          // the fetch fails: only `.catch` runs
    | FulfilledThenThrew(merged: bool)  // `.then` closes and throws, then `.catch` runs

  /** A sync-all action that `handleStartPollSync` defers at once. */
  datatype DeferredSync = SyncAllMailboxProfiles | SyncAllMailboxNotifications

  class TrelloStore {
    var profilePoller: Option<Handle>
    var notificationPoller: Option<Handle>
    var openRequests: Requests

    /** The two pollers run together or not at all, on distinct handles. */
    ghost predicate PollersValid()
      reads this
    {
      && (profilePoller.None? <==> notificationPoller.None?)
      && (profilePoller.Some? ==> profilePoller != notificationPoller)
    }

    /** The store's invariant under its handlers. */
    ghost predicate Valid()
      reads this
    {
      PollersValid() && AtMostOneOpen(openRequests)
    }

    constructor ()
      ensures Valid()
      ensures profilePoller == None && notificationPoller == None
      ensures openRequests == map[]
    {
      profilePoller := None;
      notificationPoller := None;
      openRequests := map[];
    }

    /** `openRequestCount(type, mailboxId)` on the store's own map. */
    function OpenRequestCount(t: RequestType, m: MailboxId): nat
      reads this
    {
      Count(openRequests, t, m)
    }

    /** `hasOpenRequest(type, mailboxId)` on the store's own map. */
    function HasOpenRequest(t: RequestType, m: MailboxId): bool
      reads this
    {
      HasOpen(openRequests, t, m)
    }

    /**
     * `trackOpenRequest`: drops any copy of `requestId` from the pair's list,
     * appends it, writes the list back under the pair's key and returns the id.
     */
    method TrackOpenRequest(t: RequestType, m: MailboxId, requestId: RequestId)
      returns (id: RequestId)
      modifies this`openRequests
      ensures id == requestId
      ensures openRequests == TrackOpen(old(openRequests), t, m, requestId)
    {
      var key := KeyOf(t, m);
      var requestIds := if key in openRequests then openRequests[key] else [];
      var updated := Without(requestIds, requestId) + [requestId];
      openRequests := openRequests[key := updated];
      id := requestId;
    }

    /**
     * `trackCloseRequest`: drops every copy of `requestId` from the pair's
     * list, writes the list back under the pair's key and returns the id.
     */
    method TrackCloseRequest(t: RequestType, m: MailboxId, requestId: RequestId)
      returns (id: RequestId)
      modifies this`openRequests
      ensures id == requestId
      ensures openRequests == TrackClose(old(openRequests), t, m, requestId)
    {
      var key := KeyOf(t, m);
      var requestIds := if key in openRequests then openRequests[key] else [];
      openRequests := openRequests[key := Without(requestIds, requestId)];
      id := requestId;
    }

    /**
     * The synchronous part of `handleSyncMailboxProfile` (type `Profile`) and
     * `handleSyncMailboxNotifications` (type `Notification`): when a request
     * is already open for the pair, or the mailbox is gone, nothing changes
     * and no fetch starts; otherwise `newId` is opened and returned, and the
     * caller starts the fetch with it.
     */
    method BeginSync(t: RequestType, m: MailboxId, mailboxExists: bool, newId: RequestId)
      returns (started: Option<RequestId>)
      modifies this`openRequests
      ensures old(Valid()) ==> Valid()
      ensures started.Some? <==> old(!HasOpenRequest(t, m)) && mailboxExists
      ensures started.None? ==> openRequests == old(openRequests)
      ensures started.Some? ==>
        started.value == newId && HasOpenRequest(t, m) && OpenRequestCount(t, m) == 1
      ensures openRequests == Begin(old(openRequests), t, m, mailboxExists, newId)
    {
      if HasOpenRequest(t, m) {
        return None;
      }
      if !mailboxExists {
        return None;
      }
      var id := TrackOpenRequest(t, m, newId);
      if AtMostOneOpen(old(openRequests)) {
        StepKeepsAtMostOneOpen(old(openRequests), SyncRequested(t, m, mailboxExists, newId));
      }
      TrackOpenEffect(old(openRequests), t, m, newId);
      started := Some(id);
    }

    /**
     * The continuations of a sync handler's fetch, in the order they run.
     * Each one closes the request `id`: `.then` merges the result, `.catch`
     * reports the error. When `.then` throws after its close, `.catch` closes
     * the same id a second time, which changes nothing more.
     */
    method CompleteSync(t: RequestType, m: MailboxId, id: RequestId, outcome: FetchOutcome)
      returns (effects: seq<SettleEffect>)
      modifies this`openRequests
      ensures old(Valid()) ==> Valid()
      ensures effects == match outcome
        case Fulfilled => [MergeResult]
        case Rejected => [ReportError]
        case FulfilledThenThrew(merged) => (if merged then [MergeResult] else []) + [ReportError]
      ensures openRequests == Complete(old(openRequests), t, m, id)
      ensures id !in Lookup(openRequests, KeyOf(t, m))
    {
      var closed := TrackCloseRequest(t, m, id);
      match outcome
      case Fulfilled =>
        effects := [MergeResult];
      case Rejected =>
        effects := [ReportError];
      case FulfilledThenThrew(merged) =>
        effects := if merged then [MergeResult] else [];
        // The chained `.catch` closes the id again.
        closed := TrackCloseRequest(t, m, id);
        TrackCloseTwice(old(openRequests), t, m, id);
        effects := effects + [ReportError];
      if AtMostOneOpen(old(openRequests)) {
        StepKeepsAtMostOneOpen(old(openRequests), FetchSettled(t, m, id));
      }
      TrackCloseEffect(old(openRequests), t, m, id);
    }

    /**
     * `handleStartPollSync`: each poller's old handle is cleared (the two
     * cleared handles are returned, `None` standing for `clearInterval(null)`)
     * and replaced by the new one, and both sync-all actions are deferred at once.
     */
    method HandleStartPollSync(profileHandle: Handle, notificationHandle: Handle)
      returns (cleared: seq<Option<Handle>>, deferred: seq<DeferredSync>)
      modifies this`profilePoller, this`notificationPoller
      ensures old(Valid()) && profileHandle != notificationHandle ==> Valid()
      ensures openRequests == old(openRequests)
      ensures cleared == [old(profilePoller), old(notificationPoller)]
      ensures profilePoller == Some(profileHandle)
      ensures notificationPoller == Some(notificationHandle)
      ensures deferred == [SyncAllMailboxProfiles, SyncAllMailboxNotifications]
    {
      cleared := [profilePoller];
      profilePoller := Some(profileHandle);
      deferred := [SyncAllMailboxProfiles];

      cleared := cleared + [notificationPoller];
      notificationPoller := Some(notificationHandle);
      deferred := deferred + [SyncAllMailboxNotifications];
    }

    /**
     * `handleStopPollSync`: both handles are cleared and the fields set to
     * null; on a stopped store this changes nothing.
     */
    method HandleStopPollSync() returns (cleared: seq<Option<Handle>>)
      modifies this`profilePoller, this`notificationPoller
      ensures old(Valid()) ==> Valid()
      ensures cleared == [old(profilePoller), old(notificationPoller)]
      ensures profilePoller == None && notificationPoller == None
      ensures openRequests == old(openRequests)
    {
      cleared := [profilePoller];
      profilePoller := None;
      cleared := cleared + [notificationPoller];
      notificationPoller := None;
    }
  }

  /**
   * A client of the store: a profile sync for a pair with nothing open starts,
   * a second one while it is outstanding is dropped, and after the fetch
   * fails the pair is free again, as it is after a `.then` that throws;
   * a missing mailbox starts nothing.
   */
  method SyncScenario(m: MailboxId, gone: MailboxId, id1: RequestId, id2: RequestId)
  {
    var store := new TrelloStore();
    var s1 := store.BeginSync(Profile, m, true, id1);
    assert s1 == Some(id1);
    var s2 := store.BeginSync(Profile, m, true, id2);
    assert s2 == None;
    var e := store.CompleteSync(Profile, m, id1, Rejected);
    assert e == [ReportError];
    assert !store.HasOpenRequest(Profile, m);
    var s4 := store.BeginSync(Profile, m, true, id2);
    assert s4 == Some(id2);
    e := store.CompleteSync(Profile, m, id2, FulfilledThenThrew(true));
    assert e == [MergeResult, ReportError];
    assert !store.HasOpenRequest(Profile, m);
    var s3 := store.BeginSync(Notification, gone, false, id2);
    assert s3 == None;
    var c, d := store.HandleStartPollSync(1, 2);
    c, d := store.HandleStartPollSync(3, 4);
    assert c == [Some(1), Some(2)];
    c := store.HandleStopPollSync();
    assert store.profilePoller == None && store.notificationPoller == None;
  }
}
