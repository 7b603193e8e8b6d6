/**
 * The in-flight request tracker of the Trello store, as values.
 *
 * The store keeps a JavaScript `Map` from the string key `${type}:${mailboxId}`
 * to an ordered list of request ids. This module gives that map a value type,
 * the list operations the store uses (`filter` and `concat`), the map updates
 * made by `trackOpenRequest` and `trackCloseRequest`, the guard of the two sync
 * handlers, and the properties of all of them.
 */
module OpenRequests {

  datatype Option<T> = None | Some(value: T)

  /** The `REQUEST_TYPES` enumeration. */
  datatype RequestType = Profile | Notification

  type MailboxId = string
  type RequestId = string

  /** The in-flight map: string key to the ordered list of open request ids. */
  type Requests = map<string, seq<RequestId>>

  /** The string each member of `REQUEST_TYPES` stands for. */
  function TypeName(t: RequestType): (s: string)
    ensures ':' !in s
  {
    match t
    case Profile => "PROFILE"
    case Notification => "NOTIFICATION"
  }

  /** The key the store builds with the template `${type}:${mailboxId}`. */
  function KeyOf(t: RequestType, m: MailboxId): (key: string)
  {
    TypeName(t) + ":" + m
  }

  /** Two (type, mailbox) pairs share a key exactly when they are the same pair. */
  lemma KeyOfInjective(t1: RequestType, m1: MailboxId, t2: RequestType, m2: MailboxId)
    ensures KeyOf(t1, m1) == KeyOf(t2, m2) <==> t1 == t2 && m1 == m2
  {
    if t1 != t2 {
      // The two type names already differ in their first character.
      assert KeyOf(t1, m1)[0] == TypeName(t1)[0];
      assert KeyOf(t2, m2)[0] == TypeName(t2)[0];
    } else if KeyOf(t1, m1) == KeyOf(t2, m2) {
      var n := |TypeName(t1)| + 1;
      assert m1 == KeyOf(t1, m1)[n..];
      assert m2 == KeyOf(t2, m2)[n..];
    }
  }

  /** `this.openRequests.get(key) || []`: a missing entry reads as the empty list. */
  function Lookup(reqs: Requests, key: string): (ids: seq<RequestId>)
  {
    if key in reqs then reqs[key] else []
  }

  /** `openRequestCount(type, mailboxId)`. */
  function Count(reqs: Requests, t: RequestType, m: MailboxId): (n: nat)
    ensures n == 0 <==> KeyOf(t, m) !in reqs || reqs[KeyOf(t, m)] == []
  {
    |Lookup(reqs, KeyOf(t, m))|
  }

  /** `hasOpenRequest(type, mailboxId)`: the count is not zero. */
  function HasOpen(reqs: Requests, t: RequestType, m: MailboxId): (b: bool)
    ensures b <==> exists id :: id in Lookup(reqs, KeyOf(t, m))
  {
    var ids := Lookup(reqs, KeyOf(t, m));
    assert ids != [] ==> ids[0] in ids;
    Count(reqs, t, m) != 0
  }

  /** `ids.filter((id) => id !== r)`. */
  function Without(ids: seq<RequestId>, r: RequestId): (out: seq<RequestId>)
    ensures |out| <= |ids|
    ensures forall x :: x in out <==> x in ids && x != r
  {
    if ids == [] then []
    else if ids[0] == r then Without(ids[1..], r)
    else [ids[0]] + Without(ids[1..], r)
  }

  /** The list `trackOpenRequest` writes back: the id moved (or added) to the end. */
  function Opened(ids: seq<RequestId>, r: RequestId): (moved: seq<RequestId>)
  {
    Without(ids, r) + [r]
  }

  /** Filtering distributes over concatenation, so the ids that stay keep their order. */
  lemma {:induction false} WithoutAppend(a: seq<RequestId>, b: seq<RequestId>, r: RequestId)
    ensures Without(a + b, r) == Without(a, r) + Without(b, r)
  {
    if a == [] {
      assert a + b == b;
    } else {
      assert (a + b)[1..] == a[1..] + b;
      WithoutAppend(a[1..], b, r);
    }
  }

  /** Filtering removes every copy of the id and keeps every copy of the others. */
  lemma {:induction false} WithoutMultiset(ids: seq<RequestId>, r: RequestId)
    ensures multiset(Without(ids, r)) == multiset(ids)[r := 0]
  {
    if ids != [] {
      WithoutMultiset(ids[1..], r);
      assert ids == [ids[0]] + ids[1..];
      assert multiset(ids) == multiset{ids[0]} + multiset(ids[1..]);
    }
  }

  /** A list without the id is left as it is by filtering it out. */
  lemma {:induction false} WithoutAbsent(ids: seq<RequestId>, r: RequestId)
    requires r !in ids
    ensures Without(ids, r) == ids
  {
    if ids != [] {
      assert ids[0] in ids;
      assert forall x :: x in ids[1..] ==> x in ids;
      WithoutAbsent(ids[1..], r);
      assert ids == [ids[0]] + ids[1..];
    }
  }

  /**
   * Re-registering an id leaves exactly one copy of it, at the end, and the
   * other ids in their old relative order; registering twice is the same as once.
   */
  lemma OpenedShape(ids: seq<RequestId>, r: RequestId)
    ensures |Opened(ids, r)| > 0 && Opened(ids, r)[|Opened(ids, r)| - 1] == r
    ensures multiset(Opened(ids, r))[r] == 1
    ensures forall x :: x != r ==> multiset(Opened(ids, r))[x] == multiset(ids)[x]
    ensures Without(Opened(ids, r), r) == Without(ids, r)
    ensures Opened(Opened(ids, r), r) == Opened(ids, r)
  {
    var w := Without(ids, r);
    WithoutMultiset(ids, r);
    WithoutAppend(w, [r], r);
    assert Without([r], r) == [];
    WithoutAbsent(w, r);
  }

  /** The map after `trackOpenRequest(type, mailboxId, r)`. */
  function TrackOpen(reqs: Requests, t: RequestType, m: MailboxId, r: RequestId): (after: Requests)
  {
    reqs[KeyOf(t, m) := Opened(Lookup(reqs, KeyOf(t, m)), r)]
  }

  /** The map after `trackCloseRequest(type, mailboxId, r)`. */
  function TrackClose(reqs: Requests, t: RequestType, m: MailboxId, r: RequestId): (after: Requests)
  {
    reqs[KeyOf(t, m) := Without(Lookup(reqs, KeyOf(t, m)), r)]
  }

  /** A key that was never written has no open request. */
  lemma MissingKeyHasNoOpen(reqs: Requests, t: RequestType, m: MailboxId)
    requires KeyOf(t, m) !in reqs
    ensures Count(reqs, t, m) == 0 && !HasOpen(reqs, t, m)
  {
  }

  /** Opening and closing touch only the entry of their own (type, mailbox) pair. */
  lemma {:induction false} TrackFrame(reqs: Requests, t: RequestType, m: MailboxId, r: RequestId,
                                      t2: RequestType, m2: MailboxId)
    requires t2 != t || m2 != m
    ensures Lookup(TrackOpen(reqs, t, m, r), KeyOf(t2, m2)) == Lookup(reqs, KeyOf(t2, m2))
    ensures Lookup(TrackClose(reqs, t, m, r), KeyOf(t2, m2)) == Lookup(reqs, KeyOf(t2, m2))
  {
    KeyOfInjective(t, m, t2, m2);
  }

  /** After opening, the pair has an open request and `r` is its newest id, held once. */
  lemma TrackOpenEffect(reqs: Requests, t: RequestType, m: MailboxId, r: RequestId)
    ensures HasOpen(TrackOpen(reqs, t, m, r), t, m)
    ensures var ids := Lookup(TrackOpen(reqs, t, m, r), KeyOf(t, m));
      ids[|ids| - 1] == r && multiset(ids)[r] == 1
      && Without(ids, r) == Without(Lookup(reqs, KeyOf(t, m)), r)
    ensures r in Lookup(reqs, KeyOf(t, m)) ==>
      Count(TrackOpen(reqs, t, m, r), t, m) <= Count(reqs, t, m)
    ensures r !in Lookup(reqs, KeyOf(t, m)) ==>
      Count(TrackOpen(reqs, t, m, r), t, m) == Count(reqs, t, m) + 1
  {
    var ids := Lookup(reqs, KeyOf(t, m));
    OpenedShape(ids, r);
    WithoutMultiset(ids, r);
    var after := Lookup(TrackOpen(reqs, t, m, r), KeyOf(t, m));
    assert after[|after| - 1] in after;
    if r !in ids {
      WithoutAbsent(ids, r);
    }
  }

  /**
   * After closing, no copy of `r` is left for the pair and the other ids keep
   * their order; closing an id that is not there changes no list and raises no
   * error (it may only add an empty entry).
   */
  lemma TrackCloseEffect(reqs: Requests, t: RequestType, m: MailboxId, r: RequestId)
    ensures r !in Lookup(TrackClose(reqs, t, m, r), KeyOf(t, m))
    ensures multiset(Lookup(TrackClose(reqs, t, m, r), KeyOf(t, m)))
      == multiset(Lookup(reqs, KeyOf(t, m)))[r := 0]
    ensures r !in Lookup(reqs, KeyOf(t, m)) ==>
      Lookup(TrackClose(reqs, t, m, r), KeyOf(t, m)) == Lookup(reqs, KeyOf(t, m))
      && Count(TrackClose(reqs, t, m, r), t, m) == Count(reqs, t, m)
    ensures !HasOpen(reqs, t, m) ==> !HasOpen(TrackClose(reqs, t, m, r), t, m)
  {
    var ids := Lookup(reqs, KeyOf(t, m));
    WithoutMultiset(ids, r);
    if r !in ids {
      WithoutAbsent(ids, r);
    }
  }

  /** Closing the same id a second time changes nothing more. */
  lemma TrackCloseTwice(reqs: Requests, t: RequestType, m: MailboxId, r: RequestId)
    ensures TrackClose(TrackClose(reqs, t, m, r), t, m, r) == TrackClose(reqs, t, m, r)
  {
    TrackCloseEffect(reqs, t, m, r);
    TrackCloseEffect(TrackClose(reqs, t, m, r), t, m, r);
  }

  /** Opening and then closing the same id is the same as only closing it. */
  lemma OpenThenClose(reqs: Requests, t: RequestType, m: MailboxId, r: RequestId)
    ensures TrackClose(TrackOpen(reqs, t, m, r), t, m, r) == TrackClose(reqs, t, m, r)
    ensures !HasOpen(reqs, t, m) ==> !HasOpen(TrackClose(TrackOpen(reqs, t, m, r), t, m, r), t, m)
  {
    OpenedShape(Lookup(reqs, KeyOf(t, m)), r);
    TrackCloseEffect(reqs, t, m, r);
  }

  /* ------------------------------------------------------------------------ */
  // The sync handlers

  /**
   * The guard of `handleSyncMailboxProfile` / `handleSyncMailboxNotifications`:
   * a fetch starts only when no request is open for the pair and the mailbox exists.
   */
  predicate MayStart(reqs: Requests, t: RequestType, m: MailboxId, mailboxExists: bool)
  {
    !HasOpen(reqs, t, m) && mailboxExists
  }

  /** The map after the synchronous part of a sync handler, up to the fetch. */
  function Begin(reqs: Requests, t: RequestType, m: MailboxId, mailboxExists: bool,
                 newId: RequestId): (after: Requests)
  {
    if MayStart(reqs, t, m, mailboxExists) then TrackOpen(reqs, t, m, newId) else reqs
  }

  /**
   * The map after the fetch settles. Every continuation that runs (`.then`,
   * `.catch`, or both when `.then` throws after its close) closes the same id
   * in the same way, so the map does not depend on how the fetch settled.
   */
  function Complete(reqs: Requests, t: RequestType, m: MailboxId, id: RequestId): (after: Requests)
  {
    TrackClose(reqs, t, m, id)
  }

  /** While a fetch is outstanding for a pair, a second sync for it starts nothing. */
  lemma SecondSyncSkipped(reqs: Requests, t: RequestType, m: MailboxId, newId: RequestId,
                          exists2: bool, newId2: RequestId)
    requires MayStart(reqs, t, m, true)
    ensures !MayStart(Begin(reqs, t, m, true, newId), t, m, exists2)
    ensures Begin(Begin(reqs, t, m, true, newId), t, m, exists2, newId2)
      == Begin(reqs, t, m, true, newId)
  {
  }

  /**
   * A sync that starts opens one id and, whether the fetch succeeds or fails,
   * closing that id brings every list back to what it was: the pair's count is 0.
   */
  lemma SyncRoundTrip(reqs: Requests, t: RequestType, m: MailboxId, newId: RequestId)
    requires MayStart(reqs, t, m, true)
    ensures Count(Begin(reqs, t, m, true, newId), t, m) == 1
    ensures var after := Complete(Begin(reqs, t, m, true, newId), t, m, newId);
      Count(after, t, m) == 0 && forall k :: Lookup(after, k) == Lookup(reqs, k)
  {
  }

  /** The dedupe invariant: no key holds more than one open request id. */
  ghost predicate AtMostOneOpen(reqs: Requests)
  {
    forall k :: k in reqs ==> |reqs[k]| <= 1
  }

  /** An event the handlers react to: a sync request, or the settling of a fetch. */
  datatype Event =
    | SyncRequested(kind: RequestType, mailbox: MailboxId, mailboxExists: bool, newId: RequestId)
    | FetchSettled(kind: RequestType, mailbox: MailboxId, id: RequestId)

  function Step(reqs: Requests, e: Event): (after: Requests)
  {
    match e
    case SyncRequested(t, m, ex, newId) => Begin(reqs, t, m, ex, newId)
    case FetchSettled(t, m, id) => Complete(reqs, t, m, id)
  }

  function Run(reqs: Requests, events: seq<Event>): (after: Requests)
    decreases |events|
  {
    if events == [] then reqs else Run(Step(reqs, events[0]), events[1..])
  }

  /** One handler step keeps the dedupe invariant. */
  lemma StepKeepsAtMostOneOpen(reqs: Requests, e: Event)
    requires AtMostOneOpen(reqs)
    ensures AtMostOneOpen(Step(reqs, e))
  {
  }

  /** Driven only by the handlers, no key ever holds more than one open id. */
  lemma {:induction false} RunKeepsAtMostOneOpen(reqs: Requests, events: seq<Event>)
    requires AtMostOneOpen(reqs)
    ensures AtMostOneOpen(Run(reqs, events))
    decreases |events|
  {
    if events != [] {
      StepKeepsAtMostOneOpen(reqs, events[0]);
      RunKeepsAtMostOneOpen(Step(reqs, events[0]), events[1..]);
    }
  }

  /** The store starts with an empty map, which holds the invariant. */
  lemma EmptyAtMostOneOpen(events: seq<Event>)
    ensures AtMostOneOpen(Run(map[], events))
  {
    RunKeepsAtMostOneOpen(map[], events);
  }
}
