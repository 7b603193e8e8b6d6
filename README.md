# Trello store: in-flight request tracker and sync guards

This project models the core of the Trello store of the Wavebox desktop client
(`trelloStore.js`). The store keeps mailbox profiles and unread notifications
fresh by polling the Trello API, and it never runs two fetches of the same kind
for the same mailbox at once.

- **In-flight request tracker.** `openRequests` is a map from the key
  `${type}:${mailboxId}` to an ordered list of request ids. `trackOpenRequest`
  moves an id to the end of its key's list (adding it if absent).
  `trackCloseRequest` filters the id out. `openRequestCount` and
  `hasOpenRequest` read the list, and a missing entry reads as the empty list.
- **Sync guards.** `handleSyncMailboxProfile` and
  `handleSyncMailboxNotifications` drop the request when one is already open
  for the (type, mailbox) pair, or when the mailbox no longer exists.
  Otherwise they open a request id, start the fetch, and close that same id
  when the fetch settles, whether it succeeds or fails.
- **Pollers.** `handleStartPollSync` clears each interval handle, installs a
  new one and defers one sync-all action per kind. `handleStopPollSync`
  clears both handles and sets them to null.

Layout:

- `open_requests.dfy`, module `OpenRequests`: the tracker as values. It holds
  the `REQUEST_TYPES` enumeration, the string key and a proof that the key is
  injective, `Lookup` (the `|| []`) and `Without` (the `filter`). It also holds
  the map updates `TrackOpen` / `TrackClose`, the sync guard `MayStart` with
  its two steps `Begin` / `Complete`, and a trace of handler events (`Run`)
  with the dedupe invariant `AtMostOneOpen`.
- `trello_store.dfy`, module `Trello`: the class `TrelloStore`. Its fields are
  `openRequests`, `profilePoller` and `notificationPoller`, and its methods
  update them in place. Each method's `ensures` ties the new map to the
  functions of `OpenRequests`, and the handlers keep the invariant `Valid()`.
  Each sync handler is split in two. `BeginSync` covers everything up to the
  fetch. `CompleteSync` runs the continuations of the fetch, and a
  `FetchOutcome` says which of them run. The `.catch` is chained after the
  `.then`, so it also runs when the `.then` throws after its own close. That
  happens when a field of an empty response is read, before the merge is
  deferred, or when a change listener throws in `emitChange`, after it. The
  id is then closed twice, and the second close changes nothing more.

## Model

| member | source | states |
|---|---|---|
| `OpenRequests.TypeName` | src/scenes/mailboxes/src/stores/trello/trelloStore.js:14-17 | the two request type strings contain no `:`, so the type part of a key is never ambiguous |
| `OpenRequests.KeyOfInjective` | src/scenes/mailboxes/src/stores/trello/trelloStore.js:80 | two (type, mailbox) pairs give the same `${type}:${mailboxId}` key if and only if they are the same pair |
| `OpenRequests.Count` | src/scenes/mailboxes/src/stores/trello/trelloStore.js:38-40 | the count is 0 exactly when the key is missing from the map or maps to the empty list |
| `OpenRequests.HasOpen` | src/scenes/mailboxes/src/stores/trello/trelloStore.js:47-49 | the pair has an open request exactly when some id is listed under its key |
| `OpenRequests.MissingKeyHasNoOpen` | src/scenes/mailboxes/src/stores/trello/trelloStore.js:38-49 | a key that was never written has count 0 and no open request |
| `OpenRequests.Without` | src/scenes/mailboxes/src/stores/trello/trelloStore.js:97 | filtering never lengthens the list, and an id is in the result exactly when it was in the input and is not the removed id |
| `OpenRequests.WithoutAppend` | src/scenes/mailboxes/src/stores/trello/trelloStore.js:82 | filtering distributes over concatenation, so the ids that stay keep their relative order |
| `OpenRequests.WithoutMultiset` | src/scenes/mailboxes/src/stores/trello/trelloStore.js:97 | filtering removes every copy of the id and keeps every copy of every other id |
| `OpenRequests.WithoutAbsent` | src/scenes/mailboxes/src/stores/trello/trelloStore.js:94-100 | filtering out an id that is not in the list leaves the list unchanged |
| `OpenRequests.OpenedShape` | src/scenes/mailboxes/src/stores/trello/trelloStore.js:82 | the written-back list ends with the id and holds it exactly once; other ids keep their counts and order; registering the same id twice equals registering it once |
| `OpenRequests.TrackFrame` | src/scenes/mailboxes/src/stores/trello/trelloStore.js:79-100 | opening or closing for one (type, mailbox) pair leaves the list of every other pair unchanged |
| `OpenRequests.TrackOpenEffect` | src/scenes/mailboxes/src/stores/trello/trelloStore.js:79-85 | after opening, the pair has an open request, its newest id is the opened one, held once, and the other ids are as before; the count grows by one for a new id and does not grow for a re-registered one |
| `OpenRequests.TrackCloseEffect` | src/scenes/mailboxes/src/stores/trello/trelloStore.js:94-100 | after closing, no copy of the id is left and every other id is kept; closing an absent id changes no list and no count, and a pair with no open request still has none |
| `OpenRequests.TrackCloseTwice` | src/scenes/mailboxes/src/stores/trello/trelloStore.js:94-100 | closing the same id a second time leaves the map as the first close left it |
| `OpenRequests.OpenThenClose` | src/scenes/mailboxes/src/stores/trello/trelloStore.js:79-100 | opening and then closing the same id is the same as only closing it; on a pair with nothing open, open then close leaves nothing open |
| `OpenRequests.SecondSyncSkipped` | src/scenes/mailboxes/src/stores/trello/trelloStore.js:191-202 | once a sync has started for a pair, a second sync for that pair starts nothing and changes nothing, whether or not its mailbox exists |
| `OpenRequests.SyncRoundTrip` | src/scenes/mailboxes/src/stores/trello/trelloStore.js:202-218 | a started sync opens exactly one request, and closing its id, however the fetch settles, returns the pair's count to 0 and every list to what it was |
| `OpenRequests.StepKeepsAtMostOneOpen` | src/scenes/mailboxes/src/stores/trello/trelloStore.js:147-177 | a sync request or a settled fetch keeps every key holding at most one open id |
| `OpenRequests.RunKeepsAtMostOneOpen` | src/scenes/mailboxes/src/stores/trello/trelloStore.js:191-218 | any sequence of sync requests and settled fetches keeps every key holding at most one open id |
| `OpenRequests.EmptyAtMostOneOpen` | src/scenes/mailboxes/src/stores/trello/trelloStore.js:27 | starting from the empty map of a new store, the handlers alone never put two open ids under one key |
| `Trello.TrelloStore.constructor` | src/scenes/mailboxes/src/stores/trello/trelloStore.js:24-27 | a new store has both pollers null and an empty in-flight map, and satisfies the store invariant |
| `Trello.TrelloStore.TrackOpenRequest` | src/scenes/mailboxes/src/stores/trello/trelloStore.js:79-85 | writes the pair's filtered list with the id appended back into the map in place, changes no other field, and returns the given id |
| `Trello.TrelloStore.TrackCloseRequest` | src/scenes/mailboxes/src/stores/trello/trelloStore.js:94-100 | writes the pair's filtered list back into the map in place, changes no other field, and returns the given id |
| `Trello.TrelloStore.BeginSync` | src/scenes/mailboxes/src/stores/trello/trelloStore.js:147-158 | starts a fetch if and only if the pair had no open request and the mailbox exists; when it does not start, the map is unchanged; when it starts, the new id is the pair's only open request; the dedupe invariant is kept |
| `Trello.TrelloStore.CompleteSync` | src/scenes/mailboxes/src/stores/trello/trelloStore.js:158-177 | every continuation that runs closes the fetch's own id, so no copy of it is left and the map is the same however the fetch settles; a fulfilled fetch merges its result; a failed fetch reports its error; a `.then` that throws after its close also reaches the `.catch`, which closes the id again and reports an error after the merge, if the merge was deferred; the invariant is kept |
| `Trello.TrelloStore.HandleStartPollSync` | src/scenes/mailboxes/src/stores/trello/trelloStore.js:112-124 | clears both old handles, installs the two new ones, defers one sync-all per kind, and leaves the in-flight map alone |
| `Trello.TrelloStore.HandleStopPollSync` | src/scenes/mailboxes/src/stores/trello/trelloStore.js:129-134 | clears both old handles and sets both fields to null, so a second stop changes nothing; the in-flight map is untouched |

## Left out

- The Trello HTTP calls `fetchAccountProfile` and `fetchUnreadNotifications` are network I/O in a module that is not part of this model. A fetch appears only as the `FetchOutcome` given to `CompleteSync`.
- The Promise asynchrony and the interleaving of completions are concurrency. `BeginSync` / `CompleteSync` and the event trace `Run` capture their effect on the tracker, one event at a time.
- `setInterval`, `clearInterval` and `setTimeout` are real timers. Only the handle fields are modelled: the handles that would be cleared are returned, and the new handles are parameters. Time, ticks and the interval constants are not modelled.
- `handleSyncMailboxNotificationsAfter` only defers a sync through `setTimeout` and has no state of its own.
- `uuid.v4()` is a random id from a foreign library. The request id is a parameter (`newId`).
- `handleSyncAllMailboxProfiles` and `handleSyncAllMailboxNotifications` enumerate the mailbox store and defer one sync per mailbox. The mailbox store is not part of this model, so mailbox existence is the `mailboxExists` flag.
- The alt store wiring (`alt.createStore`, `bindListeners`, `preventDefault`, `emitChange`, `actions.*.defer`), the mailbox reducers and `console.error` are framework glue and external collaborators. `CompleteSync` reports only which continuations ran and in what order.
- `Trello.TrelloStore.HandleStartPollSync`: its store invariant is promised only when the two new handles differ. Handle distinctness comes from the timer host, which is not modelled.
- The `{profiles, unread, notification}` argument of `handleStartPollSync` is ignored by the code, so it is not a parameter.
