# OPC UA client session bookkeeping

This project models the state the OPC UA client keeps for one session and proves properties of it:

- the negotiated timeouts and buffer sizes;
- the session id and authentication token;
- two wrapping 32-bit handle counters, one for request handles and one for client-side monitored item handles;
- the outbound request queue;
- the set of in-flight requests;
- the map of arrived responses waiting to be claimed;
- the subscription acknowledgements still to be sent.

Modules:

- `Types` holds the protocol values the bookkeeping passes around without looking inside them. These are node ids, timestamps, message bodies, requests and responses (which carry their request handle), subscription acknowledgements and the request header.
- `Handles` holds the `Handle` counter as a class with a `Next` method. It also holds the pure function `NextHandle` that specifies one step and `Issued`, the handles a run of calls returns. The method `NextRun` shows that calling `Next` repeatedly on one counter returns those handles. Lemmas about them cover:
  - handles are never 0 and stay in range;
  - the counter wraps to 1;
  - no handle repeats within a cycle;
  - counting up from the first value.
- `RequestQueue` models the double-ended queue as a sequence whose element 0 is the front. Requests are pushed at the front and popped from the back. `PopOrder` is the order in which they leave, and the lemmas show the queue is first-in first-out.
- `ResponseDrain` specifies the draining of async responses. `AsyncDrain(m)` is the async messages of `m`, smallest handle first (`SortedSet`). The two loops of the drain are methods proved against it:
  - `CollectAsyncHandles` visits the map in an arbitrary order;
  - `TakeInOrder` removes the handles one by one.
  `Sort` stands for the library sort of the collected handles. `SortedSetUnique` shows that sorting the collected handles gives `SortedSet`, whatever order they were collected in.
- `Session` holds the `SessionState` class: one field per field of the Rust `SessionState` struct, and one method per operation. Each method states its whole new state in terms of the old one.
- `Scenarios` holds concrete runs of the session. Each one draws its conclusions from the operations' contracts alone.

The field comment on the in-flight set (client/src/session_state.rs:67-69) says that a response with no in-flight entry is discarded. The code of `add_response` (lines 145-148) stores every response whatever the in-flight set holds, and the model follows the code. `Session.SessionState.AddResponse` and `Scenarios.StrayResponse` state this behaviour.

## Model

| member | source | states |
|---|---|---|
| Handles.NextHandle | client/src/session_state.rs:27-34 | one step of the counter never yields 0; it yields 1 exactly when the stored value was the wrap boundary (or 0), otherwise the stored value plus one, and never more than the boundary |
| Handles.Handle.constructor | client/src/session_state.rs:20-25 | a new counter stores the given first value and wraps at the largest 32-bit value |
| Handles.Handle.Next | client/src/session_state.rs:27-34 | the counter pre-increments (wrapping to 1 at the boundary) and returns the value it now stores |
| Handles.Issued | client/src/session_state.rs:27-34 | a run of n calls returns n handles, each between 1 and the wrap boundary |
| Handles.IssuedStep | client/src/session_state.rs:27-34 | each handle issued in a run is the successor of the one issued before it |
| Handles.WrapsToOne | client/src/session_state.rs:28-31 | after the boundary value the counter issues 1, and after any other value it issues that value plus one |
| Handles.AdvanceAround | client/src/session_state.rs:27-34 | up to one full cycle of calls moves the counter that many places around the cycle 1..boundary |
| Handles.IssuedAdvance | client/src/session_state.rs:27-34 | the handle issued k calls after another is the counter moved k places from it |
| Handles.NoRepeatBeforeWrap | client/src/session_state.rs:27-34 | no handle is issued twice within fewer calls than the wrap boundary |
| Handles.CountsUpFrom | client/src/session_state.rs:20-34 | a counter created with first value f issues f+1, f+2, ... until the largest 32-bit value |
| Handles.WrapAtThree | client/src/session_state.rs:28-33 | a counter stored at 1 with boundary 3 issues 2, 3, 1, 2 |
| Handles.NextRun | client/src/session_state.rs:27-34 | n successive calls of `next()` on one counter return exactly the handles `Issued` describes, and the counter stores the last of them |
| RequestQueue.PushFront | client/src/session_state.rs:128 | pushing at the front adds the element at index 0 and keeps the rest behind it |
| RequestQueue.PopBack | client/src/session_state.rs:132 | popping from the back of an empty queue yields None; otherwise it yields the last element, and the rest is the queue without it |
| RequestQueue.PopOrderPushFront | client/src/session_state.rs:127-133 | a request pushed at the front leaves after every request already queued |
| RequestQueue.PopBackIsOldest | client/src/session_state.rs:131-133 | the next pop yields the oldest queued request, and the others then leave in their original order |
| RequestQueue.FirstInFirstOut | client/src/session_state.rs:127-133 | requests pushed in a given order leave, after those already queued, in that order, with none dropped or repeated |
| ResponseDrain.Insert | client/src/session_state.rs:158 | inserting a handle into an ascending sequence yields an ascending sequence with exactly one more occurrence of it |
| ResponseDrain.Sort | client/src/session_state.rs:158 | sorting the handles yields an ascending permutation of them |
| ResponseDrain.SortedSet | client/src/session_state.rs:157-158 | a set of handles, listed in strictly ascending order, each once |
| ResponseDrain.SortedSetUnique | client/src/session_state.rs:152-158 | any ascending arrangement of the collected async handles is that one listing, whatever order the map was visited in |
| ResponseDrain.CollectAsyncHandles | client/src/session_state.rs:152-155 | the collected handles are exactly the handles of async entries, each once |
| ResponseDrain.TakeInOrder | client/src/session_state.rs:161-163 | removing the listed handles in turn returns their messages in list order, every removal finds its entry, and every other entry is left as it was |
| ResponseDrain.DrainBySortedHandles | client/src/session_state.rs:152-163 | every sorted handle is in the map, none repeats, they are exactly the async handles, and taking them in order yields the drain |
| ResponseDrain.RestIsSync | client/src/session_state.rs:161-163 | after the async handles are removed, what remains is the map without its async entries |
| ResponseDrain.AsyncDrainContents | client/src/session_state.rs:150-164 | the drain returns each async response exactly once, as stored under its own handle, and no sync one, in strictly ascending handle order |
| ResponseDrain.DrainLeavesSyncOnly | client/src/session_state.rs:150-164 | after a drain every sync entry is unchanged, only sync entries remain, and a second drain returns nothing |
| ResponseDrain.DrainByListedHandles | client/src/session_state.rs:150-164 | taking the async handles in any strictly ascending listing yields the drain |
| ResponseDrain.DrainOrderExample | client/src/session_state.rs:150-164 | async responses for 5, 2, 9, 1 and a sync one for 7 drain as the responses for 1, 2, 5, 9 |
| Session.SessionState.constructor | client/src/session_state.rs:77-94 | a new session has the default timeouts (60000 and 10000 ms), buffer sizes of 65536, null session id and token, counters at 1 and 1000, and an empty queue, in-flight set, response map and acknowledgement list, and is not waiting for a publish response |
| Session.SessionState.SetSessionId | client/src/session_state.rs:96-98 | the session id read back is the one set; nothing else changes |
| Session.SessionState.SessionId | client/src/session_state.rs:100-102 | reads back the stored session id |
| Session.SessionState.SubscriptionAcknowledgements | client/src/session_state.rs:104-106 | returns every accumulated acknowledgement in order and leaves the accumulator empty; nothing else changes |
| Session.SessionState.MakeRequestHeader | client/src/session_state.rs:110-121 | the header carries the current token, the given time, a fresh non-zero request handle different from the last one, the request timeout as its timeout hint and null defaults elsewhere; the monitored item counter is untouched |
| Session.SessionState.NextMonitoredItemHandle | client/src/session_state.rs:123-125 | returns the monitored item counter's next non-zero value; the request counter is untouched |
| Session.SessionState.AddRequest | client/src/session_state.rs:127-129 | the request joins the back of the sending order; nothing else changes |
| Session.SessionState.NextRequest | client/src/session_state.rs:131-133 | an empty queue yields None; otherwise the oldest request and its flag are taken and the rest keep their order |
| Session.SessionState.AddPendingRequest | client/src/session_state.rs:135-138 | the in-flight set gains exactly the (handle, flag) pair |
| Session.SessionState.RemovePendingRequestTimeout | client/src/session_state.rs:140-143 | the in-flight set loses exactly the (handle, flag) pair, whether or not it was there |
| Session.SessionState.AddResponse | client/src/session_state.rs:145-148 | the response is stored under its own handle and replaces any earlier one, whatever is in flight |
| Session.SessionState.AsyncResponses | client/src/session_state.rs:150-164 | returns the drain of the response map and leaves exactly the sync entries |
| Session.SessionState.RemoveResponse | client/src/session_state.rs:166-173 | returns the message stored for the handle whatever flag is passed, or None, and removes only that entry |
| Scenarios.FirstHandles | client/src/session_state.rs:84-87 | a new session's first request handle is 2, its first monitored item handle 1001, and its second request handle 3 |
| Scenarios.HeadersAfterActivation | client/src/session_state.rs:110-121 | headers carry the token in force when they are made, the request timeout and the given time, with consecutive handles |
| Scenarios.RequestsLeaveInOrder | client/src/session_state.rs:127-133 | requests queued as r1, r2, r3 leave as r1, r2, r3 with their flags, and then the queue yields None |
| Scenarios.TimeoutRemovalIsIdempotent | client/src/session_state.rs:135-143 | removing an in-flight pair removes only that pair, and removing it again changes nothing |
| Scenarios.RequestRoundTrip | client/src/session_state.rs:166-173 | a response claimed by its handle with either flag is returned once; a second claim yields None |
| Scenarios.StrayResponse | client/src/session_state.rs:145-148 | a response nobody waits for is stored and can be claimed, and a later response for the same handle replaces it |
| Scenarios.AsyncResponsesInHandleOrder | client/src/session_state.rs:150-164 | async responses for 5, 2, 9, 1 drain as 1, 2, 5, 9, a second drain is empty, and the sync response for 7 stays to be claimed |
| Scenarios.AcknowledgementsDrainOnce | client/src/session_state.rs:104-106 | acknowledgements come out in recording order, duplicates kept, and a second read is empty |
| Scenarios.SessionIdRoundTrip | client/src/session_state.rs:96-102 | a new session's id is null, and the id last set is the one read back |

## Left out

- `DateTime::now()` is the wall clock. `MakeRequestHeader` takes the time as a parameter and the model does not interpret it.
- The contents and encoding of messages, node ids, strings and extension objects are of opaque types. A message is modelled only by the request handle it carries.
- Locking, threads and timeout expiry do not occur in this file and are not modelled.
- The unused `(handle, flag)` tuple in `remove_response` (client/src/session_state.rs:167) has no counterpart. Removal keys on the handle alone, and `RemoveResponse` ignores its flag.
- HashMap and HashSet iteration order is unspecified. `CollectAsyncHandles` picks each next key with `:|`, so its contract holds for every order.
- `Sort`: the library's `sort()` is not reproduced. An insertion sort stands in for it, and its contract (an ascending permutation) is all the drain relies on.
- `AsyncResponses`: the removal loop works on a copy of the map that is then stored back, not on the field in place. The result is the same because nothing else reads the map during the loop.
- `subscription_acknowledgements`, `authentication_token` and the timeouts and sizes are public fields that callers assign or push to directly. The model has no setter methods for them, and scenarios assign the fields directly.
- `Handles.Handle.Next`: 32-bit overflow of `next += 1` is not modelled. It cannot happen, because every counter the code creates wraps at the largest 32-bit value. `NextHandle`'s precondition records this condition.
- `wait_for_publish_response` is only initialised in this file. The model keeps the field and nothing changes it.
