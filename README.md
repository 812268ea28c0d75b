# Wildlife live feed: watcher, fan-out hub and mock queue, in Dafny

This project models the sequential core of a small wildlife live feed.

The **iNaturalist watcher** (`inaturalist-watcher/src/index.ts`) polls the
iNaturalist API every 15 seconds. It asks for records newer than a numeric
cursor `lastId` and normalises every raw record into an `Observation`. It
appends the results to a module-level `buffer`. Every second a timer removes
the first `n` buffered observations, where `n` is drawn from 0..5 and capped
by the buffer length. It publishes them, in order, on the bus subject
`nature.observation`.

The **viewer server** (`wildlive/src/index.tsx`) keeps a set of open
server-sent-event streams. A bus-consuming loop calls `broadcast` for each
message. It strips the `id` out of the observation and pushes
`{_places: {[id]: rest}}` to every stream. A stream whose push throws is
removed. Opening an SSE request adds its stream. Abort and error remove it.

The **mock watcher** (`wildlive/tests/e2e/mock-watcher.ts`) stands in for
the watcher in end-to-end tests. Each `GET /observations` request removes
and returns `min(roll, length)` items from the front of a fixed three-item
queue, where `roll` is drawn from 1..3. So a request on a non-empty queue
returns 1–3 items, and a request on an empty queue returns none.

Modules:

- `JsBuiltins` (`js_builtins.dfy`): `undefined`/`null`/value, string
  truthiness, and `splice(0, n)`.
- `Observations` (`observations.dfy`): the normalised record.
- `INaturalist` (`inaturalist.dfy`): the raw upstream record and the
  untyped elements of `results`.
- `Normalise` (`normalise.dfy`): `toObservation` and `results.map(toObservation)`.
- `Watcher` (`watcher.dfy`): ingest and drain as functions on a `WatcherState`
  state, runs of interleaved timer events, and the class `Service` whose
  methods update the module-level state in place.
- `Wildlive` (`wildlive.dfy`): the patch, the `Hub` of subscribers with
  `Broadcast` and the consume loop, and the SSE route's callbacks.
- `MockWatcher` (`mock_watcher.dfy`): the queue, one request, and series of
  requests.

How the model reads the code:

- The cursor is written before normalisation (index.ts:12-14). A poll
  therefore does not have all-or-nothing effect. If `results[0]` is a record
  but a later element is `null` or `undefined`, `toObservation` throws. The `catch`
  swallows the error, the cursor has already moved to the first id, and
  nothing is appended. That batch is never requested again. `Watcher.Ingested`
  keeps this order. If `results[0]` itself is `null` or `undefined`, the read at
  line 12 throws first and nothing changes.
- JavaScript keeps `undefined` and `null` apart: `??` and `?.` treat them
  alike, `||` treats the empty string like them, and a copy keeps which one
  it was. The model keeps the three states (`Nullable`) for that reason.
- The upstream contract (`id_above` is exclusive, `order: "desc"`) is not
  enforced by the watcher. The lemmas that depend on it take it as a
  hypothesis (`Respects`, `NewestFirst`, `HonestRun`).

## Model

| member | source | states |
|---|---|---|
| JsBuiltins.SpliceFront | inaturalist-watcher/src/index.ts:28 | `splice(0, n)` removes `min(n, len)` items; the removed items followed by what remains are the original array |
| Normalise.FirstTimeFrom | inaturalist-watcher/src/index.ts:47 | returns the leftmost index at or after `from` where `T\d\d:\d\d:\d\d` matches, or none when no index matches |
| Normalise.TimeOfDay | inaturalist-watcher/src/index.ts:47 | `observedAt` is present iff `created_at` is a string containing a match; it is then the `dd:dd:dd` group after the first match |
| Normalise.TimeOfDayExample | inaturalist-watcher/src/index.ts:47 | an ISO timestamp `2024-05-01T12:34:56+02:00` yields `12:34:56` |
| Normalise.ToObservation | inaturalist-watcher/src/index.ts:38-49 | id copied. Name is the first truthy of common name and species guess, else `Unknown`, so never empty. `[lng, lat]` swapped into `lat`/`lng`, `(0,0)` without geometry. First photo's URL or undefined. Taxon's wikipedia URL (null kept) or undefined. Time of day as above |
| Normalise.NormaliseAll | inaturalist-watcher/src/index.ts:13 | `results.map(toObservation)` succeeds iff no element is `null` or `undefined`; it then holds one normalised record per result, in fetch order |
| Watcher.Batch | inaturalist-watcher/src/index.ts:13-14 | what a fetch appends: when it succeeded and no element is `null` or `undefined`, one normalised record per result in fetch order; otherwise (failure, or `toObservation` threw) nothing |
| Watcher.Ingested | inaturalist-watcher/src/index.ts:9-19 | failure or empty result: nothing changes. A first result that is a record sets the cursor to its id, even when a later element makes normalisation throw; else the cursor stays. The buffer becomes the old buffer followed by the batch. Publishing is untouched |
| Watcher.Drained | inaturalist-watcher/src/index.ts:27-31 | a tick publishes `min(n, len)` items; the old log is a prefix of the new one; published followed by buffer is unchanged, so a prefix of the buffer moves to the log in order; the cursor stays |
| Watcher.StepConserves | inaturalist-watcher/src/index.ts:12-14 | one event adds exactly its batch to published-then-buffered |
| Watcher.RunConserves | inaturalist-watcher/src/index.ts:9-34 | over any interleaving of polls and ticks, published followed by buffered equals the start followed by every appended batch in order: nothing lost, duplicated or reordered |
| Watcher.RunExtendsPublished | inaturalist-watcher/src/index.ts:27-31 | the published log is only ever extended |
| Watcher.CursorAdvances | inaturalist-watcher/src/index.ts:12 | when the upstream returns only ids above the cursor, the cursor never decreases and a non-empty poll moves it strictly up |
| Watcher.BatchIds | inaturalist-watcher/src/index.ts:12-14 | from an upstream honouring `id_above` and `desc`, the appended ids are strictly decreasing, above the old cursor and not above the new one |
| Watcher.IngestKeepsNoDuplicates | inaturalist-watcher/src/index.ts:9-19 | with such an upstream, a poll keeps every buffered or published id distinct and at or below the cursor |
| Watcher.RunKeepsNoDuplicates | inaturalist-watcher/src/index.ts:9-34 | over any honest run the cursor never decreases and no observation is buffered or published twice |
| Watcher.InitialHasNoDuplicates | inaturalist-watcher/src/index.ts:6-7 | the empty buffer with cursor 0 satisfies that invariant |
| Watcher.Service.constructor | inaturalist-watcher/src/index.ts:6-7 | the process starts with an empty buffer and cursor 0 |
| Watcher.Service.Ingest | inaturalist-watcher/src/index.ts:9-19 | updates `lastId` and then `buffer` in place exactly as `Ingested` says |
| Watcher.Service.Tick | inaturalist-watcher/src/index.ts:27-31 | splices the buffer and publishes the removed items one by one, ending in the state `Drained` gives |
| Wildlive.MakePatch | wildlive/src/index.tsx:14-17 | the patch has the single key `id`, and putting the id back in front of its value gives the observation back, so every other field is carried |
| Wildlive.PatchOfWithId | wildlive/src/index.tsx:14-17 | conversely, an observation rebuilt from an id and a place yields exactly that place under that id |
| Wildlive.Patches | wildlive/src/index.tsx:32-35 | one patch per bus message, in arrival order, each keyed by that message's id |
| Wildlive.Stream.PatchSignals | wildlive/src/index.tsx:17 | a push to a closed stream throws and sends nothing; otherwise it appends the patch |
| Wildlive.Hub.constructor | wildlive/src/index.tsx:10 | the subscriber set starts empty |
| Wildlive.Hub.Add | wildlive/src/index.tsx:52 | adds exactly that stream |
| Wildlive.Hub.Delete | wildlive/src/index.tsx:19 | removes exactly that stream; a no-op when it is absent, so removal is idempotent |
| Wildlive.Hub.Broadcast | wildlive/src/index.tsx:14-22 | exactly one push per stream present at the start; the new set is the old one minus exactly the streams whose push threw; every other stream gets the patch, whatever failed before it |
| Wildlive.Hub.Receive | wildlive/src/index.tsx:32-35 | messages are broadcast one at a time in arrival order; each live stream receives all their patches in that order; closed streams are dropped and receive nothing |
| Wildlive.SseRoute.constructor | wildlive/src/index.tsx:46-47 | a new request has no stream yet |
| Wildlive.SseRoute.OnOpen | wildlive/src/index.tsx:50-53 | records the stream and adds exactly it to the set |
| Wildlive.SseRoute.OnClose | wildlive/src/index.tsx:56-61 | abort and error remove the request's stream if it was opened, and change nothing otherwise |
| MockWatcher.InitialQueue | wildlive/tests/e2e/mock-watcher.ts:3-7 | the queue holds three observations with distinct ids |
| MockWatcher.Respond | wildlive/tests/e2e/mock-watcher.ts:11-14 | a request returns exactly `min(roll, length)` items, so 1 to 3 on a non-empty queue and never more than the queue holds; on an empty queue it returns nothing and the queue stays empty; returned items followed by the new queue are the old queue |
| MockWatcher.ServeConserves | wildlive/tests/e2e/mock-watcher.ts:12-13 | across requests, the responses back to back followed by the remaining queue are the original queue |
| MockWatcher.ServeEmpties | wildlive/tests/e2e/mock-watcher.ts:12-13 | a queue of n items is empty after any n requests |
| MockWatcher.InitialQueueServedOnce | wildlive/tests/e2e/mock-watcher.ts:3-13 | from the initial queue no observation is served twice, and it is empty after three requests |
| MockWatcher.Server.constructor | wildlive/tests/e2e/mock-watcher.ts:3-7 | the server starts with the initial queue |
| MockWatcher.Server.GetObservations | wildlive/tests/e2e/mock-watcher.ts:11-14 | shrinks the queue in place as `Respond` says and returns the removed front |

## Left out

- `fetchObservations` (index.ts:51-66) is an HTTP call. The model replaces it with a `Fetch` value: the `results` array, or a failure for a network error, a non-2xx status or an unreadable body.
- NATS (`connect`, `publish`, `subscribe`, `StringCodec`) and JSON encoding/decoding are a foreign library and transport. Publishing appends to the `published` log. The subscription is the message sequence given to `Hub.Receive`. Decoding is assumed to return the observation that was published.
- `setInterval` and `Math.random` are replaced by arguments: a `Tick(n)` with `n` in 0..5 (the range of `Math.ceil(Math.random() * 5)`), a mock `Roll` in 1..3, and a sequence of `Event`s for the two interleaved timers.
- Overlapping polls are not modelled: each poll's fetch and its state update form one atomic step. If a fetch outlasted the 15-second interval, the next poll would start from the same cursor.
- Console logging is not modelled.
- Hono routing, `serveStatic`, the Datastar stream machinery (keep-alive, headers) and the server export are web plumbing. Only the add/remove effect of the SSE callbacks is kept.
- The views (`Home.tsx`, `Layout.tsx`, `Header.tsx`) and the browser/HTTP tests are markup and rendering only. The filter buttons post to `/toggle/<category>`, but no server route for it exists, so there is no filter toggling to model.
- Coordinates are reals. They are only copied or defaulted, never computed, so floating point does not matter. Ids are unbounded integers: numbers above 2^53 are not modelled.
- `toObservation` throwing on records of the wrong shape is not modelled: a non-string `created_at`, or `coordinates` that cannot be destructured. Only `null` and `undefined` elements of `results` are modelled as throwing.
- Primitive elements of `results` (a number, a string, a boolean) are not modelled. A property read on them does not throw but yields `undefined`. For example, `toObservation(42)` returns a record with an undefined `id` and the name `Unknown`, and `results[0] = 42` would set `lastId` to `undefined`.
- Wildlive.Hub.Receive: handles one uninterrupted burst of bus messages. In the source, the `for await` loop (index.tsx:32) can let an SSE open or abort, or a viewer disconnecting, run between two messages. The promise that every live stream receives all the patches of the burst holds only because no such event happens mid-burst. Other schedules are covered by composing `Broadcast`, `SseRoute.OnOpen`, `SseRoute.OnClose` and `Stream.Disconnect`.
- Watcher.Service.Tick: publishing cannot fail in the model. In the source the batch is spliced out of the buffer before the publishing loop starts (index.ts:28-29). If `nc.publish` threw partway, the rest of that batch would be lost, and the error would escape the timer callback. So the "nothing lost" promise of `Watcher.RunConserves` holds only while publishing succeeds.
- Wildlive.Hub.Broadcast: the iteration order over the `Set` (insertion order in JavaScript) is not modelled. The contract fixes what each stream receives but not the order in which different streams are visited.
- Wildlive.Stream: the viewer's side of the connection is an oracle. `closed` says whether `patchSignals` throws, and `Disconnect` models the viewer going away.
