/** The iNaturalist watcher: a cursor-driven poller that normalises new
    records into a buffer, and a once-a-second tick that drains a short
    prefix of that buffer onto the bus. */
module Watcher {
  import opened JsBuiltins
  import opened Observations
  import opened INaturalist
  import opened Normalise

  /** What one call of `fetchObservations(lastId)` yields: the `results`
      array, or a failure (network error, non-2xx status, unreadable body). */
  datatype Fetch = Failed | Fetched(results: seq<ResultItem>)

  /** The watcher's module-level state, with the messages it has published
      on "nature.observation" so far. */
  datatype WatcherState = WatcherState(buffer: seq<Observation>, lastId: int, published: seq<Observation>)

  /** `Math.ceil(Math.random() * 5)`. */
  type BatchSize = n: nat | n <= 5

  /** The fetch succeeded and every element of `results` is an object. */
  predicate AllRecords(f: Fetch) {
    f.Fetched? && forall i :: 0 <= i < |f.results| ==> f.results[i].Record?
  }

  /** The records a fetch appends to the buffer: every result normalised, in
      fetch order, or nothing when the fetch failed or `toObservation` threw. */
  function Batch(f: Fetch): (b: seq<Observation>)
    ensures AllRecords(f) ==>
      |b| == |f.results| && forall i :: 0 <= i < |b| ==> b[i] == ToObservation(f.results[i].raw)
    ensures !AllRecords(f) ==> b == []
  {
    if f.Fetched? && NormaliseAll(f.results).Some? then NormaliseAll(f.results).value else []
  }

  /** The first result's id is read (line 12) before anything is normalised. */
  predicate AdvancesCursor(f: Fetch) {
    f.Fetched? && |f.results| > 0 && f.results[0].Record?
  }

  /** `ingest()`: every exception is caught, so the result is always a state. */
  function Ingested(p: WatcherState, f: Fetch): (r: WatcherState)
    ensures f.Failed? ==> r == p
    ensures f.Fetched? && f.results == [] ==> r == p
    ensures AdvancesCursor(f) ==> r.lastId == f.results[0].raw.id
    ensures !AdvancesCursor(f) ==> r.lastId == p.lastId
    ensures r.buffer == p.buffer + Batch(f)
    ensures r.published == p.published
  {
    match f
    case Failed => p
    case Fetched(results) =>
      if |results| > 0 && results[0].Nullish? then p
      else
        var cursor := if |results| > 0 then results[0].raw.id else p.lastId;
        match NormaliseAll(results)
        case None => WatcherState(p.buffer, cursor, p.published)
        case Some(obs) => WatcherState(p.buffer + obs, cursor, p.published)
  }

  /** One tick of the drain timer: `buffer.splice(0, n)`, each removed item
      published in order. */
  function Drained(p: WatcherState, n: BatchSize): (r: WatcherState)
    ensures r.lastId == p.lastId
    ensures |r.published| == |p.published| + Min(n, |p.buffer|)
    ensures r.published[..|p.published|] == p.published
    ensures r.published + r.buffer == p.published + p.buffer
  {
    var (out, rest) := SpliceFront(p.buffer, n);
    assert p.published + out + rest == p.published + (out + rest);
    WatcherState(rest, p.lastId, p.published + out)
  }

  /** A timer firing: the 15-second poll or the 1-second drain. */
  datatype Event = Poll(fetch: Fetch) | Tick(size: BatchSize)

  function Step(p: WatcherState, e: Event): WatcherState {
    match e
    case Poll(f) => Ingested(p, f)
    case Tick(n) => Drained(p, n)
  }

  function Run(p: WatcherState, events: seq<Event>): WatcherState
    decreases |events|
  {
    if events == [] then p else Run(Step(p, events[0]), events[1..])
  }

  /** Everything the polls among `events` append to the buffer, in order. */
  function Appended(events: seq<Event>): seq<Observation>
    decreases |events|
  {
    if events == [] then []
    else (if events[0].Poll? then Batch(events[0].fetch) else []) + Appended(events[1..])
  }

  lemma StepConserves(p: WatcherState, e: Event)
    ensures Step(p, e).published + Step(p, e).buffer
         == p.published + p.buffer + (if e.Poll? then Batch(e.fetch) else [])
  {
    match e
    case Poll(f) =>
      var r := Ingested(p, f);
      var a, b, c := p.published, p.buffer, Batch(f);
      assert r.published == a && r.buffer == b + c;
      assert a + (b + c) == a + b + c;
    case Tick(n) =>
      assert Step(p, e) == Drained(p, n);
  }

  /** Across any interleaving of polls and ticks, what was published followed
      by what is still buffered is exactly what was appended: nothing is lost,
      duplicated or reordered. */
  lemma {:induction false} RunConserves(p: WatcherState, events: seq<Event>)
    ensures Run(p, events).published + Run(p, events).buffer == p.published + p.buffer + Appended(events)
    decreases |events|
  {
    if events != [] {
      var q := Step(p, events[0]);
      var head := if events[0].Poll? then Batch(events[0].fetch) else [];
      StepConserves(p, events[0]);
      RunConserves(q, events[1..]);
      var r := Run(q, events[1..]);
      assert Run(p, events) == r;
      var tail := Appended(events[1..]);
      assert Appended(events) == head + tail;
      var before, middle := p.published + p.buffer, q.published + q.buffer;
      assert r.published + r.buffer == middle + tail;
      assert middle == before + head;
      assert before + head + tail == before + (head + tail);
    }
  }

  /** What has been published stays published: later events only extend the log. */
  lemma {:induction false} RunExtendsPublished(p: WatcherState, events: seq<Event>)
    ensures |p.published| <= |Run(p, events).published|
    ensures Run(p, events).published[..|p.published|] == p.published
    decreases |events|
  {
    if events != [] {
      var q := Step(p, events[0]);
      RunExtendsPublished(q, events[1..]);
      var r := Run(q, events[1..]);
      assert Run(p, events) == r;
      assert r.published[..|q.published|][..|p.published|] == r.published[..|p.published|];

    }
  }

  /** The upstream honours `id_above`: every record it returns is newer than the cursor. */
  predicate Respects(cursor: int, f: Fetch) {
    f.Fetched? ==> forall i :: 0 <= i < |f.results| && f.results[i].Record? ==> f.results[i].raw.id > cursor
  }

  /** The upstream honours `order: "desc"`: record ids strictly decrease. */
  predicate NewestFirst(f: Fetch) {
    f.Fetched? ==>
      forall i, j :: 0 <= i < j < |f.results| && f.results[i].Record? && f.results[j].Record? ==>
        f.results[i].raw.id > f.results[j].raw.id
  }

  /** A non-empty poll from an upstream that honours `id_above` moves the
      cursor strictly forward. */
  lemma CursorAdvances(p: WatcherState, f: Fetch)
    requires Respects(p.lastId, f)
    ensures Ingested(p, f).lastId >= p.lastId
    ensures AdvancesCursor(f) ==> Ingested(p, f).lastId > p.lastId
  {
    if AdvancesCursor(f) {
      assert f.results[0].raw.id > p.lastId;
    }
  }

  /** Every observation ever buffered or published has a distinct id, at or
      below the cursor. */
  predicate NoDuplicates(p: WatcherState) {
    && DistinctIds(p.published + p.buffer)
    && forall i :: 0 <= i < |p.published + p.buffer| ==> (p.published + p.buffer)[i].id <= p.lastId
  }

  /** Appending observations whose ids strictly decrease and all exceed a
      bound to a duplicate-free sequence at or below that bound keeps it
      duplicate-free. */
  lemma AppendNewer(xs: seq<Observation>, b: seq<Observation>, bound: int)
    requires DistinctIds(xs)
    requires forall i :: 0 <= i < |xs| ==> xs[i].id <= bound
    requires forall k :: 0 <= k < |b| ==> b[k].id > bound
    requires forall k, l :: 0 <= k < l < |b| ==> b[k].id > b[l].id
    ensures DistinctIds(xs + b)
  {
    var s := xs + b;
    forall i, j | 0 <= i < j < |s| ensures s[i].id != s[j].id {
      if j < |xs| {
        assert s[i] == xs[i] && s[j] == xs[j];
      } else if i < |xs| {
        assert s[i] == xs[i] && s[j] == b[j - |xs|];
      } else {
        assert s[i] == b[i - |xs|] && s[j] == b[j - |xs|];
      }
    }
  }

  /** The ids of a batch from a well-behaved upstream: all newer than the old
      cursor, none newer than the new one, strictly decreasing. */
  lemma BatchIds(p: WatcherState, f: Fetch)
    requires Respects(p.lastId, f) && NewestFirst(f)
    ensures Batch(f) != [] ==> AdvancesCursor(f)
    ensures forall k :: 0 <= k < |Batch(f)| ==> p.lastId < Batch(f)[k].id <= Ingested(p, f).lastId
    ensures forall k, l :: 0 <= k < l < |Batch(f)| ==> Batch(f)[k].id > Batch(f)[l].id
  {
    var b := Batch(f);
    if b != [] {
      var results := f.results;
      assert forall k :: 0 <= k < |b| ==> b[k].id == results[k].raw.id && results[k].Record?;
      forall k | 0 <= k < |b| ensures p.lastId < b[k].id <= Ingested(p, f).lastId {
        if k > 0 { assert results[0].raw.id > results[k].raw.id; }
      }
    }
  }

  lemma IngestKeepsNoDuplicates(p: WatcherState, f: Fetch)
    requires NoDuplicates(p) && Respects(p.lastId, f) && NewestFirst(f)
    ensures NoDuplicates(Ingested(p, f))
  {
    var r := Ingested(p, f);
    var xs := p.published + p.buffer;
    StepConserves(p, Poll(f));
    assert r.published + r.buffer == xs + Batch(f);
    CursorAdvances(p, f);
    BatchIds(p, f);
    AppendNewer(xs, Batch(f), p.lastId);
    var s := xs + Batch(f);
    forall i | 0 <= i < |s| ensures s[i].id <= r.lastId {
      if i < |xs| {
        assert s[i] == xs[i];
      } else {
        assert s[i] == Batch(f)[i - |xs|];
      }
    }
  }

  /** Every poll in `events` meets an upstream that honours `id_above` and
      `order: "desc"` relative to the cursor at that moment. */
  predicate HonestRun(p: WatcherState, events: seq<Event>)
    decreases |events|
  {
    events == [] ||
    ((events[0].Poll? ==> Respects(p.lastId, events[0].fetch) && NewestFirst(events[0].fetch))
     && HonestRun(Step(p, events[0]), events[1..]))
  }

  /** Within one process lifetime the cursor never moves back and no
      observation is ever buffered or published twice. */
  lemma {:induction false} RunKeepsNoDuplicates(p: WatcherState, events: seq<Event>)
    requires NoDuplicates(p) && HonestRun(p, events)
    ensures NoDuplicates(Run(p, events))
    ensures Run(p, events).lastId >= p.lastId
    decreases |events|
  {
    if events != [] {
      var q := Step(p, events[0]);
      if events[0].Poll? {
        IngestKeepsNoDuplicates(p, events[0].fetch);
        CursorAdvances(p, events[0].fetch);
      } else {
        StepConserves(p, events[0]);
      }
      RunKeepsNoDuplicates(q, events[1..]);
    }
  }

  /** The state a fresh watcher process starts in. */
  lemma InitialHasNoDuplicates()
    ensures NoDuplicates(WatcherState([], 0, []))
  {
  }

  /** The watcher process: `buffer` and `lastId` are its module-level
      variables; `published` logs what it has sent on the bus. */
  class Service {
    var buffer: seq<Observation>
    var lastId: int
    var published: seq<Observation>

    function State(): WatcherState
      reads this
    {
      WatcherState(buffer, lastId, published)
    }

    constructor ()
      ensures State() == WatcherState([], 0, [])
    {
      buffer := [];
      lastId := 0;
      published := [];
    }

    /** `ingest()`, given what `fetchObservations(lastId)` returned. */
    method Ingest(f: Fetch)
      modifies this
      ensures State() == Ingested(old(State()), f)
    {
      match f
      case Failed =>
        // the catch block only logs
      case Fetched(results) =>
        if |results| > 0 {
          if results[0].Nullish? {
            return;  // reading `results[0].id` threw
          }
          lastId := results[0].raw.id;
        }
        var observations := NormaliseAll(results);
        if observations.Some? {
          buffer := buffer + observations.value;
        }
    }

    /** One firing of the 1-second drain timer with `Math.ceil(Math.random() * 5) == n`. */
    method Tick(n: BatchSize)
      modifies this
      ensures State() == Drained(old(State()), n)
    {
      var (batch, rest) := SpliceFront(buffer, n);
      buffer := rest;
      for i := 0 to |batch|
        invariant published == old(published) + batch[..i]
        invariant buffer == rest && lastId == old(lastId)
      {
        published := published + [batch[i]];
      }
    }
  }
}
