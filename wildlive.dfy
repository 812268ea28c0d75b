/** The viewer server: a registry of open server-sent-event streams, the
    broadcast that turns each bus observation into a signal patch for every
    stream, and the callbacks that add and remove streams. */
module Wildlive {
  import opened JsBuiltins
  import opened Observations

  /** An observation without its `id`: the `...place` rest of the
      destructuring in `broadcast`. */
  datatype Place = Place(
    name: string,
    lat: Coord,
    lng: Coord,
    photoUrl: Nullable<string>,
    wikiUrl: Nullable<string>,
    observedAt: Option<string>)

  /** The signal patch `{_places: {[id]: place}}`; the key is the id
      (JSON turns it into its decimal string, which loses nothing). */
  datatype Patch = Patch(places: map<int, Place>)

  /** Puts an id back in front of a place: the inverse of the destructuring. */
  function WithId(id: int, p: Place): Observation {
    Observation(id, p.name, p.lat, p.lng, p.photoUrl, p.wikiUrl, p.observedAt)
  }

  /** The patch `broadcast` sends for `o`: one entry, keyed by the id, whose
      value carries every other field. */
  function MakePatch(o: Observation): (r: Patch)
    ensures r.places.Keys == {o.id}
    ensures WithId(o.id, r.places[o.id]) == o
  {
    Patch(map[o.id := Place(o.name, o.lat, o.lng, o.photoUrl, o.wikiUrl, o.observedAt)])
  }

  /** Conversely, the patch for an observation rebuilt from an id and a place
      holds exactly that place under that id. */
  lemma PatchOfWithId(id: int, p: Place)
    ensures MakePatch(WithId(id, p)) == Patch(map[id := p])
  {
  }

  /** The patches for `msgs`, one per message, in order. */
  function Patches(msgs: seq<Observation>): (r: seq<Patch>)
    ensures |r| == |msgs|
    ensures forall i :: 0 <= i < |msgs| ==> r[i].places.Keys == {msgs[i].id}
    ensures forall i :: 0 <= i < |msgs| ==> WithId(msgs[i].id, r[i].places[msgs[i].id]) == msgs[i]
  {
    seq(|msgs|, i requires 0 <= i < |msgs| => MakePatch(msgs[i]))
  }

  lemma PatchesSnoc(msgs: seq<Observation>, i: nat)
    requires i < |msgs|
    ensures Patches(msgs[..i + 1]) == Patches(msgs[..i]) + [MakePatch(msgs[i])]
  {
    var a, b := Patches(msgs[..i + 1]), Patches(msgs[..i]) + [MakePatch(msgs[i])];
    assert |a| == |b|;
    forall k | 0 <= k < |a| ensures a[k] == b[k] {
      assert msgs[..i + 1][k] == msgs[k];
      if k < i { assert msgs[..i][k] == msgs[k]; }
    }
  }

  /** One viewer's live connection. `closed` is the push oracle: once the
      viewer's side has gone away, `patchSignals` throws. */
  class Stream {
    var sent: seq<Patch>
    var closed: bool
    ghost var attempts: nat

    constructor ()
      ensures sent == [] && !closed && attempts == 0
    {
      sent := [];
      closed := false;
      attempts := 0;
    }

    /** The viewer goes away; the server learns of it only through a failing
        push or an abort/error callback. */
    method Disconnect()
      modifies this
      ensures closed && sent == old(sent) && attempts == old(attempts)
    {
      closed := true;
    }

    /** `stream.patchSignals(...)`; `threw` tells whether it threw. */
    method PatchSignals(p: Patch) returns (threw: bool)
      modifies this
      ensures threw == closed && closed == old(closed)
      ensures sent == if threw then old(sent) else old(sent) + [p]
      ensures attempts == old(attempts) + 1
    {
      threw := closed;
      if !threw {
        sent := sent + [p];
      }
      attempts := attempts + 1;
    }
  }

  /** The module-level `subscribers` set. */
  class Hub {
    var subscribers: set<Stream>

    constructor ()
      ensures subscribers == {}
    {
      subscribers := {};
    }

    /** `subscribers.add(stream)`. */
    method Add(s: Stream)
      modifies this
      ensures subscribers == old(subscribers) + {s}
    {
      subscribers := subscribers + {s};
    }

    /** `subscribers.delete(stream)`: a no-op when the stream is absent. */
    method Delete(s: Stream)
      modifies this
      ensures subscribers == old(subscribers) - {s}
      ensures s !in old(subscribers) ==> subscribers == old(subscribers)
    {
      subscribers := subscribers - {s};
    }

    /** `broadcast(o)`: one push per stream present at the start; a stream
        whose push throws is deleted and the loop goes on with the rest. */
    method Broadcast(o: Observation)
      modifies this, subscribers
      ensures subscribers == set s | s in old(subscribers) && !s.closed
      ensures forall s :: s in old(subscribers) ==>
        && s.closed == old(s.closed)
        && s.attempts == old(s.attempts) + 1
        && s.sent == if s.closed then old(s.sent) else old(s.sent) + [MakePatch(o)]
    {
      var patch := MakePatch(o);
      var pending := subscribers;
      while pending != {}
        invariant pending <= old(subscribers)
        invariant subscribers == (old(subscribers) - pending) - (set s | s in old(subscribers) && s.closed) + pending
        invariant forall s :: s in old(subscribers) ==> s.closed == old(s.closed)
        invariant forall s :: s in pending ==> s.sent == old(s.sent) && s.attempts == old(s.attempts)
        invariant forall s :: s in old(subscribers) - pending ==>
          && s.attempts == old(s.attempts) + 1
          && s.sent == if s.closed then old(s.sent) else old(s.sent) + [patch]
        decreases pending
      {
        var s :| s in pending;
        var threw := s.PatchSignals(patch);
        if threw {
          subscribers := subscribers - {s};
        }
        pending := pending - {s};
      }
    }

    /** The consume loop: each bus message is broadcast in arrival order. */
    method Receive(msgs: seq<Observation>)
      modifies this, subscribers
      ensures subscribers == if msgs == [] then old(subscribers) else set s | s in old(subscribers) && !s.closed
      ensures forall s :: s in old(subscribers) ==>
        && s.closed == old(s.closed)
        && s.sent == if s.closed then old(s.sent) else old(s.sent) + Patches(msgs)
    {
      for i := 0 to |msgs|
        invariant subscribers == if i == 0 then old(subscribers) else set s | s in old(subscribers) && !s.closed
        invariant forall s :: s in old(subscribers) ==>
          && s.closed == old(s.closed)
          && s.sent == if s.closed then old(s.sent) else old(s.sent) + Patches(msgs[..i])
      {
        PatchesSnoc(msgs, i);
        Broadcast(msgs[i]);
      }
      assert msgs[..|msgs|] == msgs;
    }
  }

  /** The handler of one `GET /sse` request: `currentStream` is its closure
      variable. */
  class SseRoute {
    var currentStream: Stream?

    constructor ()
      ensures currentStream == null
    {
      currentStream := null;
    }

    /** The stream callback: remember the stream and subscribe it. */
    method OnOpen(hub: Hub, stream: Stream)
      modifies this, hub
      ensures currentStream == stream
      ensures hub.subscribers == old(hub.subscribers) + {stream}
    {
      currentStream := stream;
      hub.Add(currentStream);
    }

    /** `onAbort` and `onError` (identical bodies): unsubscribe the stream if
        one was opened. */
    method OnClose(hub: Hub)
      modifies hub
      ensures hub.subscribers == if currentStream == null then old(hub.subscribers)
                                else old(hub.subscribers) - {currentStream}
    {
      if currentStream != null {
        hub.Delete(currentStream);
      }
    }
  }

  /** Two viewers connect; one viewer's connection breaks. The next broadcast
      drops that stream while the other viewer still gets the patch, and the
      late abort callback of the broken one then changes nothing. */
  method BrokenViewerScenario(o: Observation) {
    var hub := new Hub();
    var a := new Stream();
    var b := new Stream();
    var routeA := new SseRoute();
    var routeB := new SseRoute();
    routeA.OnOpen(hub, a);
    routeB.OnOpen(hub, b);
    b.Disconnect();
    hub.Broadcast(o);
    assert a in hub.subscribers && b !in hub.subscribers;
    assert hub.subscribers == {a};
    assert a.sent == [MakePatch(o)] && b.sent == [];
    routeB.OnClose(hub);
    assert hub.subscribers == {a};
  }
}
