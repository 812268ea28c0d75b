/** The end-to-end test double of the watcher: a fixed queue of three
    observations, drained destructively by `GET /observations`. */
module MockWatcher {
  import opened JsBuiltins
  import opened Observations

  /** The queue the mock starts with. */
  function InitialQueue(): (q: seq<Observation>)
    ensures |q| == 3 && DistinctIds(q)
  {
    [ Observation(1, "American Robin", 40.71, -74.01, Undefined, Undefined, None),
      Observation(2, "Red Fox", 34.05, -118.24, Undefined, Undefined, None),
      Observation(3, "Monarch Butterfly", 41.88, -87.63, Undefined, Undefined, None) ]
  }

  /** `Math.floor(Math.random() * 3) + 1`. */
  type Roll = n: int | 1 <= n <= 3 witness 1

  /** One request: `queue.splice(0, Math.min(roll, queue.length))`, giving
      the response body and the queue left behind. */
  function Respond(queue: seq<Observation>, roll: Roll): (r: (seq<Observation>, seq<Observation>))
    ensures |r.0| == Min(roll, |queue|)
    ensures queue != [] ==> 1 <= |r.0| <= 3 && |r.0| <= |queue|
    ensures queue == [] ==> r.0 == [] && r.1 == []
    ensures r.0 + r.1 == queue
  {
    SpliceFront(queue, Min(roll, |queue|))
  }

  /** The responses to a series of requests, and the queue afterwards. */
  function Serve(queue: seq<Observation>, rolls: seq<Roll>): (seq<seq<Observation>>, seq<Observation>)
    decreases |rolls|
  {
    if rolls == [] then ([], queue)
    else
      var (items, rest) := Respond(queue, rolls[0]);
      var (later, left) := Serve(rest, rolls[1..]);
      ([items] + later, left)
  }

  function Flatten(responses: seq<seq<Observation>>): seq<Observation>
    decreases |responses|
  {
    if responses == [] then [] else responses[0] + Flatten(responses[1..])
  }

  /** Over any series of requests, the responses read back to back, followed
      by what is left, are the original queue. */
  lemma {:induction false} ServeConserves(queue: seq<Observation>, rolls: seq<Roll>)
    ensures Flatten(Serve(queue, rolls).0) + Serve(queue, rolls).1 == queue
    decreases |rolls|
  {
    if rolls != [] {
      var (items, rest) := Respond(queue, rolls[0]);
      ServeConserves(rest, rolls[1..]);
      var (later, left) := Serve(rest, rolls[1..]);
      assert Serve(queue, rolls) == ([items] + later, left);
      assert ([items] + later)[1..] == later;
      assert Flatten([items] + later) == items + Flatten(later);
    }
  }

  /** Each request on a non-empty queue removes at least one item, so a queue
      of n items is empty after any n requests. */
  lemma {:induction false} ServeEmpties(queue: seq<Observation>, rolls: seq<Roll>)
    requires |rolls| >= |queue|
    ensures Serve(queue, rolls).1 == []
    decreases |rolls|
  {
    if rolls != [] {
      var (items, rest) := Respond(queue, rolls[0]);
      ServeEmpties(rest, rolls[1..]);
    }
  }

  lemma PrefixKeepsDistinct(s: seq<Observation>, t: seq<Observation>)
    requires DistinctIds(s + t)
    ensures DistinctIds(s)
  {
    forall i, j | 0 <= i < j < |s| ensures s[i].id != s[j].id {
      assert (s + t)[i] == s[i] && (s + t)[j] == s[j];
    }
  }

  /** Starting from the initial queue, no observation is ever served twice,
      and after three requests nothing is left. */
  lemma InitialQueueServedOnce(rolls: seq<Roll>)
    ensures DistinctIds(Flatten(Serve(InitialQueue(), rolls).0))
    ensures |rolls| >= 3 ==> Serve(InitialQueue(), rolls).1 == []
  {
    ServeConserves(InitialQueue(), rolls);
    PrefixKeepsDistinct(Flatten(Serve(InitialQueue(), rolls).0), Serve(InitialQueue(), rolls).1);
    if |rolls| >= 3 {
      ServeEmpties(InitialQueue(), rolls);
    }
  }

  /** The mock server's module-level `queue`. */
  class Server {
    var queue: seq<Observation>

    constructor ()
      ensures queue == InitialQueue()
    {
      queue := InitialQueue();
    }

    /** The `/observations` handler, with the random draw given as `roll`. */
    method GetObservations(roll: Roll) returns (items: seq<Observation>)
      modifies this
      ensures (items, queue) == Respond(old(queue), roll)
      ensures items + queue == old(queue)
    {
      var count := Min(roll, |queue|);
      var (removed, rest) := SpliceFront(queue, count);
      items, queue := removed, rest;
    }
  }
}
