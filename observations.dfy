/** The normalised observation record shared by the watcher and the viewer
    server. */
module Observations {
  import opened JsBuiltins

  /** A coordinate. The core only copies coordinates or defaults them to 0,
      so a real stands for the source's floating-point number. */
  type Coord = real

  /** One wildlife sighting as it travels on the bus. `photoUrl` and
      `wikiUrl` may be absent or null; `observedAt` may be absent. */
  datatype Observation = Observation(
    id: int,
    name: string,
    lat: Coord,
    lng: Coord,
    photoUrl: Nullable<string>,
    wikiUrl: Nullable<string>,
    observedAt: Option<string>)

  /** No two observations in `s` share an id. */
  predicate DistinctIds(s: seq<Observation>) {
    forall i, j :: 0 <= i < j < |s| ==> s[i].id != s[j].id
  }
}
