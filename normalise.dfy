/** `toObservation` of the watcher: the mapping from a raw iNaturalist
    record to the normalised observation, with its defaulting rules. */
module Normalise {
  import opened JsBuiltins
  import opened Observations
  import opened INaturalist

  predicate IsDigit(c: char) {
    '0' <= c <= '9'
  }

  /** `t` has the shape `dd:dd:dd`. */
  predicate IsClock(t: string) {
    && |t| == 8
    && IsDigit(t[0]) && IsDigit(t[1]) && t[2] == ':'
    && IsDigit(t[3]) && IsDigit(t[4]) && t[5] == ':'
    && IsDigit(t[6]) && IsDigit(t[7])
  }

  /** The pattern `T(\d{2}:\d{2}:\d{2})` matches `s` starting at index `i`. */
  predicate TimeAt(s: string, i: int) {
    0 <= i && i + 9 <= |s| && s[i] == 'T' && IsClock(s[i + 1..i + 9])
  }

  /** The leftmost index at or after `from` where the pattern matches. */
  function FirstTimeFrom(s: string, from: nat): (r: Option<nat>)
    requires from <= |s|
    ensures r.Some? ==> from <= r.value && TimeAt(s, r.value)
    ensures r.Some? ==> forall j :: from <= j < r.value ==> !TimeAt(s, j)
    ensures r.None? ==> forall j :: from <= j ==> !TimeAt(s, j)
    decreases |s| - from
  {
    if from == |s| then None
    else if TimeAt(s, from) then Some(from)
    else FirstTimeFrom(s, from + 1)
  }

  /** `createdAt?.match(/T(\d{2}:\d{2}:\d{2})/)?.[1]`: the capture group of
      the first match, absent when the timestamp is missing or has none. */
  function TimeOfDay(createdAt: Nullable<string>): (r: Option<string>)
    ensures r.Some? <==> createdAt.Defined? && exists i :: TimeAt(createdAt.value, i)
    ensures r.Some? ==> IsClock(r.value)
    ensures r.Some? ==>
      exists i :: TimeAt(createdAt.value, i) && r.value == createdAt.value[i + 1..i + 9]
        && forall j :: 0 <= j < i ==> !TimeAt(createdAt.value, j)
  {
    if !createdAt.Defined? then None
    else
      match FirstTimeFrom(createdAt.value, 0)
      case None => None
      case Some(i) => Some(createdAt.value[i + 1..i + 9])
  }

  /** `raw.taxon?.preferred_common_name`. */
  function CommonName(raw: RawObservation): Nullable<string> {
    if raw.taxon.Defined? then raw.taxon.value.preferredCommonName else Undefined
  }

  /** The geometry is present: `raw.geojson?.coordinates` is neither null nor undefined. */
  predicate HasCoordinates(raw: RawObservation) {
    raw.geojson.Defined? && raw.geojson.value.coordinates.Defined?
  }

  /** `raw.photos?.[0]?.url`. */
  function FirstPhotoUrl(raw: RawObservation): Nullable<string> {
    if raw.photos.Defined? && |raw.photos.value| > 0 then Defined(raw.photos.value[0].url)
    else Undefined
  }

  /** `raw.taxon?.wikipedia_url`. */
  function WikiUrl(raw: RawObservation): Nullable<string> {
    if raw.taxon.Defined? then raw.taxon.value.wikipediaUrl else Undefined
  }

  /** `toObservation(raw)`. */
  function ToObservation(raw: RawObservation): (o: Observation)
    ensures o.id == raw.id
    // name: first truthy of the common name and the species guess, else "Unknown"
    ensures o.name != ""
    ensures Truthy(CommonName(raw)) ==> o.name == CommonName(raw).value
    ensures !Truthy(CommonName(raw)) && Truthy(raw.speciesGuess) ==> o.name == raw.speciesGuess.value
    ensures !Truthy(CommonName(raw)) && !Truthy(raw.speciesGuess) ==> o.name == "Unknown"
    // coordinates arrive as [lng, lat] and default to [0, 0]
    ensures HasCoordinates(raw) ==>
      o.lng == raw.geojson.value.coordinates.value.0 && o.lat == raw.geojson.value.coordinates.value.1
    ensures !HasCoordinates(raw) ==> o.lat == 0.0 && o.lng == 0.0
    ensures o.photoUrl.Defined? <==> raw.photos.Defined? && |raw.photos.value| > 0
    ensures o.photoUrl.Defined? ==> o.photoUrl.value == raw.photos.value[0].url
    ensures !o.photoUrl.Defined? ==> o.photoUrl == Undefined
    ensures raw.taxon.Defined? ==> o.wikiUrl == raw.taxon.value.wikipediaUrl
    ensures !raw.taxon.Defined? ==> o.wikiUrl == Undefined
    ensures o.observedAt == TimeOfDay(raw.createdAt)
  {
    var (lng, lat) := if HasCoordinates(raw) then raw.geojson.value.coordinates.value else (0.0, 0.0);
    var common := CommonName(raw);
    Observation(
      raw.id,
      if Truthy(common) then common.value
      else if Truthy(raw.speciesGuess) then raw.speciesGuess.value
      else "Unknown",
      lat,
      lng,
      FirstPhotoUrl(raw),
      WikiUrl(raw),
      TimeOfDay(raw.createdAt))
  }

  /** `results.map(toObservation)`: throws (None) at the first element that
      is `null` or `undefined`; otherwise maps every record, in order. */
  function NormaliseAll(results: seq<ResultItem>): (r: Option<seq<Observation>>)
    ensures r.Some? <==> forall i :: 0 <= i < |results| ==> results[i].Record?
    ensures r.Some? ==> |r.value| == |results|
    ensures r.Some? ==> forall i :: 0 <= i < |results| ==> r.value[i] == ToObservation(results[i].raw)
  {
    if results == [] then Some([])
    else if results[0].Nullish? then None
    else
      match NormaliseAll(results[1..])
      case None => None
      case Some(rest) => Some([ToObservation(results[0].raw)] + rest)
  }

  /** A timestamp as the API sends it yields its time of day. */
  lemma TimeOfDayExample()
    ensures TimeOfDay(Defined("2024-05-01T12:34:56+02:00")) == Some("12:34:56")
  {
    var s := "2024-05-01T12:34:56+02:00";
    var date := "2024-05-01";
    assert s == date + "T12:34:56+02:00";
    forall j | 0 <= j < 10 ensures !TimeAt(s, j) {
      assert s[j] == date[j];
    }
    assert s[11..19] == "12:34:56";
    assert TimeAt(s, 10);
  }
}
