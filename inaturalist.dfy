/** The raw observation record of the iNaturalist v2 API, as the watcher
    receives it. */
module INaturalist {
  import opened JsBuiltins
  import opened Observations

  /** A GeoJSON point; `coordinates` are in `[lng, lat]` order. */
  datatype GeoJson = GeoJson(kind: string, coordinates: Nullable<(Coord, Coord)>)

  datatype Taxon = Taxon(
    id: int,
    name: string,
    preferredCommonName: Nullable<string>,
    wikipediaUrl: Nullable<string>,
    iconicTaxonName: Nullable<string>)

  datatype Photo = Photo(id: int, url: string)

  /** The upstream record. `createdAt` is read by the watcher although the
      typed interface does not declare it. */
  datatype RawObservation = RawObservation(
    uuid: string,
    id: int,
    speciesGuess: Nullable<string>,
    location: Nullable<string>,
    placeGuess: Nullable<string>,
    geojson: Nullable<GeoJson>,
    taxon: Nullable<Taxon>,
    photos: Nullable<seq<Photo>>,
    createdAt: Nullable<string>)

  /** One element of the untyped `results` array: a record, or a nullish
      value (`null`, `undefined`) on which reading a property throws. */
  datatype ResultItem = Nullish | Record(raw: RawObservation)
}
