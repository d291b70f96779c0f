/**
 * The records the pipeline passes around: Places API responses as the core
 * reads them, the model's overall analysis, and the enriched lead.
 */
module Places {
  import opened Js

  /** A coordinate, as returned by geocoding. */
  datatype LatLng = LatLng(lat: real, lng: real)

  /** One entry of a nearby-search page: the identifier used to fetch details. */
  datatype PlaceSummary = PlaceSummary(placeId: string, name: string)

  /**
   * The `result` of a details response, reduced to the fields the core reads,
   * each typed as the Places API declares it; `None` is an absent field.
   */
  datatype PlaceRecord = PlaceRecord(
    placeId: string,
    name: string,
    formattedAddress: Option<string>,
    formattedPhoneNumber: Option<string>,
    website: Option<string>,
    openingHours: Option<Json>,
    photos: Option<seq<Json>>,
    types: Option<seq<string>>,
    rating: Option<real>,
    reviews: Option<seq<Json>>)

  /** The body of a nearby-search response. */
  datatype NearbyResponse = NearbyResponse(
    status: Option<string>,
    errorMessage: Option<string>,
    results: seq<PlaceSummary>,
    nextPageToken: Option<string>)

  /**
   * The body of a details response; the pipeline keeps the whole body. A body
   * whose status passes the check ("ZERO_RESULTS", or no status) need not
   * carry a `result`.
   */
  datatype DetailsResponse = DetailsResponse(
    status: Option<string>,
    errorMessage: Option<string>,
    result: Option<PlaceRecord>)

  /** The body of a geocode response. */
  datatype GeocodeResponse = GeocodeResponse(
    status: Option<string>,
    errorMessage: Option<string>,
    results: seq<LatLng>)

  /**
   * The overall analysis of a listing: a score, the feedback list or null
   * (`None`), and the consulting message, which is null (`JNull`) or whatever
   * truthy value the model produced.
   */
  datatype OverallAnalysis = OverallAnalysis(
    score: real,
    feedback: Option<seq<Json>>,
    consultingMessage: Json)

  /**
   * `{ ...place, _OVERALL_ANALYSIS_RESULT, _SCORE, _ADDRESS_ANALYSIS }`: the
   * fields of a details response, whose `result` the analysis has read and
   * so is present, extended with the analyses (the address analysis is kept
   * as the parsed value).
   */
  datatype AnalyzedPlace = AnalyzedPlace(
    status: Option<string>,
    errorMessage: Option<string>,
    result: PlaceRecord,
    overall: OverallAnalysis,
    score: real,
    addressAnalysis: Json)

  /** An analysed place together with its `suggestedServices`. */
  datatype Lead = Lead(place: AnalyzedPlace, suggestedServices: seq<string>)
}
