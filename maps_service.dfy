/**
 * What the core takes from the Maps web-service wrapper: the acceptance of a
 * response by its `status`, the parameters of a nearby search, and the
 * result of geocoding. The HTTP exchange itself is not modelled.
 */
module MapsService {
  import opened Js
  import opened Places

  /** A failure reported by the Maps service, as `GoogleMapsError` carries it. */
  datatype MapsError =
    | ApiStatusError(message: string)  // a response whose status is not accepted
    | NoGeocodeResults

  /** The statuses that let a response through: the two success sentinels and, being falsy, the empty string. */
  const AcceptedStatuses: set<string> := {"", "OK", "ZERO_RESULTS"}

  /**
   * The status check of `handleRequest`: a response is rejected when its
   * status is truthy and neither "OK" nor "ZERO_RESULTS". The error carries
   * `error_message` when it is truthy, and "API Error: <status>" otherwise.
   */
  function CheckStatus(status: Option<string>, errorMessage: Option<string>): (r: Option<MapsError>)
    ensures r.None? <==> status.None? || status.value in AcceptedStatuses
    ensures r.Some? && StringTruthy(errorMessage) ==> r.value == ApiStatusError(errorMessage.value)
    ensures r.Some? && !StringTruthy(errorMessage) ==> r.value == ApiStatusError("API Error: " + status.value)
  {
    if StringTruthy(status) && status.value != "OK" && status.value != "ZERO_RESULTS" then
      Some(ApiStatusError(if StringTruthy(errorMessage) then errorMessage.value else "API Error: " + status.value))
    else
      None
  }

  /** The parameters of a nearby search (the API key is added to every request and is not modelled). */
  datatype NearbyParams = NearbyParams(location: LatLng, radius: real, keyword: string, pagetoken: Option<string>)

  /** The parameters built by `findPlacesNearby`: `pagetoken` is added only when the token is truthy. */
  function NearbySearchParams(latLng: LatLng, search: string, radius: real, pageToken: Option<string>): (r: NearbyParams)
    ensures r.location == latLng && r.radius == radius && r.keyword == search
    ensures r.pagetoken.Some? <==> pageToken.Some? && pageToken.value != ""
    ensures r.pagetoken.Some? ==> r.pagetoken == pageToken
  {
    NearbyParams(latLng, radius, search, if StringTruthy(pageToken) then pageToken else None)
  }

  /** `geocode`: the response must pass the status check and hold at least one result; the first result's location is returned. */
  function Geocode(response: GeocodeResponse): (r: Result<LatLng, MapsError>)
    ensures r.Ok? <==> CheckStatus(response.status, response.errorMessage).None? && |response.results| > 0
    ensures r.Ok? ==> r.value == response.results[0]
    ensures CheckStatus(response.status, response.errorMessage).None? && response.results == [] ==> r == Err(NoGeocodeResults)
  {
    match CheckStatus(response.status, response.errorMessage)
    case Some(e) => Err(e)
    case None => if |response.results| == 0 then Err(NoGeocodeResults) else Ok(response.results[0])
  }
}
