/**
 * The geocoding provider adapter `fetch_lat_long`: one request to the geocoding
 * search endpoint, whose first result is the coordinate of the city.
 */
module Geocoding {
  import opened Wrappers

  /** The IEEE 754 bit pattern of an f64. Coordinates are only copied, never computed on. */
  type F64 = bv64

  /** `LatLong`: a coordinate pair, as decoded from the provider or read back from the table. */
  datatype LatLong = LatLong(latitude: F64, longitude: F64)

  /**
   * The errors that `anyhow::Error` carries through the core: a database fault
   * (query or insert), a transport or JSON fault of an upstream HTTP call, and
   * the context error of an empty geocoding result.
   */
  datatype Error = DatabaseError | HttpError | NoResultsFound {
    /** The message the error displays with; only the geocoding context has a fixed text. */
    function Message(): (m: string)
      ensures NoResultsFound? <==> m == "No results found"
    {
      match this
      case DatabaseError => "database error"
      case HttpError => "http error"
      case NoResultsFound => "No results found"
    }
  }

  /**
   * The HTTP request to the geocoding endpoint and the JSON decoding of its
   * `results` array, for a city name. A transport or decoding fault is `Err(Unit)`.
   */
  type GeocodingApi = string -> Result<seq<LatLong>, Unit>

  /**
   * `results.get(0).cloned().context("No results found")`: the first result,
   * or the "No results found" error when there is none.
   */
  function FirstResult(results: seq<LatLong>): (r: Result<LatLong, Error>)
    ensures r.Ok? <==> |results| > 0
    ensures r.Ok? ==> r.value == results[0]
    ensures r.Err? ==> r.error == NoResultsFound && r.error.Message() == "No results found"
  {
    if |results| == 0 then Err(NoResultsFound) else Ok(results[0])
  }

  /**
   * `fetch_lat_long`: an HTTP/JSON failure propagates as `HttpError`; otherwise
   * the first of the provider's results is the coordinate.
   */
  function FetchLatLong(api: GeocodingApi, city: string): (r: Result<LatLong, Error>)
    ensures api(city).Err? ==> r == Err(HttpError)
    ensures api(city).Ok? ==> r == FirstResult(api(city).value)
    ensures r.Ok? <==> api(city).Ok? && |api(city).value| > 0
  {
    match api(city)
    case Err(_) => Err(HttpError)
    case Ok(results) => FirstResult(results)
  }
}
