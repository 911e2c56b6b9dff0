/**
 * The forecast view `WeatherDisplay::new` and the `/weather` route that feeds it.
 */
module Weather {
  import opened Wrappers
  import opened Geocoding

  /** `f64::to_string` of a temperature. */
  type FormatF64 = F64 -> string

  datatype Hourly = Hourly(time: seq<string>, temperature2m: seq<F64>)

  datatype WeatherResponse = WeatherResponse(latitude: F64, longitude: F64, timezone: string, hourly: Hourly)

  datatype Forecast = Forecast(date: string, temperature: string)

  datatype WeatherDisplay = WeatherDisplay(city: string, forecasts: seq<Forecast>)

  /** The HTTP request to the forecast endpoint and its JSON decoding; a fault is `Err(Unit)`. */
  type ForecastApi = LatLong -> Result<WeatherResponse, Unit>

  function Min(a: nat, b: nat): (m: nat)
    ensures m <= a && m <= b && (m == a || m == b)
  {
    if a <= b then a else b
  }

  /** `time.iter().zip(temperature_2m.iter()).map(..).collect()`: pairs up to the shorter series. */
  function ZipForecasts(time: seq<string>, temps: seq<F64>, format: FormatF64): (fs: seq<Forecast>)
    ensures |fs| == Min(|time|, |temps|)
    ensures forall i :: 0 <= i < |fs| ==> fs[i] == Forecast(time[i], format(temps[i]))
  {
    if |time| == 0 || |temps| == 0 then []
    else [Forecast(time[0], format(temps[0]))] + ZipForecasts(time[1..], temps[1..], format)
  }

  /** `WeatherDisplay::new`: the city as given and one forecast per paired hour. */
  function NewWeatherDisplay(city: string, response: WeatherResponse, format: FormatF64): (d: WeatherDisplay)
    ensures d.city == city
    ensures |d.forecasts| == Min(|response.hourly.time|, |response.hourly.temperature2m|)
    ensures forall i :: 0 <= i < |d.forecasts| ==>
      d.forecasts[i].date == response.hourly.time[i] &&
      d.forecasts[i].temperature == format(response.hourly.temperature2m[i])
  {
    WeatherDisplay(city, ZipForecasts(response.hourly.time, response.hourly.temperature2m, format))
  }

  /**
   * The `/weather` handler: it geocodes with `fetch_lat_long` directly (the
   * `cities` table is not consulted), fetches the forecast and builds the view.
   * Either upstream fault is an `HttpError`.
   */
  function WeatherRoute(city: string, geocode: GeocodingApi, forecast: ForecastApi, format: FormatF64)
    : (r: Result<WeatherDisplay, Error>)
    ensures FetchLatLong(geocode, city).Err? ==> r == Err(FetchLatLong(geocode, city).error)
    ensures FetchLatLong(geocode, city).Ok? && forecast(FetchLatLong(geocode, city).value).Err? ==>
      r == Err(HttpError)
    ensures FetchLatLong(geocode, city).Ok? && forecast(FetchLatLong(geocode, city).value).Ok? ==>
      r == Ok(NewWeatherDisplay(city, forecast(FetchLatLong(geocode, city).value).value, format))
    ensures r.Ok? ==>
      geocode(city).Ok? && |geocode(city).value| > 0 &&
      forecast(geocode(city).value[0]).Ok? &&
      r.value == NewWeatherDisplay(city, forecast(geocode(city).value[0]).value, format)
  {
    match FetchLatLong(geocode, city)
    case Err(e) => Err(e)
    case Ok(latLong) =>
      match forecast(latLong)
      case Err(_) => Err(HttpError)
      case Ok(response) => Ok(NewWeatherDisplay(city, response, format))
  }
}
