# forecast: the geocode cache-aside resolver, in Dafny

This project models the core of a small weather web service. The core is the
resolver `get_lat_long`. It turns a city name into a coordinate pair and uses
the Postgres table `cities` as a permanent cache in front of the Open-Meteo
geocoding API. The model also covers the code around it:

- the provider adapter `fetch_lat_long` and the first-result rule it applies;
- the recent-cities query of the stats page (`ORDER BY id DESC LIMIT 10`);
- the HTTP Basic gate `User::from_request_parts`;
- the forecast view `WeatherDisplay::new`;
- the `/weather` route.

Files:

- `wrappers.dfy` (`Wrappers`): `Option`, `Result`, `Unit`.
- `geocoding.dfy` (`Geocoding`): the coordinate `LatLong` and the error kinds. Also `FirstResult` and `FetchLatLong`.
- `cities.dfy` (`Cities`): the rows of `cities` and the lookup `FindIn`. Also the `ORDER BY id DESC LIMIT 10` projection (`SortByIdDesc`, `LastCities`) and the class `CitiesTable`. That class holds the rows as an append-only sequence plus the next id. Its methods are `SelectByName`, `Insert`, `GetLatLong` and `GetLastCities`.
- `auth.dfy` (`Auth`): `TrimStartMatches` and the credential gate `FromRequestParts`.
- `weather.dfy` (`Weather`): `ZipForecasts`, `NewWeatherDisplay` and `WeatherRoute`.
- `scenarios.dfy` (`Scenarios`): client methods that rely only on the contracts of `CitiesTable`:
  - a miss followed by a hit;
  - a retry after a failed insert;
  - an empty provider result;
  - three new cities listed newest first.

These are modelled as parameters:

- Outside I/O:
  - the geocoding HTTP call with its JSON decoding (`GeocodingApi`);
  - the forecast HTTP call (`ForecastApi`);
  - both calls report a fault only as `Err(Unit)`, which the model maps to `HttpError`;
  - base64 decoding (`Base64Decoder`);
  - UTF-8 validation (`Utf8Decoder`), restricted to decoders that, like `str::from_utf8`, decode the empty bytes to the empty text;
  - `f64::to_string` (`FormatF64`).
- Database faults: a `bool` per query (`selectFails`, `insertFails`, `fails`).

An f64 is its 64-bit pattern (`bv64`). The model only copies it.

`GetLatLong` also returns the list of I/O steps it issued (`Io`). This makes "the provider is not called" and "nothing is inserted" part of its contract.

Where the code differs from what a cache-aside resolver would normally do, the model follows the code:

- A failed `INSERT` after a successful geocoding call fails the request. The `?` at src/main.rs:161 propagates the error, so the coordinate is not returned. A cache-aside resolver would normally log this failure and still return the coordinate. Nothing stays cached, so the next request geocodes again (`Scenarios.RetryAfterFailedInsert`).
- The `/weather` route calls `fetch_lat_long` directly (src/main.rs:188). The cache is never consulted or filled on that route: `WeatherRoute` takes no table.
- Nothing in src/main.rs calls `get_lat_long`. Neither `/weather` (src/main.rs:184-191) nor `stats` (src/main.rs:224-226) uses it. So the rows that `get_last_cities` lists come from some other writer of `cities`. The resolver is modelled as it is written, as if it were called.
- The gate strips the prefix with `trim_start_matches("Basic ")`. That removes every leading copy, so `"Basic Basic <b64>"` is judged like `"Basic <b64>"` (`Auth.RepeatedPrefixIgnored`). The scheme is case-sensitive.

`id` is assumed to be given out by the database in increasing order, starting at 1. The table's schema is not part of this model. `CitiesTable.Valid()` records this as "ids strictly increase along the rows". Since the resolver has no caller here, this is an assumption about whatever writes the table.

## Model

| member | source | states |
|---|---|---|
| `Geocoding.Error.Message` | src/main.rs:172 | The empty-result error, and only that error, has the text "No results found". |
| `Geocoding.FirstResult` | src/main.rs:172 | Succeeds exactly when there is a result, and then returns `results[0]`. With no results, fails with "No results found". |
| `Geocoding.FetchLatLong` | src/main.rs:166-173 | An HTTP/JSON fault becomes `HttpError`. Otherwise the result is the first-result rule applied to the provider's list. Succeeds exactly when the provider answered with a non-empty list. |
| `Cities.FindIn` | src/main.rs:144-149 | `None` exactly when no row has the name. `Some(c)` only when some row with that exact name holds coordinate `c`. |
| `Cities.FindAfterAppend` | src/main.rs:155-163 | Appending a row for a name that was absent makes a later lookup of that name return the row's coordinate. Every other name's lookup is unchanged. |
| `Cities.InsertById` | src/main.rs:217 | Inserting into an id-descending sequence keeps it id-descending. It adds exactly that one row (a multiset equality). |
| `Cities.SortByIdDesc` | src/main.rs:217 | `ORDER BY id DESC`: the result is id-descending and a permutation of the rows. |
| `Cities.LastCities` | src/main.rs:217 | `LIMIT 10`: the list has min(10, number of rows) names. |
| `Cities.SortAscendingIsReverse` | src/main.rs:217 | For rows whose ids increase, id-descending order is exactly the reverse of table order. |
| `Cities.LastCitiesNewestFirst` | src/main.rs:217 | On the table's rows, at most 10 names. Name i is the name of the i-th newest row, so the listed ids strictly decrease. |
| `Cities.CitiesTable.SelectByName` | src/main.rs:144-149 | A query fault is a database error. Otherwise it gives the table's lookup: `None` exactly when no row has the name, or the coordinate of a row with that name. |
| `Cities.CitiesTable.Insert` | src/main.rs:156-161 | On failure, a database error and the table unchanged. On success, exactly one row `(nextId, name, lat, long)` is appended and the id advances. |
| `Cities.CitiesTable.GetLatLong` | src/main.rs:143-164 | Takes one branch per case. A failed lookup gives an error before any provider call, with the table unchanged. A hit returns the stored coordinate with no provider call. A provider error or empty result propagates with no insert. A failed insert gives a database error and no row. A successful miss appends exactly one row with the name and the provider's first coordinate, and returns that coordinate. After any success the name is cached with the returned coordinate. The table only grows and never gains a second row for a name. |
| `Cities.CitiesTable.GetLastCities` | src/main.rs:216-221 | A query fault is a database error. Otherwise min(10, rows) names, newest row first. |
| `Cities.CityRecord.Coordinate` | src/main.rs:145 | `SELECT lat AS latitude, long AS longitude`: the row's `lat` becomes `latitude` and its `long` becomes `longitude`. |
| `Auth.StartsWith` | src/main.rs:57 | `starts_with`: true exactly when the prefix is no longer than the text and matches it character by character. |
| `Auth.CredentialText` | src/main.rs:59-60 | A failed base64 decode gives empty bytes and so the empty text. A failed UTF-8 decode gives the empty text. Otherwise the result is the decoded text. |
| `Auth.TrimStartMatches` | src/main.rs:58 | The result is a suffix of the input. It no longer starts with the pattern. |
| `Auth.TrimStartMatchesSplits` | src/main.rs:58 | The input is a whole number of copies of the pattern followed by the trimmed text. |
| `Auth.FromRequestParts` | src/main.rs:47-78 | Accepts exactly when all three hold: the header is present, it starts with "Basic ", and the text after every leading "Basic " decodes to "forecast:forecast". A failed base64 decode counts as empty bytes, and failed UTF-8 as "". Every other request gets 401 with the `WWW-Authenticate: Basic realm=...` challenge. |
| `Auth.RepeatedPrefixIgnored` | src/main.rs:57-58 | A header with "Basic " twice is judged exactly like one with it once. |
| `Auth.UndecodableRejected` | src/main.rs:59-62 | Rejects the request when the remainder is not base64, or its bytes are not UTF-8. |
| `Auth.TrimRepeated` | src/main.rs:58 | Stripping k copies of "Basic " from a text that does not start with it gives that text back. |
| `Auth.AcceptedWhenEncoded` | src/main.rs:56-63 | One or more "Basic " prefixes followed by base64 whose bytes are the UTF-8 text "forecast:forecast" are accepted. |
| `Auth.AuthorizedDecodesToCredentials` | src/main.rs:56-64 | An accepted header is one or more "Basic " prefixes followed by valid base64 whose bytes are the UTF-8 text "forecast:forecast". |
| `Weather.ZipForecasts` | src/main.rs:128-137 | Gives min(\|time\|, \|temperature_2m\|) forecasts. Forecast i pairs `time[i]` with the formatted `temperature_2m[i]`. |
| `Weather.NewWeatherDisplay` | src/main.rs:125-140 | The display's city is the input city. Its forecasts are the index-wise pairing of the two hourly series, cut to the shorter one. |
| `Weather.WeatherRoute` | src/main.rs:184-191 | A geocoding error propagates, then a forecast fault becomes `HttpError`. When both calls succeed, the result is `Ok` of the display built from the forecast for the provider's first result. Any success has that form. No table is involved. |

## Left out

- Routing and process setup are not modelled, because they are I/O (src/main.rs:229-250). This covers axum routing, the handlers' extractor plumbing, `main`, TCP binding, dotenv and reading `DATABASE_URL`.
- HTTP calls (reqwest) and JSON decoding are not modelled. They are the parameters `GeocodingApi` and `ForecastApi`. The endpoint URLs and their query strings are not modelled either.
- The sqlx/Postgres execution is not modelled. Only the table's meaning is kept, and a `bool` per statement says whether it fails.
- Rendering is not modelled: askama templates and the `AppError` text "Something went wrong: ..." (src/main.rs:17-36). That includes how the stats handler combines the gate with `get_last_cities`.
- base64 decoding and UTF-8 validation are abstract functions. The `Authorization` header enters as text already, so `HeaderValue::to_str` failing is just `None`.
- `f64::to_string` is an abstract parameter, and no arithmetic is done on coordinates.
- Concurrency is not modelled. Two requests that miss on the same name at once can each call the provider and each insert a row. The code has no lock, and the model runs one request at a time.
- Cities.FindIn: when several rows have the same name, SQL does not fix which one `fetch_optional` returns; the model returns the earliest. `GetLatLong` never creates such duplicates (`UniqueNames` is preserved).
- Cities.CitiesTable.Insert: a failed insert does not advance the id sequence in the model. A real Postgres sequence may skip a value; only the increasing order of ids matters here.
