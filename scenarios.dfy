/**
 * Clients of `CitiesTable` that use only the contracts of its methods: a
 * repeated lookup is served from the table, a failed insert leaves the city
 * uncached, and the recent-cities list is newest first.
 */
module Scenarios {
  import opened Wrappers
  import opened Geocoding
  import opened Cities

  /** A miss populates the table; the next request is a hit with the same coordinate. */
  method MissThenHit(api: GeocodingApi, paris: LatLong)
    requires api("Paris") == Ok([paris])
  {
    var table := new CitiesTable();
    var r1, io1 := table.GetLatLong("Paris", api, false, false);
    assert r1 == Ok(paris) && io1 == [SelectCity, GeocodeRequest, InsertCity];
    var r2, io2 := table.GetLatLong("Paris", api, false, false);
    assert r2 == Ok(paris) && io2 == [SelectCity];
  }

  /**
   * A failed insert fails the request and caches nothing, so the next request
   * asks the provider again and can still succeed.
   */
  method RetryAfterFailedInsert(api: GeocodingApi, x: LatLong)
    requires api("X") == Ok([x])
  {
    var table := new CitiesTable();
    var r1, io1 := table.GetLatLong("X", api, false, true);
    assert r1 == Err(DatabaseError) && table.rows == [];
    var r2, io2 := table.GetLatLong("X", api, false, false);
    assert r2 == Ok(x) && io2 == [SelectCity, GeocodeRequest, InsertCity];
  }

  /** An empty provider result is "No results found" and leaves the name uncached. */
  method EmptyResult(api: GeocodingApi)
    requires api("Nowhereville") == Ok([])
  {
    var table := new CitiesTable();
    var r, io := table.GetLatLong("Nowhereville", api, false, false);
    assert r == Err(NoResultsFound) && io == [SelectCity, GeocodeRequest];
    assert table.Find("Nowhereville") == None;
  }

  /** Resolves a city the table lacks, for a provider that knows it. */
  method ResolveNew(table: CitiesTable, name: string, api: GeocodingApi, c: LatLong)
    requires table.Valid() && table.Find(name).None? && api(name) == Ok([c])
    modifies table
    ensures table.Valid()
    ensures table.rows == old(table.rows) + [CityRecord(old(table.nextId), name, c.latitude, c.longitude)]
    ensures table.nextId == old(table.nextId) + 1
  {
    var r, io := table.GetLatLong(name, api, false, false);
  }

  /** Three first-time cities are listed newest first. */
  method RecentOrder(api: GeocodingApi, a: LatLong, b: LatLong, c: LatLong)
    requires api("A") == Ok([a]) && api("B") == Ok([b]) && api("C") == Ok([c])
  {
    var table := new CitiesTable();
    ResolveNew(table, "A", api, a);
    ghost var ra := CityRecord(1, "A", a.latitude, a.longitude);
    assert FindIn([ra], "B") == None;
    ResolveNew(table, "B", api, b);
    ghost var rb := CityRecord(2, "B", b.latitude, b.longitude);
    assert table.rows == [ra, rb];
    assert FindIn([ra, rb], "C") == None;
    ResolveNew(table, "C", api, c);
    assert table.rows == [ra, rb, CityRecord(3, "C", c.latitude, c.longitude)];
    var recent := table.GetLastCities(false);
    assert recent.Ok? && |recent.value| == 3;
    assert recent.value[0] == table.rows[2].name && recent.value[1] == table.rows[1].name;
    assert recent.value[2] == table.rows[0].name;
    assert recent.value == ["C", "B", "A"];
  }
}
