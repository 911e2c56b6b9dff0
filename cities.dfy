/**
 * The `cities` table and the cache-aside resolver `get_lat_long` over it, with
 * the read-only projection `get_last_cities` used by the stats page.
 */
module Cities {
  import opened Wrappers
  import opened Geocoding

  /** One row of `cities`: the database-assigned `id`, the name and the two coordinates. */
  datatype CityRecord = CityRecord(id: nat, name: string, lat: F64, long: F64) {
    /** `SELECT lat AS latitude, long AS longitude`: the row read back as a `LatLong`. */
    function Coordinate(): (c: LatLong)
      ensures c.latitude == lat && c.longitude == long
    {
      LatLong(lat, long)
    }
  }

  /** The I/O steps the resolver issues, in order. */
  datatype Io = SelectCity | GeocodeRequest | InsertCity

  /** Ids strictly increase along the table: rows are appended with fresh, larger ids. */
  ghost predicate IdsAscending(rows: seq<CityRecord>) {
    forall i, j :: 0 <= i < j < |rows| ==> rows[i].id < rows[j].id
  }

  /** At most one row per city name. */
  ghost predicate UniqueNames(rows: seq<CityRecord>) {
    forall i, j :: 0 <= i < j < |rows| ==> rows[i].name != rows[j].name
  }

  /**
   * `SELECT ... FROM cities WHERE name = $1` with `fetch_optional`: the
   * coordinate of the earliest row with exactly this name, or `None`.
   */
  function FindIn(rows: seq<CityRecord>, name: string): (r: Option<LatLong>)
    ensures r.None? <==> forall i :: 0 <= i < |rows| ==> rows[i].name != name
    ensures r.Some? ==> exists i :: 0 <= i < |rows| && rows[i].name == name && rows[i].Coordinate() == r.value
  {
    if |rows| == 0 then None
    else if rows[0].name == name then Some(rows[0].Coordinate())
    else
      var r := FindIn(rows[1..], name);
      assert forall i :: 1 <= i < |rows| ==> rows[i] == rows[1..][i - 1];
      r
  }

  /** An appended row for a name the table lacks is what a later lookup finds; other names are unaffected. */
  lemma {:induction false} FindAfterAppend(rows: seq<CityRecord>, rec: CityRecord, name: string)
    requires FindIn(rows, rec.name).None?
    ensures FindIn(rows + [rec], name) == if name == rec.name then Some(rec.Coordinate()) else FindIn(rows, name)
  {
    if |rows| > 0 {
      assert (rows + [rec])[1..] == rows[1..] + [rec];
      if rows[0].name != name {
        FindAfterAppend(rows[1..], rec, name);
      }
    }
  }

  // ---------------------------------------------------------------------------
  // ORDER BY id DESC LIMIT 10
  // ---------------------------------------------------------------------------

  /** Ids do not increase along the sequence. */
  ghost predicate IdsDescending(rows: seq<CityRecord>) {
    forall i, j :: 0 <= i < j < |rows| ==> rows[i].id >= rows[j].id
  }

  /** Places `rec` into an id-descending sequence. */
  function InsertById(rec: CityRecord, sorted: seq<CityRecord>): (r: seq<CityRecord>)
    requires IdsDescending(sorted)
    ensures |r| == |sorted| + 1
    ensures r[0] == rec || (|sorted| > 0 && r[0] == sorted[0])
    ensures IdsDescending(r)
    ensures multiset(r) == multiset(sorted) + multiset{rec}
  {
    if |sorted| == 0 || rec.id >= sorted[0].id then
      [rec] + sorted
    else
      var tail := InsertById(rec, sorted[1..]);
      assert sorted[0].id >= tail[0].id;
      assert sorted == [sorted[0]] + sorted[1..];
      [sorted[0]] + tail
  }

  /** `ORDER BY id DESC`: the rows rearranged so that ids never increase. */
  function SortByIdDesc(rows: seq<CityRecord>): (r: seq<CityRecord>)
    ensures IdsDescending(r)
    ensures multiset(r) == multiset(rows)
  {
    if |rows| == 0 then []
    else
      assert rows == [rows[0]] + rows[1..];
      InsertById(rows[0], SortByIdDesc(rows[1..]))
  }

  /** The `LIMIT` of the recent-cities query. */
  const RecentLimit: nat := 10

  /** The names of a sequence of rows, in order. */
  function Names(rows: seq<CityRecord>): (names: seq<string>)
    ensures |names| == |rows|
    ensures forall i :: 0 <= i < |rows| ==> names[i] == rows[i].name
  {
    if |rows| == 0 then [] else [rows[0].name] + Names(rows[1..])
  }

  /** `SELECT name FROM cities ORDER BY id DESC LIMIT 10`. */
  function LastCities(rows: seq<CityRecord>): (names: seq<string>)
    ensures |names| == if |rows| < RecentLimit then |rows| else RecentLimit
  {
    var sorted := SortByIdDesc(rows);
    assert |multiset(sorted)| == |multiset(rows)|;
    Names(if |sorted| <= RecentLimit then sorted else sorted[..RecentLimit])
  }

  /** Inserting a row whose id is below every other id puts it last. */
  lemma {:induction false} InsertSmallestLast(rec: CityRecord, sorted: seq<CityRecord>)
    requires IdsDescending(sorted)
    requires forall k :: 0 <= k < |sorted| ==> rec.id < sorted[k].id
    ensures InsertById(rec, sorted) == sorted + [rec]
  {
    if |sorted| > 0 {
      InsertSmallestLast(rec, sorted[1..]);
      assert sorted == [sorted[0]] + sorted[1..];
    }
  }

  /** The reverse of a sequence of rows. */
  function Reverse(rows: seq<CityRecord>): (r: seq<CityRecord>)
    ensures |r| == |rows|
    ensures forall i :: 0 <= i < |rows| ==> r[i] == rows[|rows| - 1 - i]
  {
    if |rows| == 0 then [] else Reverse(rows[1..]) + [rows[0]]
  }

  /** For rows appended with increasing ids, newest-first order is the reverse of table order. */
  lemma {:induction false} SortAscendingIsReverse(rows: seq<CityRecord>)
    requires IdsAscending(rows)
    ensures SortByIdDesc(rows) == Reverse(rows)
  {
    if |rows| > 0 {
      AscendingTail(rows);
      SortAscendingIsReverse(rows[1..]);
      FirstBelowReversedTail(rows);
      InsertSmallestLast(rows[0], Reverse(rows[1..]));
    }
  }

  /** A suffix of an ascending sequence ascends. */
  lemma AscendingTail(rows: seq<CityRecord>)
    requires |rows| > 0 && IdsAscending(rows)
    ensures IdsAscending(rows[1..])
  {
    var tail := rows[1..];
    forall i, j | 0 <= i < j < |tail| ensures tail[i].id < tail[j].id {
      assert tail[i] == rows[i + 1] && tail[j] == rows[j + 1];
    }
  }

  /** The first row of an ascending sequence has a smaller id than every later one. */
  lemma FirstBelowReversedTail(rows: seq<CityRecord>)
    requires |rows| > 0 && IdsAscending(rows)
    ensures forall k :: 0 <= k < |rows| - 1 ==> rows[0].id < Reverse(rows[1..])[k].id
  {
    var tail := rows[1..];
    forall k | 0 <= k < |tail| ensures rows[0].id < Reverse(tail)[k].id {
      assert Reverse(tail)[k] == tail[|tail| - 1 - k] == rows[|rows| - 1 - k];
    }
  }

  /**
   * On the table's rows, the recent-cities list holds the names of the newest
   * (at most ten) rows, newest first.
   */
  lemma LastCitiesNewestFirst(rows: seq<CityRecord>)
    requires IdsAscending(rows)
    ensures |LastCities(rows)| <= RecentLimit
    ensures forall i :: 0 <= i < |LastCities(rows)| ==> LastCities(rows)[i] == rows[|rows| - 1 - i].name
  {
    SortAscendingIsReverse(rows);
  }

  // ---------------------------------------------------------------------------
  // The table and the resolver
  // ---------------------------------------------------------------------------

  /** The `cities` table: an append-only sequence of rows with database-assigned ids. */
  class CitiesTable {
    var rows: seq<CityRecord>
    /** The next value of the id sequence. */
    var nextId: nat

    ghost predicate Valid()
      reads this
    {
      IdsAscending(rows) && forall i :: 0 <= i < |rows| ==> rows[i].id < nextId
    }

    constructor ()
      ensures Valid() && rows == [] && nextId == 1
    {
      rows := [];
      nextId := 1;
    }

    /** The coordinate the table holds for `name`, if any. */
    function Find(name: string): (r: Option<LatLong>)
      reads this
      ensures r.None? <==> forall i :: 0 <= i < |rows| ==> rows[i].name != name
    {
      FindIn(rows, name)
    }

    /**
     * The point lookup by exact name. `fails` stands for a connection or
     * decoding fault of the query.
     */
    method SelectByName(name: string, fails: bool) returns (r: Result<Option<LatLong>, Error>)
      ensures fails <==> r.Err?
      ensures r.Err? ==> r.error == DatabaseError
      ensures r.Ok? ==> r.value == Find(name)
      ensures r.Ok? && r.value.None? ==> forall i :: 0 <= i < |rows| ==> rows[i].name != name
      ensures r.Ok? && r.value.Some? ==>
        exists i :: 0 <= i < |rows| && rows[i].name == name && rows[i].Coordinate() == r.value.value
    {
      if fails {
        return Err(DatabaseError);
      }
      r := Ok(Find(name));
    }

    /**
     * `INSERT INTO cities (name, lat, long)`: appends one row with the next id,
     * or, when `fails`, reports a database error and changes nothing.
     */
    method Insert(name: string, coordinate: LatLong, fails: bool) returns (r: Result<Unit, Error>)
      requires Valid()
      modifies this
      ensures Valid()
      ensures fails <==> r.Err?
      ensures r.Err? ==> r.error == DatabaseError && unchanged(this)
      ensures r.Ok? ==> rows == old(rows) + [CityRecord(old(nextId), name, coordinate.latitude, coordinate.longitude)]
      ensures r.Ok? ==> nextId == old(nextId) + 1
    {
      if fails {
        return Err(DatabaseError);
      }
      rows := rows + [CityRecord(nextId, name, coordinate.latitude, coordinate.longitude)];
      nextId := nextId + 1;
      r := Ok(Unit);
    }

    /**
     * `get_lat_long`: look the name up; on a hit return the stored coordinate;
     * on a miss ask the geocoding provider, insert its first result and return
     * it. Every error (`?`) propagates, the insert's included. `io` lists the
     * I/O steps issued, in order.
     */
    method GetLatLong(name: string, api: GeocodingApi, selectFails: bool, insertFails: bool)
      returns (r: Result<LatLong, Error>, io: seq<Io>)
      requires Valid()
      modifies this
      ensures Valid()
      // A failed lookup propagates before any provider call or insert.
      ensures selectFails ==> r == Err(DatabaseError) && io == [SelectCity] && unchanged(this)
      // Hit: the stored coordinate, no provider call, the table unchanged.
      ensures !selectFails && old(Find(name)).Some? ==>
        r == Ok(old(Find(name)).value) && io == [SelectCity] && unchanged(this)
      // Miss and the provider fails or has no result: that error, no insert.
      ensures !selectFails && old(Find(name)).None? && FetchLatLong(api, name).Err? ==>
        r == Err(FetchLatLong(api, name).error) && io == [SelectCity, GeocodeRequest] && unchanged(this)
      // Miss and the insert fails: a database error instead of the coordinate, no row added.
      ensures !selectFails && old(Find(name)).None? && FetchLatLong(api, name).Ok? && insertFails ==>
        r == Err(DatabaseError) && io == [SelectCity, GeocodeRequest, InsertCity] && unchanged(this)
      // Miss and the insert succeeds: exactly one row with the name and the provider's first result.
      ensures !selectFails && old(Find(name)).None? && FetchLatLong(api, name).Ok? && !insertFails ==>
        var c := FetchLatLong(api, name).value;
        r == Ok(c) && io == [SelectCity, GeocodeRequest, InsertCity] &&
        rows == old(rows) + [CityRecord(old(nextId), name, c.latitude, c.longitude)] &&
        nextId == old(nextId) + 1
      // After any success the name is cached with the returned coordinate.
      ensures r.Ok? ==> Find(name) == Some(r.value)
      // The table only ever grows, and never gains a second row for a name.
      ensures old(rows) <= rows
      ensures UniqueNames(old(rows)) ==> UniqueNames(rows)
    {
      io := [SelectCity];
      var found := SelectByName(name, selectFails);
      if found.Err? {
        return Err(found.error), io;
      }
      if found.value.Some? {
        return Ok(found.value.value), io;
      }
      io := io + [GeocodeRequest];
      var fetched := FetchLatLong(api, name);
      if fetched.Err? {
        return Err(fetched.error), io;
      }
      io := io + [InsertCity];
      ghost var before := rows;
      var inserted := Insert(name, fetched.value, insertFails);
      if inserted.Err? {
        return Err(inserted.error), io;
      }
      FindAfterAppend(before, rows[|rows| - 1], name);
      assert rows[..|before|] == before;
      r := Ok(fetched.value);
    }

    /** `get_last_cities`: the recent-cities names, or the query's database error. */
    method GetLastCities(fails: bool) returns (r: Result<seq<string>, Error>)
      requires Valid()
      ensures fails <==> r.Err?
      ensures r.Err? ==> r.error == DatabaseError
      ensures r.Ok? ==> |r.value| == (if |rows| < RecentLimit then |rows| else RecentLimit)
      ensures r.Ok? ==> forall i :: 0 <= i < |r.value| ==> r.value[i] == rows[|rows| - 1 - i].name
    {
      if fails {
        return Err(DatabaseError);
      }
      LastCitiesNewestFirst(rows);
      r := Ok(LastCities(rows));
    }
  }
}
