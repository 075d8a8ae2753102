/**
 * `Coordinates` from `gg/utils.py`: the nearest-city lookup over the
 * gazetteer, the cache of lookups that every instance shares, and the
 * human-readable place name and elevation.
 *
 * Reading `cities.txt` becomes a sequence of `CityLine` records.  The
 * great-circle distance (`acos` of sines and cosines, times the earth's
 * radius) is a parameter that answers `None` where `acos` raises ValueError;
 * `%.2f` / `%.1f` rendering and the `territories` look-ups `get_state` and
 * `get_country` are parameters too.
 */
module Geonames {
  import opened Wrappers
  import opened Strings
  import opened Gazetteer
  import opened GpsMath
  import Rationals
  import Formatting

  /** Distance in km between (lat1, lon1) and (lat2, lon2); `None` when `acos` raised ValueError. */
  type Distance = (real, real, real, real) -> Option<real>

  /** The distance the scan compares: a domain error counts as 0. */
  function Delta(distance: Distance, lat: real, lon: real, c: CityLine): (r: real)
    ensures distance(lat, lon, c.lat, c.lon) == Some(r) || (distance(lat, lon, c.lat, c.lon).None? && r == 0.0)
  {
    match distance(lat, lon, c.lat, c.lon)
    case None => 0.0
    case Some(d) => d
  }

  /**
   * Index of the line the scan keeps.  The running minimum starts at
   * infinity, so the first line is always taken; a later line replaces the
   * current one only when it is strictly closer.
   */
  function Nearest(lines: seq<CityLine>, distance: Distance, lat: real, lon: real): (r: Option<nat>)
    ensures r.None? <==> lines == []
    ensures r.Some? ==> r.value < |lines|
  {
    if lines == [] then None
    else
      var last := |lines| - 1;
      match Nearest(lines[..last], distance, lat, lon)
      case None => Some(0)
      case Some(k) =>
        if Delta(distance, lat, lon, lines[last]) < Delta(distance, lat, lon, lines[k]) then Some(last) else Some(k)
  }

  /**
   * The kept line is at least as close as every line, and strictly closer
   * than every line before it: ties go to the earliest line.
   */
  lemma {:induction false} NearestIsFirstLeast(lines: seq<CityLine>, distance: Distance, lat: real, lon: real)
    requires lines != []
    ensures var k := Nearest(lines, distance, lat, lon).value;
            && (forall j :: 0 <= j < |lines| ==>
                  Delta(distance, lat, lon, lines[k]) <= Delta(distance, lat, lon, lines[j]))
            && (forall j :: 0 <= j < k ==>
                  Delta(distance, lat, lon, lines[j]) > Delta(distance, lat, lon, lines[k]))
  {
    var last := |lines| - 1;
    var prefix := lines[..last];
    if prefix != [] {
      NearestIsFirstLeast(prefix, distance, lat, lon);
      assert forall j :: 0 <= j < last ==> prefix[j] == lines[j];
    }
  }

  /**
   * A line whose distance raised ValueError counts as 0 km, so the kept
   * line is no farther than 0 km whenever any line raised.
   */
  lemma DomainErrorWins(lines: seq<CityLine>, distance: Distance, lat: real, lon: real, j: nat)
    requires j < |lines| && distance(lat, lon, lines[j].lat, lines[j].lon).None?
    ensures Delta(distance, lat, lon, lines[Nearest(lines, distance, lat, lon).value]) <= 0.0
  {
    NearestIsFirstLeast(lines, distance, lat, lon);
  }

  /** The list `[name, state, country, tz]` that the lookup caches. */
  datatype GeoEntry = GeoEntry(name: string, state: string, country: string, tz: string)

  function EntryOf(c: CityLine): (e: GeoEntry)
    ensures e.name == c.name && e.state == c.state && e.country == c.country && e.tz == c.tz
  {
    GeoEntry(c.name, c.state, c.country, c.tz)
  }

  /** The entry of the line the scan keeps; `None` for an empty gazetteer. */
  function NearestEntry(lines: seq<CityLine>, distance: Distance, lat: real, lon: real): (r: Option<GeoEntry>)
    ensures r.None? <==> lines == []
    ensures r.Some? ==> exists k :: 0 <= k < |lines| && r.value == EntryOf(lines[k])
                                    && forall j :: 0 <= j < |lines| ==>
                                         Delta(distance, lat, lon, lines[k]) <= Delta(distance, lat, lon, lines[j])
  {
    match Nearest(lines, distance, lat, lon)
    case None => None
    case Some(k) =>
      NearestIsFirstLeast(lines, distance, lat, lon);
      Some(EntryOf(lines[k]))
  }

  /**
   * The loop of `lookup_geoname` over the lines of `cities.txt`: it keeps
   * the entry of the first line of least distance.
   */
  method ScanNearest(cities: seq<CityLine>, distance: Distance, lat: real, lon: real)
    returns (near: Option<GeoEntry>)
    ensures near == NearestEntry(cities, distance, lat, lon)
  {
    near := None;
    var dist: Option<real> := None;   // float('inf')
    var i := 0;
    while i < |cities|
      invariant 0 <= i <= |cities|
      invariant near == NearestEntry(cities[..i], distance, lat, lon)
      invariant dist.None? <==> i == 0
      invariant dist.Some? ==>
                  dist.value == Delta(distance, lat, lon, cities[Nearest(cities[..i], distance, lat, lon).value])
    {
      var city := cities[i];
      var delta := match distance(lat, lon, city.lat, city.lon)
                   case None => 0.0      // except ValueError: delta = 0
                   case Some(d) => d;
      if dist.None? || delta < dist.value {
        dist := Some(delta);
        near := Some(GeoEntry(city.name, city.state, city.country, city.tz));
      }
      assert cities[..i + 1][..i] == cities[..i];
      i := i + 1;
    }
    assert cities[..i] == cities;
  }

  /** The cache key `"%.2f,%.2f" % (lat, lon)`, with `fixed2` rendering `%.2f`. */
  function Key(lat: real, lon: real, fixed2: real -> string): (key: string)
    ensures |key| == |fixed2(lat)| + 1 + |fixed2(lon)|
    ensures key[..|fixed2(lat)|] == fixed2(lat) && key[|fixed2(lat)|] == ','
    ensures key[|fixed2(lat)| + 1..] == fixed2(lon)
  {
    fixed2(lat) + "," + fixed2(lon)
  }

  /**
   * With renderings that hold no comma (as `%.2f` never does), two
   * coordinates share a cache key exactly when both renderings agree.
   */
  lemma KeySeparates(lat1: real, lon1: real, lat2: real, lon2: real, fixed2: real -> string)
    requires ',' !in fixed2(lat1) && ',' !in fixed2(lat2)
    ensures Key(lat1, lon1, fixed2) == Key(lat2, lon2, fixed2) <==>
              fixed2(lat1) == fixed2(lat2) && fixed2(lon1) == fixed2(lon2)
  {
  }

  /**
   * The class attribute `Coordinates.geodata`: one dictionary shared by
   * every instance, from cache key to the cached entry (`None` when the
   * gazetteer was empty).  Entries are added and never removed.
   */
  class GeonameCache {
    var entries: map<string, Option<GeoEntry>>

    constructor ()
      ensures entries == map[]
    {
      entries := map[];
    }

    /** Every cached entry is what the scan finds for coordinates with that key. */
    ghost predicate Sound(cities: seq<CityLine>, distance: Distance, fixed2: real -> string)
      reads this
    {
      forall key :: key in entries ==>
        exists lat: real, lon: real ::
          Key(lat, lon, fixed2) == key && entries[key] == NearestEntry(cities, distance, lat, lon)
    }
  }

  /** What `lookup_geoname` and `set_geodata` end with. */
  datatype Lookup =
    | Skipped               // invalid coordinates: returns None, touches nothing
    | Timezone(tz: string)  // the stripped time zone that `set_geodata` returns
    | NoCity                // `set_geodata(None)` raised TypeError: empty gazetteer

  /** The part of a geotagged photo or track that holds its position and place name. */
  class Coordinates {
    var latitude: PyValue
    var longitude: PyValue
    var altitude: PyValue
    var city: Option<string>
    var provincestate: Option<string>
    var countrycode: Option<string>
    var countryname: Option<string>
    var timezone: Option<string>
    const geodata: GeonameCache

    /** A new instance: every attribute None, sharing `cache` with all others. */
    constructor (cache: GeonameCache)
      ensures geodata == cache
      ensures latitude.PyNone? && longitude.PyNone? && altitude.PyNone?
      ensures city.None? && provincestate.None? && countrycode.None?
      ensures countryname.None? && timezone.None?
    {
      geodata := cache;
      latitude, longitude, altitude := PyNone, PyNone, PyNone;
      city, provincestate, countrycode, countryname, timezone := None, None, None, None, None;
    }

    /** The place-name attributes show `e`, with the territory names looked up. */
    ghost predicate Shows(e: GeoEntry, getState: (string, string) -> Option<string>,
                          getCountry: string -> Option<string>)
      reads this
    {
      && city == Some(e.name)
      && countrycode == Some(e.country)
      && provincestate == getState(e.country, e.state)
      && countryname == getCountry(e.country)
      && timezone == Some(Strip(e.tz, IsByteSpace))
    }

    /**
     * `set_geodata(data)`: unpack the entry into the place-name attributes
     * and return the stripped time zone.  Unpacking `None` raises TypeError
     * before any attribute is assigned.
     */
    method SetGeodata(data: Option<GeoEntry>, getState: (string, string) -> Option<string>,
                      getCountry: string -> Option<string>)
      returns (r: Lookup)
      modifies this
      ensures latitude == old(latitude) && longitude == old(longitude) && altitude == old(altitude)
      ensures data.None? ==> r == NoCity && unchanged(this)
      ensures data.Some? ==> Shows(data.value, getState, getCountry) && r == Timezone(timezone.value)
      ensures r.Timezone? ==> r.tz == [] || (!IsByteSpace(r.tz[0]) && !IsByteSpace(r.tz[|r.tz| - 1]))
    {
      if data.None? {
        return NoCity;
      }
      var e := data.value;
      var tz := Strip(e.tz, IsByteSpace);
      assert tz == [] || (!IsByteSpace(tz[0]) && !IsByteSpace(tz[|tz| - 1]));
      city, countrycode := Some(e.name), Some(e.country);
      provincestate := getState(e.country, e.state);
      countryname := getCountry(e.country);
      timezone := Some(tz);
      r := Timezone(tz);
    }

    /**
     * `lookup_geoname()`.  Invalid coordinates: nothing happens.  A key
     * already in the shared cache: its entry is applied and the cache is
     * unchanged.  A new key: the gazetteer is scanned, the nearest entry
     * (or `None`) is stored under that key alone, then applied.
     */
    method LookupGeoname(cities: seq<CityLine>, distance: Distance, fixed2: real -> string,
                         getState: (string, string) -> Option<string>,
                         getCountry: string -> Option<string>)
      returns (r: Lookup)
      modifies this, geodata
      ensures latitude == old(latitude) && longitude == old(longitude) && altitude == old(altitude)
      ensures !ValidCoords(latitude, longitude) ==> r == Skipped && unchanged(this, geodata)
      ensures ValidCoords(latitude, longitude) ==>
                var lat, lon := NumberValue(latitude), NumberValue(longitude);
                var key := Key(lat, lon, fixed2);
                && (key in old(geodata.entries) ==> geodata.entries == old(geodata.entries))
                && (key !in old(geodata.entries) ==>
                      geodata.entries == old(geodata.entries)[key := NearestEntry(cities, distance, lat, lon)])
                && key in geodata.entries
                && (geodata.entries[key].None? ==> r == NoCity && unchanged(this))
                && (geodata.entries[key].Some? ==>
                      Shows(geodata.entries[key].value, getState, getCountry) && r == Timezone(timezone.value))
      ensures old(geodata.Sound(cities, distance, fixed2)) ==> geodata.Sound(cities, distance, fixed2)
    {
      if !ValidCoords(latitude, longitude) {
        return Skipped;
      }
      var lat, lon := NumberValue(latitude), NumberValue(longitude);
      var key := Key(lat, lon, fixed2);
      if key in geodata.entries {
        r := SetGeodata(geodata.entries[key], getState, getCountry);
        return;
      }
      var near := ScanNearest(cities, distance, lat, lon);
      geodata.entries := geodata.entries[key := near];
      r := SetGeodata(near, getState, getCountry);
    }

    /**
     * `pretty_geoname(multiline)`: city, state and country names that are
     * present, joined by ",\n" when their total length exceeds 35 and
     * `multiline` is set, by ", " otherwise.  Both joiners are two
     * characters, so the length does not depend on the choice.
     */
    function PrettyGeoname(multiline: bool): (r: string)
      reads this
      ensures var names := [city, provincestate, countryname];
              var present := Formatting.Present(names);
              var length := Formatting.TotalLength(present);
              && (r == "" <==> present == [])
              && (present != [] ==> |r| == length + 2 * (|present| - 1))
              && (r == Formatting.FormatList(names, ",\n") <==> (length > 35 && multiline) || |present| <= 1)
              && (r == Formatting.FormatList(names, ", ") <==> !(length > 35 && multiline) || |present| <= 1)
    {
      var names := [city, provincestate, countryname];
      var long := Formatting.TotalLength(Formatting.Present(names)) > 35 && multiline;
      JoinerChoice(names, long);
      Formatting.FormatList(names, if long then ",\n" else ", ")
    }

    /**
     * `pretty_elevation()`: for an int or float altitude, `%.1f` of its
     * absolute value followed by "m above sea level" when it is at least 0
     * and "m below sea level" otherwise; None for any other altitude.
     */
    function PrettyElevation(fixed1: real -> string): (r: Option<string>)
      reads this
      ensures r.None? <==> !IsNumber(altitude)
      ensures r.Some? ==>
                var text := fixed1(Rationals.AbsReal(NumberValue(altitude)));
                && |r.value| == |text| + |AboveSeaLevel|
                && r.value[..|text|] == text
                && (r.value[|text|..] == AboveSeaLevel <==> NumberValue(altitude) >= 0.0)
                && (r.value[|text|..] == BelowSeaLevel <==> NumberValue(altitude) < 0.0)
    {
      if !IsNumber(altitude) then None
      else
        var alt := NumberValue(altitude);
        Some(fixed1(Rationals.AbsReal(alt)) + if alt >= 0.0 then AboveSeaLevel else BelowSeaLevel)
    }
  }

  const AboveSeaLevel: string := "m above sea level"
  const BelowSeaLevel: string := "m below sea level"

  /**
   * Formatting with the joiner `pretty_geoname` picks: empty exactly when no
   * name is present, one length for either joiner, and the result is the
   * one for the other joiner only when at most one name is present.
   */
  lemma JoinerChoice(names: seq<Option<string>>, long: bool)
    ensures var present := Formatting.Present(names);
            var r := Formatting.FormatList(names, if long then ",\n" else ", ");
            && (r == "" <==> present == [])
            && (present != [] ==> |r| == Formatting.TotalLength(present) + 2 * (|present| - 1))
            && (r == Formatting.FormatList(names, ",\n") <==> long || |present| <= 1)
            && (r == Formatting.FormatList(names, ", ") <==> !long || |present| <= 1)
  {
    JoinersDiffer(names);
  }

  /** With two names or more the two joiners give different strings. */
  lemma JoinersDiffer(names: seq<Option<string>>)
    ensures |Formatting.Present(names)| >= 2 ==>
              Formatting.FormatList(names, ",\n") != Formatting.FormatList(names, ", ")
    ensures |Formatting.Present(names)| <= 1 ==>
              Formatting.FormatList(names, ",\n") == Formatting.FormatList(names, ", ")
  {
    var parts := Formatting.Present(names);
    if |parts| >= 2 {
      var n := |parts[0]|;
      var a, b := Formatting.FormatList(names, ",\n"), Formatting.FormatList(names, ", ");
      assert a == parts[0] + ",\n" + Formatting.Join(parts[1..], ",\n");
      assert b == parts[0] + ", " + Formatting.Join(parts[1..], ", ");
      assert a[n + 1] == '\n' && b[n + 1] == ' ';
    }
  }

  /**
   * The cache is shared and memoises: after one instance looks up valid
   * coordinates, another instance whose coordinates have the same key gets
   * the same result and the same place names, without a new entry.
   */
  method SharedLookup(a: Coordinates, b: Coordinates, cities: seq<CityLine>, distance: Distance,
                      fixed2: real -> string, getState: (string, string) -> Option<string>,
                      getCountry: string -> Option<string>)
    returns (ra: Lookup, rb: Lookup)
    requires a != b && a.geodata == b.geodata
    requires ValidCoords(a.latitude, a.longitude) && ValidCoords(b.latitude, b.longitude)
    requires Key(NumberValue(a.latitude), NumberValue(a.longitude), fixed2)
          == Key(NumberValue(b.latitude), NumberValue(b.longitude), fixed2)
    modifies a, b, a.geodata
    ensures ra == rb && ra != Skipped
    ensures ra.Timezone? ==>
              a.city == b.city && a.provincestate == b.provincestate && a.countryname == b.countryname
    ensures |a.geodata.entries| <= |old(a.geodata.entries)| + 1
  {
    ra := a.LookupGeoname(cities, distance, fixed2, getState, getCountry);
    ghost var afterA := a.geodata.entries;
    rb := b.LookupGeoname(cities, distance, fixed2, getState, getCountry);
    assert a.geodata.entries == afterA;
  }

  lemma TimezoneOfParis()
    ensures Strip("Europe/Paris\n", IsByteSpace) == "Europe/Paris"
  {
    var s := "Europe/Paris\n";
    assert !IsByteSpace(s[0]);
    assert LeadingSpace(s, IsByteSpace) == 0;
    assert s[..|s| - 1] == "Europe/Paris";
    assert TrailingSpace(s[..|s| - 1], IsByteSpace) == 0;
    assert TrailingSpace(s, IsByteSpace) == 1;
  }

  /**
   * A gazetteer holding the single line
   * "Paris\t48.8566\t2.3522\tFR\t\tEurope/Paris\n": a lookup at (48.86, 2.35)
   * names Paris, France, and returns the time zone without its line ending.
   */
  method ParisLookup(distance: Distance, fixed2: real -> string,
                     getState: (string, string) -> Option<string>,
                     getCountry: string -> Option<string>)
    returns (r: Lookup, city: Option<string>, countrycode: Option<string>)
    ensures r == Timezone("Europe/Paris")
    ensures city == Some("Paris") && countrycode == Some("FR")
  {
    var cities := [CityLine("Paris", 48.8566, 2.3522, "FR", "", "Europe/Paris\n")];
    var cache := new GeonameCache();
    var photo := new Coordinates(cache);
    photo.latitude, photo.longitude := PyFloat(48.86), PyFloat(2.35);
    assert ValidCoords(photo.latitude, photo.longitude);
    assert Nearest(cities, distance, 48.86, 2.35) == Some(0) by {
      assert cities[..0] == [];
    }
    r := photo.LookupGeoname(cities, distance, fixed2, getState, getCountry);
    TimezoneOfParis();
    city, countrycode := photo.city, photo.countrycode;
  }
}
