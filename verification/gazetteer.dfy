/**
 * One line of `cities.txt`, the geonames.org gazetteer that both the
 * nearest-city lookup and the search box read.  A line holds six
 * tab-separated fields; the coordinates are already converted by `float()`.
 * The last field keeps the line's end-of-line characters, which is why the
 * lookup strips the time zone.
 */
module Gazetteer {
  datatype CityLine = CityLine(
    name: string,
    lat: real,
    lon: real,
    country: string,   // two-letter country code
    state: string,     // administrative division code within the country
    tz: string         // time zone name, with the line ending still attached
  )
}
