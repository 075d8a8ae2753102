# GottenGeography core, modelled in Dafny

GottenGeography geotags photos. It matches photo timestamps against GPS
tracks, writes the positions into the photos' metadata and names the nearest
city. This project models the parts of its core that work without the
toolkit, and proves properties of each:

- **GPS math** (`gps_math.dfy`, `rationals.dfy`) covers four functions:
  - degrees/minutes/seconds to decimal degrees (`dms_to_decimal`);
  - the reverse split into whole degrees, whole minutes and rational seconds (`decimal_to_dms`);
  - the encoding of a float as a rational with a denominator of at most 99999 (`float_to_rational`);
  - the coordinate validity check (`valid_coords`).

  `Fraction.limit_denominator` from Python's `fractions` module is modelled as its continued-fraction algorithm. It is proved to give a denominator in 1..99999 within 1/99999 of the input.
- **Formatting** (`formatting.dfy`) covers `format_list`, which joins the names that are present, and `format_coords`, which prints hemisphere letters and absolute values.
- **Nearest-city lookup** (`geonames.dfy`, `gazetteer.dfy`) covers `Coordinates.lookup_geoname` and `set_geodata`:
  - a scan that keeps the first line of least distance;
  - a dictionary of results shared by every instance, keyed by the `%.2f,%.2f` rendering of the coordinates and never evicted.

  It also covers `pretty_geoname` and `pretty_elevation`.
- **XML element parser** (`xml_parser.dfy`) covers `XMLSimpleParser`, a state machine over the events Expat reports:
  - it checks the root element;
  - it offers watched elements to `call_start`;
  - while an element is tracked, it gathers that element's attributes and text into one flat dictionary;
  - it hands that dictionary to `call_end`.
- **Search box** (`search.dfy`) covers `SearchController.load_results`, which appends the gazetteer rows matching the first three letters typed, once per prefix. It also covers the completion's match function.
- **Support modules:**
  - `strings.dfy`: Python 2 `strip`, `lower` and `find`;
  - `wrappers.dfy`: `Option`.

Python values are modelled as follows:
- **Floats:** a float that enters `decimal_to_dms` is modelled by its exact value `num/den`. Other floats are `real`.
- **Mixed types:** `PyValue` distinguishes `int`, `float`, `None` and every other type where the source tests `type(...)`.
- **Parameters:** these things become parameters of the operations that use them:
  - the gazetteer file `cities.txt`, as a sequence of records;
  - the great-circle distance, as a function that answers `None` where `acos` raises ValueError;
  - `%.1f`, `%.2f` and `%.5f` rendering;
  - the `territories` look-ups `get_state` and `get_country`;
  - Expat, as a sequence of events.
- **Byte strings:** a `string` read from `cities.txt` or typed into the search box stands for the bytes of a Python 2 `str`. So `|s|` is `len(s)` in bytes. This is the length that `len(three) == 3` and `[0:3]` (`gg/search.py:62-63`) and the 35-character test of `pretty_geoname` (`gg/utils.py:313`) measure.

Points of the source's own behaviour that the model keeps:
- A text chunk that is only white space is dropped even while an element is accumulating text (`gg/utils.py:387`).
- A root element of the wrong name and malformed markup both end in the same IOError.
- Callbacks made before a parse fails are not undone.
- With an empty gazetteer, `lookup_geoname` stores `None` and then raises TypeError in `set_geodata`. It does not return an empty result.

## Model

| member | source | states |
|---|---|---|
| GpsMath.ValidCoords | gg/utils.py:127-131 | true iff both values are int or float, -90 <= lat <= 90 and -180 <= lon <= 180; None or any other type gives false, never an error |
| GpsMath.DmsToDecimal | gg/utils.py:104-110 | magnitude degrees + minutes/60 + seconds/3600, negated exactly when the sign's first character is S, W, s or w; an empty sign (IndexError) gives None |
| GpsMath.FloatToRational | gg/utils.py:122-125 | denominator in 1..99999, value within 1/99999 of abs(value), and exact when the value's own denominator is at most 99999 |
| Rationals.LimitDenominator | gg/utils.py:124 | `Fraction(x).limit_denominator(maxDen)`: denominator in 1..maxDen, error below 1/maxDen, exact when x already fits |
| Rationals.Normalize | gg/utils.py:124 | the Fraction in lowest terms: same value, positive denominator no larger, numerator and denominator share no factor above 1 |
| Rationals.Expand | gg/utils.py:124 | the continued-fraction loop of `limit_denominator`: from a valid loop state it returns a bound with denominator in 1..maxDen within 1/maxDen of n0/d0 |
| Rationals.NextState | gg/utils.py:124 | one more round of the loop, with the next partial quotient and remainder, keeps the loop state: adjacent convergents, both denominators within maxDen, and a positive remainder |
| Rationals.Settle | gg/utils.py:124 | the choice after the loop, between the last convergent and the best semiconvergent, has a denominator in 1..maxDen and lies within 1/maxDen of n0/d0 |
| Rationals.Gcd | gg/utils.py:124 | a common divisor of both numbers, positive unless both are 0 |
| Rationals.GcdGreatest | gg/utils.py:124 | every common divisor of a and b divides Gcd(a, b) |
| GpsMath.DecimalToDms | gg/utils.py:112-120 | whole degrees equal to the floor of abs(decimal); whole minutes equal to the floor of 60 times the fractional degree, so below 60; seconds with a denominator in 1..99999, within 1/99999 of 60 times what remains after those minutes; and the three converted back are within 1/(99999*3600) degrees of abs(decimal) |
| GpsMath.MinutesAndSeconds | gg/utils.py:114-119 | the second `modf` step: the minutes are the whole part of 60 times the fractional degree, and `float_to_rational` encodes 60 times the rest to within 1/99999 |
| GpsMath.DmsRoundTrip | gg/utils.py:104-125 | converting x to degrees/minutes/seconds and back with "S" for negative x ("N" otherwise) recovers x to within 1/(99999*3600) degrees |
| GpsMath.DecimalToDmsIgnoresSign | gg/utils.py:112-114 | x and -x give the same triple |
| GpsMath.SplitIsExact | gg/utils.py:114-115 | the two `modf` splits lose nothing: degrees + minutes/60 + remaining seconds/3600 is exactly the input, with minutes below 60 |
| Formatting.Present | gg/utils.py:139 | the kept names are non-empty, every present non-empty name is kept, and nothing else is |
| Formatting.PresentAppend | gg/utils.py:139 | filtering a concatenation is the concatenation of the filtered parts, so the original order is kept |
| Formatting.TotalLength | gg/utils.py:313 | `sum(len(name) for name in names if name)` over the kept names: 0 for none, the name's length for one |
| Formatting.TotalLengthAppend | gg/utils.py:313 | the total length of a concatenation of name lists is the sum of their totals |
| Formatting.Join | gg/utils.py:139 | `joiner.join(parts)`: empty for no parts, the part itself for one part |
| Formatting.JoinEnds | gg/utils.py:139 | a join of one part or more starts with the first part and ends with the last |
| Formatting.JoinLength | gg/utils.py:139 | a join holds every part plus one joiner between neighbours |
| Formatting.JoinAppend | gg/utils.py:139 | joining two non-empty lists puts one joiner between their joins |
| Formatting.FormatList | gg/utils.py:137-139 | empty exactly when no name is present; otherwise its length is the names' total length plus one joiner between each pair; a single present name comes back unchanged |
| Formatting.FormatListAppend | gg/utils.py:137-139 | formatting a concatenation is the two formatted lists separated by one joiner, or the one that has names |
| Formatting.FormatCoords | gg/utils.py:145-150 | "N" iff lat >= 0 (else "S"), then a space and the rendering of abs(lat), then ", ", then "E" iff lon >= 0 (else "W"), a space and the rendering of abs(lon) |
| Formatting.FormatCoordsMirror | gg/utils.py:145-150 | negating a positive latitude changes only the first letter to S; negating a positive longitude changes only its letter to W |
| Strings.Strip | gg/utils.py:297 | a contiguous piece of the input that neither starts nor ends with white space, everything cut away being white space; empty iff the input is all white space |
| Strings.StripIsIdempotent | gg/utils.py:297 | stripping twice is stripping once |
| Strings.Lower | gg/search.py:61 | same length, every ASCII capital replaced by its small letter, no capital left |
| Strings.Find | gg/search.py:68 | the lowest index where the substring occurs, or -1 exactly when it occurs nowhere |
| Geonames.Key | gg/utils.py:271 | the cache key `"%.2f,%.2f"`: the latitude's rendering, one comma, then the longitude's rendering |
| Geonames.KeySeparates | gg/utils.py:271 | when the latitude renderings hold no comma, two coordinates share a key exactly when both renderings agree |
| Geonames.Delta | gg/utils.py:280-285 | the distance the scan compares: the great-circle distance, or 0 where `acos` raised ValueError |
| Geonames.EntryOf | gg/utils.py:288 | the entry a gazetteer line gives: `[name, state, country, tz]` in that order |
| Geonames.NearestEntry | gg/utils.py:274-289 | None exactly for an empty gazetteer, otherwise the entry of a line whose distance is no larger than any other line's |
| Geonames.Nearest | gg/utils.py:274-288 | the scan's winner: None exactly for an empty gazetteer, otherwise an index of the gazetteer |
| Geonames.NearestIsFirstLeast | gg/utils.py:274-288 | the winner is no farther than any line and strictly closer than every earlier line (strict `<`: ties go to the first) |
| Geonames.DomainErrorWins | gg/utils.py:280-285 | a line whose distance raised ValueError counts as 0 km, so the winner is then at most 0 km away |
| Geonames.ScanNearest | gg/utils.py:274-288 | the loop keeps exactly the entry `[name, state, country, tz]` of the scan's winner, None for an empty gazetteer |
| Geonames.GeonameCache.constructor | gg/utils.py:255 | the shared dictionary starts empty |
| Geonames.Coordinates.constructor | gg/utils.py:244-255 | a new instance has every attribute None and uses the shared dictionary |
| Geonames.Coordinates.SetGeodata | gg/utils.py:292-298 | unpacking an entry sets city, country code, state and country names and the stripped time zone, which it returns; None raises TypeError and changes nothing |
| Geonames.Coordinates.LookupGeoname | gg/utils.py:266-290 | invalid coordinates change nothing; a cached key leaves the cache alone and applies its entry; a new key stores the scan's winner under that key only and applies it; a cache whose entries are each the winner for some coordinates with their key stays so |
| Geonames.Coordinates.PrettyGeoname | gg/utils.py:310-314 | empty iff no name is present; the ",\n" joiner is used iff the names' total length exceeds 35 and multiline is set (the choice only matters for two names or more); the length is the same with either joiner |
| Geonames.JoinerChoice | gg/utils.py:312-314 | formatting with the chosen joiner is empty iff no name is present, has the same length with either joiner, and equals the result for the other joiner only when at most one name is present |
| Geonames.JoinersDiffer | gg/utils.py:314 | with two names or more the two joiners give different strings, with at most one they give the same |
| Geonames.Coordinates.PrettyElevation | gg/utils.py:316-320 | None iff the altitude is not int or float; otherwise the rendering of abs(altitude) followed by "m above sea level" iff altitude >= 0, "m below sea level" iff below |
| Geonames.SharedLookup | gg/utils.py:266-273 | two instances sharing the cache whose coordinates have the same key get the same result and place names, with at most one new entry |
| Geonames.ParisLookup | gg/utils.py:266-298 | with the one-line gazetteer for Paris, a lookup at (48.86, 2.35) returns the time zone "Europe/Paris" without its line ending and sets the city Paris and country FR |
| XmlParser.FirstStart | gg/utils.py:360-364 | the root element is the first start event; None exactly when there is none |
| XmlParser.FirstStartAppend | gg/utils.py:360-364 | reading one more event changes the root only when there was none and the event is a start tag |
| XmlParser.FirstStartPrefix | gg/utils.py:360-364 | once a root has been read, later events do not change it |
| XmlParser.XmlSimpleParser.constructor | gg/utils.py:338-348 | a new parser awaits the root with an empty state and no element |
| XmlParser.XmlSimpleParser.ElementRoot | gg/utils.py:360-364 | accepts iff no root name is required or the name is the required one, and only then moves on to scanning; the root is never tracked |
| XmlParser.XmlSimpleParser.ElementStart | gg/utils.py:366-380 | while scanning, only a watched name is offered to call_start, and tracking starts iff it accepts; while tracking, the name gets an empty entry and the attributes are merged over the state |
| XmlParser.XmlSimpleParser.ElementData | gg/utils.py:382-389 | a chunk that is empty or white space only is dropped; any other is appended to the entry of the element started last |
| XmlParser.XmlSimpleParser.ElementEnd | gg/utils.py:391-400 | only the tracked name's end tag calls call_end, once, with the gathered state holding its entry, and then returns to scanning with an empty state |
| XmlParser.Step | gg/utils.py:360-400 | the reaction of the installed handler to one event: a wrong root is rejected with no call and no change; the parser leaves the root state exactly on an accepted start tag; no call is made before the root; at most one call per event |
| XmlParser.Run | gg/utils.py:350-400 | the events handled in order until malformed markup or a rejected root (IOError, no further calls); at most one call per event |
| XmlParser.RunOutcome | gg/utils.py:350-364 | a run from the root state completes iff no markup is malformed and the root is accepted; with a rejected root it makes no call |
| XmlParser.StepKeepsPairing | gg/utils.py:366-400 | a handled event keeps the calls consistent with the parser's state: tracking means the last call is the call_start that accepted the tracked name |
| XmlParser.RunWellPaired | gg/utils.py:350-400 | every run makes only well-paired calls: call_start sees only watched names, and each call_end follows the call_start that accepted it |
| XmlParser.XmlSimpleParser.Dispatch | gg/utils.py:347-400 | the new fields and the calls made are exactly those of Step on the old fields, and it rejects exactly when Step does |
| XmlParser.XmlSimpleParser.Parse | gg/utils.py:350-358 | the outcome, the calls and the final fields are exactly Run from the state before the call; a used parser fails with IOError and no call; completes iff the parser is unused, no markup is malformed and the root is accepted; the calls are well paired |
| XmlParser.TrackPointRun | gg/utils.py:350-400 | a GPX document with one `trkpt` (lat 1, lon 2) whose text starts with a digit calls call_start once and call_end once, with the point's attributes and that text under `trkpt` |
| XmlParser.TrackPointCallbacks | gg/utils.py:350-400 | parsing that document with the time "2021-01-01T00:00:00" completes with exactly those two calls, the call_end state being lat "1", lon "2" and `trkpt` "2021-01-01T00:00:00" |
| XmlParser.WellPairedAppendStart | gg/utils.py:368-375 | offering a watched name to call_start keeps the calls well paired |
| XmlParser.WellPairedAppendEnd | gg/utils.py:391-396 | a call_end right after the call_start that accepted the same element keeps the calls well paired |
| XmlParser.RootMismatchFailsBeforeCallbacks | gg/utils.py:350-364 | a GPX document read with a required `kml` root fails with IOError and makes no callback |
| Search.RowOf | gg/search.py:69-74 | the row keeps the line's coordinates, and its location is the city, state and country names that are present, joined by ", " |
| Search.LabelStartsWithCity | gg/search.py:70-72 | a label whose first part is a non-empty city starts with that city |
| Search.Collect | gg/search.py:66-74 | the rows appended by one scan: at most one per gazetteer line |
| Search.CollectAppend | gg/search.py:66-74 | scanning two parts of the file appends the rows of the first part, then those of the second: the rows come in file order |
| Search.MatchingRows | gg/search.py:66-74 | the rows one scan appends: at most one per gazetteer line, none for an empty file |
| Search.MatchingRowsAppend | gg/search.py:66-74 | scanning two parts of the file gives the rows of the first part then those of the second: file order |
| Search.MatchingRowsSound | gg/search.py:68-74 | every appended row is the row of a line whose lower-cased city contains the prefix |
| Search.MatchingRowsComplete | gg/search.py:68-74 | every line whose lower-cased city contains the prefix has its row appended |
| Search.RowLabelContains | gg/search.py:68-72 | when the lower-cased city contains a text, so does the lower-cased location of its row |
| Search.Prefixes.constructor | gg/search.py:51 | the persistent `searched` set starts empty |
| Search.SearchController.constructor | gg/search.py:34-37 | a new controller has no search text and no results |
| Search.SearchController.LoadResults | gg/search.py:51-74 | stores the lower-cased text; with at least three characters and a new prefix, adds the prefix and appends exactly the matching rows in file order; otherwise appends nothing and leaves the prefixes alone; the prefixes only grow |
| Search.SearchController.Matches | gg/search.py:40-43 | None (TypeError) before any text is typed; otherwise true iff the lower-cased location, or '' when missing, contains the search text |
| Search.CompletionAcceptsLoadedRows | gg/search.py:40-74 | after three letters typed for the first time, the loaded rows are exactly the matching rows and the completion accepts each of them |

## Left out

- GpsMath.FloatToRational: the bound is proved, but not that the result is the best approximation with a denominator of at most 99999.
- Rationals.LimitDenominator: same as GpsMath.FloatToRational. Optimality among all fractions with a bounded denominator is not proved.
- GpsMath.DecimalToDms: the arithmetic is exact. The rounding of the float product `remainder * 60` and of `modf` on floats is not modelled.
- GpsMath.DmsToDecimal: exact real arithmetic, without float rounding.
- The great-circle distance (`radians`, `sin`, `cos`, `acos`, the 6371 km radius) is a parameter. No property of the distances is assumed.
- Rendering with `%.1f`, `%.2f` and `%.5f` is a parameter. Two coordinates share a cache key exactly when their renderings agree.
- `gettext` translation of "N", "S", "E", "W" and the sea-level wording is taken as the identity.
- Reading `cities.txt` and the XML file is not modelled:
  - the files are given as already parsed records and events;
  - errors from opening them, from `split("\t")` on a malformed line and from `float()` are not modelled.
- The `territories` module (`get_state`, `get_country`) is not part of this model. They are parameters.
- Geonames.Coordinates.LookupGeoname: the source's `assert self.geodata is Coordinates.geodata` is replaced by the cache object that every instance is built with.
- XmlParser.XmlSimpleParser.Parse:
  - `call_start` is a pure function of its arguments;
  - `call_end` receives a snapshot of the state, not the dictionary that is cleared right after the call;
  - exceptions raised inside the callbacks are not modelled.
- XmlParser.XmlSimpleParser.ElementStart: element names are non-empty in XML, so `not self.tracking` is taken to mean that nothing is tracked.
- Expat's own work (tokenising, well-formedness checks, entity decoding) is represented only by the event sequence and its `MalformedMarkup` event.
- Strings.Strip with the Unicode white-space set follows Python 2.7's `unicode.isspace`. Byte strings strip and lower-case ASCII only.
- These parts of `gg/utils.py` are not modelled, because they are toolkit glue, depend on the clock or the system time zone, or have no behaviour to verify:
  - `GSettingsSetting` and `make_clutter_color`;
  - map sources and `Polygon`;
  - `pretty_time`, `pretty_coords` and `maps_link`;
  - `short_summary` and `long_summary`;
  - `Struct`.
- Of `gg/search.py`, only `load_results` and the completion's match function are modelled. Widget wiring and map navigation are not. `gg/label.py` is GUI code and is not part of this model.
