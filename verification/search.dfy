/**
 * `SearchController` from `gg/search.py`: as the user types, the gazetteer
 * lines whose city contains the first three letters typed are appended to
 * the completion's list of results, once per three-letter prefix; the
 * completion then shows the rows whose label contains the whole text typed.
 *
 * Reading `cities.txt` becomes a sequence of `CityLine` records and the
 * ListStore a sequence of rows.  The `territories` look-ups are parameters.
 */
module Search {
  import opened Wrappers
  import opened Strings
  import opened Gazetteer
  import Formatting

  /** A row of the results ListStore: LOCATION, LATITUDE, LONGITUDE. */
  datatype Row = Row(location: string, lat: real, lon: real)

  /** The row appended for a gazetteer line: "city, state, country" without missing parts. */
  function RowOf(line: CityLine, getState: (string, string) -> Option<string>,
                 getCountry: string -> Option<string>): (r: Row)
    ensures r.lat == line.lat && r.lon == line.lon
    ensures r.location
            == Formatting.FormatList([Some(line.name), getState(line.country, line.state), getCountry(line.country)], ", ")
    ensures line.name != [] ==> |r.location| >= |line.name| && r.location[..|line.name|] == line.name
  {
    var names := [Some(line.name), getState(line.country, line.state), getCountry(line.country)];
    var location := Formatting.FormatList(names, ", ");
    assert line.name != [] ==> |location| >= |line.name| && location[..|line.name|] == line.name by {
      if line.name != [] {
        LabelStartsWithCity(names, line.name);
      }
    }
    Row(location, line.lat, line.lon)
  }

  lemma LabelStartsWithCity(names: seq<Option<string>>, city: string)
    requires names != [] && names[0] == Some(city) && city != []
    ensures |Formatting.FormatList(names, ", ")| >= |city|
    ensures Formatting.FormatList(names, ", ")[..|city|] == city
  {
    var parts := Formatting.Present(names);
    assert parts[0] == city;
    var rest := Formatting.Present(names[1..]);
    assert names == [names[0]] + names[1..];
    if rest == [] {
      assert parts == [city];
    } else {
      assert Formatting.Join(parts, ", ") == city + ", " + Formatting.Join(parts[1..], ", ");
    }
  }

  /** The line's city, lower-cased, contains `three`. */
  predicate CityMatches(line: CityLine, three: string)
  {
    Contains(Lower(line.name), three)
  }

  /**
   * The rows a scan of `cities` appends: the row of every line that `keep`
   * accepts, in file order.
   */
  function Collect(cities: seq<CityLine>, keep: CityLine -> bool, rowOf: CityLine -> Row): (rows: seq<Row>)
    ensures |rows| <= |cities|
  {
    if cities == [] then []
    else
      var last := |cities| - 1;
      Collect(cities[..last], keep, rowOf) + if keep(cities[last]) then [rowOf(cities[last])] else []
  }

  /** Scanning two parts of the file appends the rows of the first part, then those of the second. */
  lemma {:induction false} CollectAppend(a: seq<CityLine>, b: seq<CityLine>, keep: CityLine -> bool,
                                         rowOf: CityLine -> Row)
    ensures Collect(a + b, keep, rowOf) == Collect(a, keep, rowOf) + Collect(b, keep, rowOf)
  {
    if b == [] {
      assert a + b == a;
    } else {
      var last := |b| - 1;
      var ab := a + b;
      assert ab[..|ab| - 1] == a + b[..last];
      assert ab[|ab| - 1] == b[last];
      CollectAppend(a, b[..last], keep, rowOf);
    }
  }

  /** Every collected row is the row of an accepted line. */
  lemma {:induction false} CollectSound(cities: seq<CityLine>, keep: CityLine -> bool, rowOf: CityLine -> Row,
                                        row: Row)
    requires row in Collect(cities, keep, rowOf)
    ensures exists k :: 0 <= k < |cities| && keep(cities[k]) && row == rowOf(cities[k])
  {
    var last := |cities| - 1;
    var prefix := cities[..last];
    if row in Collect(prefix, keep, rowOf) {
      CollectSound(prefix, keep, rowOf, row);
      var k :| 0 <= k < |prefix| && keep(prefix[k]) && row == rowOf(prefix[k]);
      assert prefix[k] == cities[k];
    } else {
      assert keep(cities[last]) && row == rowOf(cities[last]);
    }
  }

  /** The row of every accepted line is collected. */
  lemma {:induction false} CollectComplete(cities: seq<CityLine>, keep: CityLine -> bool, rowOf: CityLine -> Row,
                                           k: nat)
    requires k < |cities| && keep(cities[k])
    ensures rowOf(cities[k]) in Collect(cities, keep, rowOf)
  {
    var last := |cities| - 1;
    var prefix := cities[..last];
    if k < last {
      assert prefix[k] == cities[k];
      CollectComplete(prefix, keep, rowOf, k);
    }
  }

  /** The search's line filter: the lower-cased city contains `three`. */
  function Matcher(three: string): CityLine -> bool
  {
    line => CityMatches(line, three)
  }

  /** The search's row builder. */
  function Labeller(getState: (string, string) -> Option<string>,
                    getCountry: string -> Option<string>): CityLine -> Row
  {
    line => RowOf(line, getState, getCountry)
  }

  /** The rows `load_results` appends for the prefix `three`, in file order. */
  function MatchingRows(cities: seq<CityLine>, three: string,
                        getState: (string, string) -> Option<string>,
                        getCountry: string -> Option<string>): (rows: seq<Row>)
    ensures |rows| <= |cities|
    ensures cities == [] ==> rows == []
  {
    Collect(cities, Matcher(three), Labeller(getState, getCountry))
  }

  /** Scanning the file in two parts appends the first part's rows, then the second's. */
  lemma MatchingRowsAppend(a: seq<CityLine>, b: seq<CityLine>, three: string,
                           getState: (string, string) -> Option<string>,
                           getCountry: string -> Option<string>)
    ensures MatchingRows(a + b, three, getState, getCountry)
         == MatchingRows(a, three, getState, getCountry) + MatchingRows(b, three, getState, getCountry)
  {
    CollectAppend(a, b, Matcher(three), Labeller(getState, getCountry));
  }

  /** Every appended row is the row of a line whose lower-cased city contains the prefix. */
  lemma MatchingRowsSound(cities: seq<CityLine>, three: string,
                          getState: (string, string) -> Option<string>,
                          getCountry: string -> Option<string>, row: Row)
    requires row in MatchingRows(cities, three, getState, getCountry)
    ensures exists k :: 0 <= k < |cities| && CityMatches(cities[k], three)
                        && row == RowOf(cities[k], getState, getCountry)
  {
    CollectSound(cities, Matcher(three), Labeller(getState, getCountry), row);
    var k :| 0 <= k < |cities| && Matcher(three)(cities[k]) && row == Labeller(getState, getCountry)(cities[k]);
  }

  /** Every line whose lower-cased city contains the prefix has its row appended. */
  lemma MatchingRowsComplete(cities: seq<CityLine>, three: string,
                             getState: (string, string) -> Option<string>,
                             getCountry: string -> Option<string>, k: nat)
    requires k < |cities| && CityMatches(cities[k], three)
    ensures RowOf(cities[k], getState, getCountry) in MatchingRows(cities, three, getState, getCountry)
  {
    CollectComplete(cities, Matcher(three), Labeller(getState, getCountry), k);
  }

  /** A row whose city contains `sub` has a lower-cased label that contains it too. */
  lemma RowLabelContains(line: CityLine, sub: string,
                         getState: (string, string) -> Option<string>,
                         getCountry: string -> Option<string>)
    requires Contains(Lower(line.name), sub) && sub != []
    ensures Contains(Lower(RowOf(line, getState, getCountry).location), sub)
  {
    var i: nat := Find(Lower(line.name), sub);
    assert |line.name| > 0;
    OccursInExtension(line.name, RowOf(line, getState, getCountry).location, sub, i);
  }

  /** `location or ''`. */
  function OrEmpty(location: Option<string>): string
  {
    if location.Some? then location.value else ""
  }

  /** The `searched` default argument of `load_results`: it outlives every call. */
  class Prefixes {
    var seen: set<string>

    constructor ()
      ensures seen == {}
    {
      seen := {};
    }
  }

  class SearchController {
    var search: Option<string>
    var results: seq<Row>
    const searched: Prefixes

    constructor (searched: Prefixes)
      ensures this.searched == searched && search.None? && results == []
    {
      this.searched := searched;
      search, results := None, [];
    }

    /**
     * `load_results(entry, append)`: remember the lower-cased text; when it
     * has at least three characters and its first three were never searched
     * before, record them and append the row of every gazetteer line whose
     * lower-cased city contains them, in file order.
     */
    method LoadResults(text: string, cities: seq<CityLine>,
                       getState: (string, string) -> Option<string>,
                       getCountry: string -> Option<string>)
      modifies this`search, this`results, searched
      ensures search == Some(Lower(text))
      ensures var three := Lower(text)[..if |text| < 3 then |text| else 3];
              if |text| >= 3 && three !in old(searched.seen) then
                && searched.seen == old(searched.seen) + {three}
                && results == old(results) + MatchingRows(cities, three, getState, getCountry)
              else
                searched.seen == old(searched.seen) && results == old(results)
      ensures old(searched.seen) <= searched.seen
    {
      search := Some(Lower(text));
      var lowered := Lower(text);
      var three := lowered[..if |lowered| < 3 then |lowered| else 3];
      if |three| == 3 && three !in searched.seen {
        searched.seen := searched.seen + {three};
        var i := 0;
        while i < |cities|
          invariant 0 <= i <= |cities|
          invariant results == old(results) + MatchingRows(cities[..i], three, getState, getCountry)
          invariant searched.seen == old(searched.seen) + {three} && search == Some(lowered)
        {
          var line := cities[i];
          assert cities[..i + 1][..i] == cities[..i];
          assert Collect(cities[..i + 1], Matcher(three), Labeller(getState, getCountry))
              == Collect(cities[..i], Matcher(three), Labeller(getState, getCountry))
                 + if CityMatches(line, three) then [RowOf(line, getState, getCountry)] else [];
          if Find(Lower(line.name), three) > -1 {
            var location := Formatting.FormatList(
              [Some(line.name), getState(line.country, line.state), getCountry(line.country)], ", ");
            assert Row(location, line.lat, line.lon) == RowOf(line, getState, getCountry);
            results := results + [Row(location, line.lat, line.lon)];
          }
          i := i + 1;
        }
        assert cities[..i] == cities;
      }
    }

    /**
     * The completion's match function: the row's location, lower-cased
     * (`''` when missing), contains the remembered text.  Before any text
     * was typed the remembered text is None and `find(None)` raises
     * TypeError, which is `None` here.
     */
    function Matches(location: Option<string>): (r: Option<bool>)
      reads this
      ensures r.None? <==> search.None?
      ensures r.Some? ==> (r.value <==> exists i: nat :: OccursAt(Lower(OrEmpty(location)), search.value, i))
    {
      if search.None? then None
      else Some(Contains(Lower(OrEmpty(location)), search.value))
    }
  }

  /**
   * After three letters are typed for the first time, the completion
   * accepts every row just loaded: each label contains those letters.
   */
  method CompletionAcceptsLoadedRows(c: SearchController, text: string, cities: seq<CityLine>,
                                     getState: (string, string) -> Option<string>,
                                     getCountry: string -> Option<string>)
    returns (loaded: seq<Row>)
    requires |text| == 3 && Lower(text) !in c.searched.seen
    modifies c, c.searched
    ensures loaded == MatchingRows(cities, Lower(text), getState, getCountry)
    ensures forall row :: row in loaded ==> c.Matches(Some(row.location)) == Some(true)
  {
    var before := c.results;
    c.LoadResults(text, cities, getState, getCountry);
    assert Lower(text)[..3] == Lower(text);
    loaded := c.results[|before|..];
    assert loaded == MatchingRows(cities, Lower(text), getState, getCountry);
    forall row | row in loaded
      ensures c.Matches(Some(row.location)) == Some(true)
    {
      MatchingRowsSound(cities, Lower(text), getState, getCountry, row);
      var k :| 0 <= k < |cities| && CityMatches(cities[k], Lower(text))
               && row == RowOf(cities[k], getState, getCountry);
      RowLabelContains(cities[k], Lower(text), getState, getCountry);
    }
  }
}
