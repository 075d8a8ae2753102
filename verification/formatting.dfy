/**
 * The string formatting functions of `gg/utils.py`: joining the names that
 * are present, and adding hemisphere letters to decimal coordinates.
 *
 * `%.5f` rendering of a float is not modelled; the functions that need it
 * take the renderer as a parameter.  Translation through `gettext` is taken
 * to be the identity.
 */
module Formatting {
  import opened Wrappers
  import Rationals

  /** The names that `if name` keeps: present (not None) and not empty. */
  function Present(items: seq<Option<string>>): (r: seq<string>)
    ensures |r| <= |items|
    ensures forall k :: 0 <= k < |r| ==> r[k] != ""
    ensures forall k :: 0 <= k < |items| && items[k].Some? && items[k].value != "" ==> items[k].value in r
    ensures forall s :: s in r ==> Some(s) in items
  {
    if items == [] then []
    else
      var rest := Present(items[1..]);
      assert forall k :: 1 <= k < |items| ==> items[k] == items[1..][k - 1];
      if items[0].Some? && items[0].value != "" then [items[0].value] + rest else rest
  }

  /** Keeping the present names of a concatenation keeps them in order. */
  lemma {:induction false} PresentAppend(a: seq<Option<string>>, b: seq<Option<string>>)
    ensures Present(a + b) == Present(a) + Present(b)
  {
    if a == [] {
      assert a + b == b;
    } else {
      assert (a + b)[0] == a[0];
      assert (a + b)[1..] == a[1..] + b;
      PresentAppend(a[1..], b);
    }
  }

  /** `joiner.join(parts)`: empty for no parts, the part itself for one. */
  function Join(parts: seq<string>, joiner: string): (r: string)
    ensures parts == [] ==> r == ""
    ensures |parts| == 1 ==> r == parts[0]
  {
    if |parts| == 0 then ""
    else if |parts| == 1 then parts[0]
    else parts[0] + joiner + Join(parts[1..], joiner)
  }

  /** A join starts with the first part and ends with the last. */
  lemma {:induction false} JoinEnds(parts: seq<string>, joiner: string)
    requires parts != []
    ensures var r, first, last := Join(parts, joiner), parts[0], parts[|parts| - 1];
            && |first| <= |r| && r[..|first|] == first
            && |last| <= |r| && r[|r| - |last|..] == last
  {
    if |parts| > 1 {
      JoinEnds(parts[1..], joiner);
    }
  }

  /**
   * `sum(len(name) for name in parts)`: no parts sum to 0, one part to its
   * length; with `TotalLengthAppend` this fixes the sum of any list.
   */
  function TotalLength(parts: seq<string>): (n: nat)
    ensures parts == [] ==> n == 0
    ensures |parts| == 1 ==> n == |parts[0]|
  {
    if parts == [] then 0 else |parts[0]| + TotalLength(parts[1..])
  }

  /** The total length of a concatenation is the sum of the two totals. */
  lemma {:induction false} TotalLengthAppend(a: seq<string>, b: seq<string>)
    ensures TotalLength(a + b) == TotalLength(a) + TotalLength(b)
  {
    if a == [] {
      assert a + b == b;
    } else {
      assert (a + b)[1..] == a[1..] + b;
      TotalLengthAppend(a[1..], b);
    }
  }

  /** The joined string holds every part and one joiner between neighbours. */
  lemma {:induction false} JoinLength(parts: seq<string>, joiner: string)
    requires |parts| >= 1
    ensures |Join(parts, joiner)| == TotalLength(parts) + (|parts| - 1) * |joiner|
  {
    if |parts| > 1 {
      JoinLength(parts[1..], joiner);
    }
  }

  /** Joining two non-empty lists puts one joiner between their joins. */
  lemma {:induction false} JoinAppend(a: seq<string>, b: seq<string>, joiner: string)
    requires a != [] && b != []
    ensures Join(a + b, joiner) == Join(a, joiner) + joiner + Join(b, joiner)
  {
    if |a| == 1 {
      assert (a + b)[1..] == b;
    } else {
      assert (a + b)[1..] == a[1..] + b;
      JoinAppend(a[1..], b, joiner);
    }
  }

  /**
   * `format_list(strings, joiner)`: the names that are present, in their
   * original order, separated by `joiner`.
   */
  function FormatList(items: seq<Option<string>>, joiner: string): (r: string)
    ensures r == "" <==> Present(items) == []
    ensures Present(items) != [] ==>
              |r| == TotalLength(Present(items)) + (|Present(items)| - 1) * |joiner|
    ensures |Present(items)| == 1 ==> r == Present(items)[0]
  {
    var parts := Present(items);
    if parts == [] then ""
    else
      JoinLength(parts, joiner);
      assert |parts[0]| > 0;
      Join(parts, joiner)
  }

  /**
   * Formatting a concatenation: the two formatted lists with one joiner in
   * between when both have names, otherwise the one that has them.
   */
  lemma {:induction false} FormatListAppend(a: seq<Option<string>>, b: seq<Option<string>>, joiner: string)
    ensures Present(a) != [] && Present(b) != [] ==>
              FormatList(a + b, joiner) == FormatList(a, joiner) + joiner + FormatList(b, joiner)
    ensures Present(b) == [] ==> FormatList(a + b, joiner) == FormatList(a, joiner)
    ensures Present(a) == [] ==> FormatList(a + b, joiner) == FormatList(b, joiner)
  {
    PresentAppend(a, b);
    if Present(a) != [] && Present(b) != [] {
      JoinAppend(Present(a), Present(b), joiner);
    } else if Present(b) == [] {
      assert Present(a) + Present(b) == Present(a);
    } else {
      assert Present(a) + Present(b) == Present(b);
    }
  }

  function Hemisphere(x: real, positive: char, negative: char): char
  {
    if x >= 0.0 then positive else negative
  }

  /**
   * `format_coords(lat, lon)`: "%s %.5f, %s %.5f" with N for a latitude
   * >= 0 (S otherwise) and E for a longitude >= 0 (W otherwise), each
   * followed by the absolute value as `fixed5` renders it.
   */
  function FormatCoords(lat: real, lon: real, fixed5: real -> string): (r: string)
    ensures var latText, lonText := fixed5(Rationals.AbsReal(lat)), fixed5(Rationals.AbsReal(lon));
            && |r| == |latText| + |lonText| + 6
            && (r[0] == 'N' <==> lat >= 0.0) && (r[0] == 'S' <==> lat < 0.0)
            && r[1] == ' ' && r[2..2 + |latText|] == latText
            && r[2 + |latText|..4 + |latText|] == ", "
            && (r[4 + |latText|] == 'E' <==> lon >= 0.0) && (r[4 + |latText|] == 'W' <==> lon < 0.0)
            && r[5 + |latText|] == ' ' && r[6 + |latText|..] == lonText
  {
    [Hemisphere(lat, 'N', 'S')] + " " + fixed5(Rationals.AbsReal(lat)) + ", "
      + [Hemisphere(lon, 'E', 'W')] + " " + fixed5(Rationals.AbsReal(lon))
  }

  /**
   * Mirroring a latitude across the equator changes only the hemisphere
   * letter; likewise for a longitude across the prime meridian.
   */
  lemma {:induction false} FormatCoordsMirror(lat: real, lon: real, fixed5: real -> string)
    requires lat > 0.0 && lon > 0.0
    ensures FormatCoords(-lat, lon, fixed5) == ['S'] + FormatCoords(lat, lon, fixed5)[1..]
    ensures var r, n := FormatCoords(lat, -lon, fixed5), |fixed5(Rationals.AbsReal(lat))| + 4;
            r == FormatCoords(lat, lon, fixed5)[..n] + ['W'] + FormatCoords(lat, lon, fixed5)[n + 1..]
  {
    var r := FormatCoords(lat, lon, fixed5);
    var s := FormatCoords(-lat, lon, fixed5);
    var w := FormatCoords(lat, -lon, fixed5);
    var n := |fixed5(lat)| + 4;
    assert Rationals.AbsReal(-lat) == lat && Rationals.AbsReal(-lon) == lon;
    assert s == ['S'] + r[1..];
    assert w == r[..n] + ['W'] + r[n + 1..];
  }
}
