/**
 * The learned-places list of src/hooks/useGPS.js: `savePlace` (append with
 * de-duplication) and `identifySavedPlace` (radius lookup).
 */
module Places {
  import opened Wrappers
  import opened Text
  import opened Geo
  import opened Arrays

  /** Two entries with the same name closer than this are the same place (~20 m). */
  const DUPLICATE_RADIUS: real := 0.02
  /** A saved place this close names an address (~50 m). */
  const MATCH_RADIUS: real := 0.05

  datatype Place = Place(lat: real, lon: real, name: string)

  function At(p: Place): Coord {
    Coord(p.lat, p.lon)
  }

  /** The `some` test of `savePlace`: same trimmed name, under 0.02 mi away. */
  predicate IsDuplicate(h: Haversine, p: Place, lat: real, lon: real, name: string) {
    CalculateDistance(h, At(p), Coord(lat, lon)) < DUPLICATE_RADIUS && p.name == Trim(name)
  }

  predicate HasDuplicate(h: Haversine, places: seq<Place>, lat: real, lon: real, name: string) {
    exists k :: 0 <= k < |places| && IsDuplicate(h, places[k], lat, lon, name)
  }

  /**
   * The list `savePlace` leaves behind: unchanged for a blank name or a
   * duplicate, otherwise one entry `{lat, lon, name.trim()}` appended.
   */
  function WithPlace(h: Haversine, current: seq<Place>, lat: real, lon: real, name: string): (r: seq<Place>)
    ensures |current| <= |r| <= |current| + 1 && r[..|current|] == current
    ensures r != current <==> !IsBlank(name) && !HasDuplicate(h, current, lat, lon, name)
    ensures r != current ==> r[|current|] == Place(lat, lon, Trim(name))
  {
    if IsBlank(name) || HasDuplicate(h, current, lat, lon, name) then current
    else current + [Place(lat, lon, Trim(name))]
  }

  /** Saving the same place twice stores it once, when the distance from a point to itself is under 0.02 mi. */
  lemma SaveTwiceStoresOnce(h: Haversine, current: seq<Place>, lat: real, lon: real, name: string)
    requires CalculateDistance(h, Coord(lat, lon), Coord(lat, lon)) < DUPLICATE_RADIUS
    ensures WithPlace(h, WithPlace(h, current, lat, lon, name), lat, lon, name) == WithPlace(h, current, lat, lon, name)
  {
    var once := WithPlace(h, current, lat, lon, name);
    if once != current {
      TrimIdempotent(name);
      assert IsDuplicate(h, once[|current|], lat, lon, name);
    }
  }

  /** The saved place lies within 0.05 mi of (lat, lon). */
  predicate Near(h: Haversine, p: Place, lat: real, lon: real) {
    CalculateDistance(h, At(p), Coord(lat, lon)) <= MATCH_RADIUS
  }

  /** `identifySavedPlace`: the name of the place `find` returns, else the address given. */
  function IdentifySavedPlace(h: Haversine, places: seq<Place>, lat: real, lon: real, original: string): string
    decreases |places|
  {
    if places == [] then original
    else if Near(h, places[0], lat, lon) then places[0].name
    else IdentifySavedPlace(h, places[1..], lat, lon, original)
  }

  /**
   * The name given is that of the first saved place within 0.05 mi, or the
   * original address when no saved place is that close.
   */
  lemma {:induction false} IdentifySavedPlaceSpec(h: Haversine, places: seq<Place>, lat: real, lon: real, original: string)
    ensures (forall k :: 0 <= k < |places| ==> !Near(h, places[k], lat, lon))
            ==> IdentifySavedPlace(h, places, lat, lon, original) == original
    ensures forall k :: (0 <= k < |places| && Near(h, places[k], lat, lon)
                         && forall j :: 0 <= j < k ==> !Near(h, places[j], lat, lon))
                         ==> IdentifySavedPlace(h, places, lat, lon, original) == places[k].name
    ensures var r := IdentifySavedPlace(h, places, lat, lon, original);
            r == original || exists k :: 0 <= k < |places| && Near(h, places[k], lat, lon) && r == places[k].name
    decreases |places|
  {
    if places != [] && !Near(h, places[0], lat, lon) {
      var rest := places[1..];
      IdentifySavedPlaceSpec(h, rest, lat, lon, original);
      assert forall k :: 0 < k < |places| ==> places[k] == rest[k - 1];
    }
  }

  /**
   * A place just learned names every address within 0.05 mi of it that no
   * earlier entry was near.
   */
  lemma LookupAfterSave(h: Haversine, current: seq<Place>, lat: real, lon: real, name: string,
                        qlat: real, qlon: real, original: string)
    requires !IsBlank(name) && !HasDuplicate(h, current, lat, lon, name)
    requires forall k :: 0 <= k < |current| ==> CalculateDistance(h, At(current[k]), Coord(qlat, qlon)) > MATCH_RADIUS
    requires CalculateDistance(h, Coord(lat, lon), Coord(qlat, qlon)) <= MATCH_RADIUS
    ensures IdentifySavedPlace(h, WithPlace(h, current, lat, lon, name), qlat, qlon, original) == Trim(name)
  {
    var places := WithPlace(h, current, lat, lon, name);
    assert places == current + [Place(lat, lon, Trim(name))];
    assert places[|current|] == Place(lat, lon, Trim(name));
    IdentifySavedPlaceSpec(h, places, qlat, qlon, original);
  }
}
