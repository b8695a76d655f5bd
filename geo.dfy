/**
 * Great-circle distance (src/utils/math.js). The haversine formula itself is
 * trigonometry on doubles and is not modelled: it is a parameter `h` of type
 * Haversine, any function that gives a non-negative number of miles. What is
 * modelled is the guard in front of it, which answers 0 whenever one of the
 * four coordinates is 0 (JavaScript's `!lat1 || !lon1 || !lat2 || !lon2`).
 */
module Geo {

  /** A non-negative distance in miles. */
  type Miles = r: real | 0.0 <= r

  datatype Coord = Coord(lat: real, lon: real)

  /** The haversine formula with Earth radius 3958.8 mi, taken as given. */
  type Haversine = (Coord, Coord) -> Miles

  /** A coordinate the guard treats as missing. */
  predicate HasZero(c: Coord) {
    c.lat == 0.0 || c.lon == 0.0
  }

  /** `calculateDistance(a.lat, a.lon, b.lat, b.lon)`. */
  function CalculateDistance(h: Haversine, a: Coord, b: Coord): (d: Miles)
    ensures HasZero(a) || HasZero(b) ==> d == 0.0
    ensures !HasZero(a) && !HasZero(b) ==> d == h(a, b)
  {
    if HasZero(a) || HasZero(b) then 0.0 else h(a, b)
  }
}
