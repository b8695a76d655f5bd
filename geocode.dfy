/**
 * Reverse geocoding in src/hooks/useGPS.js (`getAddressFromCoords`): which
 * result of the geocoding service becomes the address text, the learned-place
 * substitution, and what the call leaves in `geocodingError`. The HTTP call
 * is not modelled: its outcome is a GeocodeReply given as input.
 */
module Geocode {
  import opened Wrappers
  import opened Geo
  import opened Arrays
  import opened Places

  /** One entry of the service's `results`. A missing `formatted_address` is "". */
  datatype GeoResult = GeoResult(formattedAddress: string, types: seq<string>)

  /** What a lookup can come back with. */
  datatype GeocodeReply =
    | MissingApiKey                                  // no API key configured: returns null at once
    | ConnectionFailed                               // fetch or JSON parsing threw
    | Response(status: string, results: seq<GeoResult>)

  /** The address object the hook keeps (`{formatted, lat, lon, timestamp}`). */
  datatype Address = Address(formatted: string, lat: real, lon: real, timestamp: int)

  /** What a lookup does to `geocodingError`. */
  datatype ErrorUpdate = KeepError | ClearError | SetError(message: string)

  datatype Resolution = Resolution(address: Option<Address>, error: ErrorUpdate)

  /** A specific place: not a plus code, and a street address, a route or an establishment. */
  predicate IsClean(r: GeoResult) {
    "plus_code" !in r.types
    && ("street_address" in r.types || "route" in r.types || "establishment" in r.types)
  }

  /** A neighbourhood or a locality. */
  predicate IsArea(r: GeoResult) {
    "neighborhood" in r.types || "locality" in r.types
  }

  /** k is the index of the first result satisfying p. */
  predicate FirstWith(results: seq<GeoResult>, k: int, p: GeoResult -> bool) {
    0 <= k < |results| && p(results[k]) && forall j :: 0 <= j < k ==> !p(results[j])
  }

  /** No result satisfying p comes first with a non-empty text. */
  predicate NoTextFrom(results: seq<GeoResult>, p: GeoResult -> bool) {
    forall k :: 0 <= k < |results| && FirstWith(results, k, p) ==> results[k].formattedAddress == ""
  }

  /**
   * `cleanResult?.formatted_address || neighborhoodResult?.formatted_address
   *  || results[0].formatted_address`.
   */
  function SelectAddressText(results: seq<GeoResult>): string
    requires |results| > 0
  {
    var clean := FindIndex(results, IsClean);
    var area := FindIndex(results, IsArea);
    if clean.Some? && results[clean.value].formattedAddress != "" then results[clean.value].formattedAddress
    else if area.Some? && results[area.value].formattedAddress != "" then results[area.value].formattedAddress
    else results[0].formattedAddress
  }

  /**
   * The text is that of the first specific result when it has one, else that
   * of the first neighbourhood or locality when it has one, else that of the
   * first result.
   */
  lemma SelectAddressTextSpec(results: seq<GeoResult>)
    requires |results| > 0
    ensures var t := SelectAddressText(results);
            && (forall k :: FirstWith(results, k, IsClean) && results[k].formattedAddress != ""
                  ==> t == results[k].formattedAddress)
            && (forall k :: NoTextFrom(results, IsClean) && FirstWith(results, k, IsArea)
                            && results[k].formattedAddress != ""
                  ==> t == results[k].formattedAddress)
            && (NoTextFrom(results, IsClean) && NoTextFrom(results, IsArea) ==> t == results[0].formattedAddress)
  {
  }

  /**
   * `getAddressFromCoords(lat, lon)` given the service's reply: the address
   * when the status is OK and there is a result, with a learned place's name
   * in place of the text when one lies within 0.05 mi; null otherwise.
   */
  function Resolve(h: Haversine, places: seq<Place>, reply: GeocodeReply, lat: real, lon: real, now: int): (r: Resolution)
    ensures r.address.Some? <==> reply.Response? && reply.status == "OK" && |reply.results| > 0
    ensures r.address.Some? ==> r.error == ClearError && r.address.value.lat == lat && r.address.value.lon == lon
    ensures r.address.Some? ==> r.address.value.formatted
                                == IdentifySavedPlace(h, places, lat, lon, SelectAddressText(reply.results))
    ensures reply.MissingApiKey? ==> r.error == KeepError
    ensures reply.ConnectionFailed? ==> r.error == SetError("Error de conexión")
    ensures reply.Response? && r.address.None? ==> r.error == SetError("Error Google: " + reply.status)
  {
    match reply
    case MissingApiKey => Resolution(None, KeepError)
    case ConnectionFailed => Resolution(None, SetError("Error de conexión"))
    case Response(status, results) =>
      if status == "OK" && |results| > 0 then
        var text := SelectAddressText(results);
        Resolution(Some(Address(IdentifySavedPlace(h, places, lat, lon, text), lat, lon, now)), ClearError)
      else
        Resolution(None, SetError("Error Google: " + status))
  }

  /** The text of a geocoded address is one of the service's texts or a learned place's name. */
  lemma ResolvedTextHasASource(h: Haversine, places: seq<Place>, reply: GeocodeReply, lat: real, lon: real, now: int)
    requires Resolve(h, places, reply, lat, lon, now).address.Some?
    ensures var t := Resolve(h, places, reply, lat, lon, now).address.value.formatted;
            (exists k :: 0 <= k < |reply.results| && t == reply.results[k].formattedAddress)
            || (exists k :: 0 <= k < |places| && t == places[k].name)
  {
    var results := reply.results;
    var clean := FindIndex(results, IsClean);
    var area := FindIndex(results, IsArea);
    var i := if clean.Some? && results[clean.value].formattedAddress != "" then clean.value
             else if area.Some? && results[area.value].formattedAddress != "" then area.value
             else 0;
    assert SelectAddressText(results) == results[i].formattedAddress;
    IdentifySavedPlaceSpec(h, places, lat, lon, SelectAddressText(results));
  }
}
