/**
 * The trip recorder of src/hooks/useGPS.js: the refs the location watcher
 * updates, the React state it publishes, the trip snapshot it keeps in
 * device storage and the learned places. Every hook operation is a method of
 * TripRecorder; the plugin, the storage and the geocoder are not modelled,
 * their outcomes are method parameters (`granted`, `writeOk`, `reply`, ...),
 * and an asynchronous operation is taken to run to completion before the next
 * one starts.
 */
module Gps {
  import opened Wrappers
  import opened Geo
  import opened Places
  import opened Geocode
  import opened Accumulator

  /** What `stopTrip` hands back. */
  datatype TripResult = TripResult(
    miles: real,
    path: seq<Point>,
    tripType: string,
    startAddress: Option<Address>,
    endAddress: Option<Address>)

  /** `geocodingError` after a lookup. */
  function ErrorAfter(e: ErrorUpdate, current: Option<string>): (r: Option<string>)
    ensures e.KeepError? ==> r == current
    ensures e.ClearError? ==> r == None
    ensures e.SetError? ==> r == Some(e.message)
  {
    match e
    case KeepError => current
    case ClearError => None
    case SetError(m) => Some(m)
  }

  /** The fields the watcher callback touches besides the refs of Refs. */
  datatype Session = Session(
    quality: Quality,
    wasGpsUsed: bool,
    hasGeocodedStart: bool,
    geocodingError: Option<string>,
    startAddress: Option<Address>)

  /**
   * What the callback does outside the refs for a fix it decided on: grade
   * the accuracy, mark GPS as used on a step, and on an anchor set the flag
   * that lets the start address be asked for once per trip.
   */
  function FixSession(s: Session, decision: Decision, fix: Fix): (r: Session)
  {
    s.(quality := Classify(AccuracyOf(fix)),
       wasGpsUsed := s.wasGpsUsed || decision.Step?,
       hasGeocodedStart := s.hasGeocodedStart || decision.Anchor?)
  }

  /** The callback asks for the start address on an anchor while none has been asked for. */
  predicate RequestsStart(s: Session, decision: Decision) {
    decision.Anchor? && !s.hasGeocodedStart
  }

  /** Once the start address has been asked for, no later fix asks again. */
  lemma StartRequestedOnce(s: Session, d: Decision, fix: Fix, later: seq<(Decision, Fix)>)
    requires RequestsStart(s, d)
    ensures !RequestsStart(AfterAll(FixSession(s, d, fix), later), d)
    ensures forall i :: 0 <= i < |later| ==> !RequestsStart(AfterAll(FixSession(s, d, fix), later[..i]), later[i].0)
  {
    AfterAllKeepsFlag(FixSession(s, d, fix), later);
  }

  /** The session after a run of decided fixes. */
  function AfterAll(s: Session, steps: seq<(Decision, Fix)>): Session
    decreases |steps|
  {
    if steps == [] then s else AfterAll(FixSession(s, steps[0].0, steps[0].1), steps[1..])
  }

  lemma {:induction false} AfterAllKeepsFlag(s: Session, steps: seq<(Decision, Fix)>)
    requires s.hasGeocodedStart
    ensures AfterAll(s, steps).hasGeocodedStart
    ensures forall i :: 0 <= i <= |steps| ==> AfterAll(s, steps[..i]).hasGeocodedStart
    decreases |steps|
  {
    if steps != [] {
      var next := FixSession(s, steps[0].0, steps[0].1);
      AfterAllKeepsFlag(next, steps[1..]);
      forall i | 0 < i <= |steps|
        ensures AfterAll(s, steps[..i]).hasGeocodedStart
      {
        assert steps[..i][1..] == steps[1..][..i - 1];
      }
      assert steps[..0] == [];
    }
  }

  class TripRecorder {
    /** The haversine formula the distance guard calls. */
    const haversine: Haversine

    // React state
    var isTracking: bool
    var gpsQuality: Quality
    var wasGpsUsed: bool
    var startAddress: Option<Address>
    var endAddress: Option<Address>
    var geocodingError: Option<string>
    var savedPlaces: seq<Place>

    // refs
    var watcherId: Option<nat>
    var lastCoords: Option<Point>
    var path: seq<Point>
    var miles: real
    var tripType: string
    var unsaved: real
    var hasGeocodedStart: bool

    // device storage
    var storedTrip: Option<Snapshot>          // 'current_trip_state_v1'
    var storedPlaces: seq<Place>              // 'SAVED_PLACES_V1' ([] when absent)

    /** The refs the watcher callback works on, with the stored trip. */
    function State(): Refs
      reads this`path, this`miles, this`lastCoords, this`unsaved, this`tripType, this`storedTrip
    {
      Refs(path, miles, lastCoords, unsaved, tripType, storedTrip)
    }

    /** The callback's other fields. */
    function Current(): Session
      reads this`gpsQuality, this`wasGpsUsed, this`hasGeocodedStart, this`geocodingError, this`startAddress
    {
      Session(gpsQuality, wasGpsUsed, hasGeocodedStart, geocodingError, startAddress)
    }

    /**
     * Storage lags the refs as Lagging says, and memory holds the stored
     * places plus at most one whose write failed.
     */
    ghost predicate Valid()
      reads this`path, this`miles, this`lastCoords, this`unsaved, this`tripType, this`storedTrip
      reads this`storedPlaces, this`savedPlaces
    {
      Lagging(State()) && PlacesValid()
    }

    /** Memory holds the stored places plus at most one whose write failed. */
    ghost predicate PlacesValid()
      reads this`storedPlaces, this`savedPlaces
    {
      storedPlaces <= savedPlaces && |savedPlaces| <= |storedPlaces| + 1
    }

    /** The hook mounting: load the learned places, then resume a trip found in storage. */
    constructor (h: Haversine, placesValue: Option<seq<Place>>, tripValue: Option<Snapshot>,
                 checkGranted: bool, requestGranted: bool, newId: nat)
      ensures Valid()
      ensures haversine == h
      ensures savedPlaces == storedPlaces == placesValue.GetOr([])
      ensures storedTrip == tripValue
      ensures tripValue.Some? && tripValue.value.isTracking ==>
                miles == tripValue.value.miles && path == tripValue.value.path
                && tripType == tripValue.value.tripType && unsaved == 0.0
                && isTracking == (checkGranted || requestGranted)
                && wasGpsUsed == hasGeocodedStart == (tripValue.value.path != [])
                && lastCoords == Last(tripValue.value.path)
                && watcherId == (if checkGranted || requestGranted then Some(newId) else None)
    ensures startAddress.None? && endAddress.None? && geocodingError.None? && gpsQuality == Good
      ensures !(tripValue.Some? && tripValue.value.isTracking) ==>
                !isTracking && miles == 0.0 && path == [] && tripType == "trabajo" && watcherId.None?
    {
      haversine := h;
      isTracking := false;
      gpsQuality := Good;
      wasGpsUsed := false;
      startAddress := None;
      endAddress := None;
      geocodingError := None;
      savedPlaces := placesValue.GetOr([]);
      watcherId := None;
      lastCoords := None;
      path := [];
      miles := 0.0;
      tripType := "trabajo";
      unsaved := 0.0;
      hasGeocodedStart := false;
      storedTrip := tripValue;
      storedPlaces := placesValue.GetOr([]);
      new;
      if tripValue.Some? && tripValue.value.isTracking {
        var saved := tripValue.value;
        StartWatcher(saved.miles, saved.path, saved.tripType, checkGranted, requestGranted, newId);
      }
    }

    /**
     * `_startWatcher`: load the refs, then ask for permission; when it is
     * granted, replace any watcher by a new one and start tracking, otherwise
     * stop tracking (the refs stay loaded).
     */
    method StartWatcher(initialMiles: real, initialPath: seq<Point>, initialType: string,
                        checkGranted: bool, requestGranted: bool, newId: nat)
      requires initialPath != [] || lastCoords.None?
      modifies this`miles, this`unsaved, this`path, this`tripType, this`hasGeocodedStart
      modifies this`lastCoords, this`wasGpsUsed, this`isTracking, this`watcherId
      ensures miles == initialMiles && path == initialPath && tripType == initialType && unsaved == 0.0
      ensures lastCoords == Last(initialPath)
      ensures hasGeocodedStart == (initialPath != [])
      ensures wasGpsUsed == (old(wasGpsUsed) || initialPath != [])
      ensures isTracking == (checkGranted || requestGranted)
      ensures watcherId == if checkGranted || requestGranted then Some(newId) else old(watcherId)
    {
      miles := initialMiles;
      unsaved := 0.0;
      path := initialPath;
      tripType := initialType;
      hasGeocodedStart := false;
      if initialPath != [] {
        lastCoords := Some(initialPath[|initialPath| - 1]);
        wasGpsUsed := true;
        hasGeocodedStart := true;
      }
      if checkGranted || requestGranted {
        isTracking := true;
        watcherId := Some(newId);
      } else {
        isTracking := false;
      }
    }

    /** `saveToDisk`: on a successful write the snapshot is the refs and nothing is unsaved. */
    method Flush(ok: bool, now: int)
      requires Valid()
      modifies this`storedTrip, this`unsaved
      ensures Valid()
      ensures State() == Flushed(old(State()), ok, now)
    {
      if ok {
        storedTrip := Some(Snapshot(true, miles, path, lastCoords, tripType, now));
        unsaved := 0.0;
      }
    }

    /** Appends a point to the path, adding the leg from the previous point (0 for the first). */
    method AddPoint(point: Point, d: Miles)
      requires Valid()
      requires lastCoords.None? ==> d == 0.0
      requires lastCoords.Some? ==> d == Leg(haversine, lastCoords.value, point)
      modifies this`path, this`miles, this`unsaved, this`lastCoords
      ensures Valid()
      ensures path == old(path) + [point] && lastCoords == Some(point)
      ensures miles == old(miles) + d && unsaved == old(unsaved) + d
    {
      miles := miles + d;
      unsaved := unsaved + d;
      lastCoords := Some(point);
      path := path + [point];
    }

    /** The start-address request completing: the address, if one comes back, becomes `startAddress`. */
    method LookUpStart(lat: real, lon: real, reply: GeocodeReply, now: int)
      modifies this`geocodingError, this`startAddress
      ensures var res := Resolve(haversine, savedPlaces, reply, lat, lon, now);
              && geocodingError == ErrorAfter(res.error, old(geocodingError))
              && startAddress == (if res.address.Some? then res.address else old(startAddress))
    {
      var res := Resolve(haversine, savedPlaces, reply, lat, lon, now);
      geocodingError := ErrorAfter(res.error, geocodingError);
      if res.address.Some? {
        startAddress := res.address;
      }
    }

    /**
     * The part of the watcher callback that works on the refs: an anchor or a
     * step appends the fix to the path, a step adds its leg to the miles, and a
     * snapshot is written on an anchor and whenever the unsaved miles reach 0.03.
     */
    method Record(fix: Fix, flushOk: bool, now: int) returns (decision: Decision)
      requires Valid()
      modifies this`path, this`miles, this`unsaved, this`lastCoords, this`storedTrip
      ensures Valid()
      ensures decision == Decide(haversine, old(lastCoords), fix)
      ensures State() == Callback(haversine, old(State()), fix, flushOk, now)
    {
      decision := Decide(haversine, lastCoords, fix);
      match decision {
        case Anchor =>
          AddPoint(PointOf(fix), 0.0);
          Flush(flushOk, now);
        case Step(d) =>
          AddPoint(PointOf(fix), d);
          if unsaved >= SAVE_THRESHOLD {
            Flush(flushOk, now);
          }
        case _ =>
      }
    }

    /**
     * The watcher callback for one fix: grade the accuracy, record the fix
     * (see Record), mark GPS as used on a step, and on the first anchor of a
     * trip ask for the start address. The request is asynchronous: `lookedUp`
     * says it was made, and LookUpStart is its completion.
     */
    method OnFix(fix: Fix, flushOk: bool, now: int) returns (decision: Decision, lookedUp: bool)
      requires Valid()
      modifies this`gpsQuality, this`path, this`miles, this`unsaved, this`lastCoords, this`wasGpsUsed
      modifies this`storedTrip, this`hasGeocodedStart
      ensures Valid()
      ensures decision == Decide(haversine, old(lastCoords), fix)
      ensures State() == Callback(haversine, old(State()), fix, flushOk, now)
      ensures Current() == FixSession(old(Current()), decision, fix)
      ensures lookedUp == RequestsStart(old(Current()), decision)
    {
      ghost var before := Current();
      gpsQuality := Classify(AccuracyOf(fix));
      decision := Record(fix, flushOk, now);
      assert Current() == before.(quality := Classify(AccuracyOf(fix)));
      lookedUp := MarkProgress(decision);
    }

    /** The callback's last steps: a step marks GPS as used, a first anchor asks for the start address. */
    method MarkProgress(decision: Decision) returns (lookedUp: bool)
      modifies this`wasGpsUsed, this`hasGeocodedStart
      ensures Current() == old(Current()).(wasGpsUsed := old(wasGpsUsed) || decision.Step?,
                                           hasGeocodedStart := old(hasGeocodedStart) || decision.Anchor?)
      ensures lookedUp == (decision.Anchor? && !old(hasGeocodedStart))
    {
      if decision.Step? {
        wasGpsUsed := true;
      }
      lookedUp := false;
      if decision.Anchor? && !hasGeocodedStart {
        hasGeocodedStart := true;
        lookedUp := true;
      }
    }

    /** The watcher's error callback: only NOT_AUTHORIZED changes anything. */
    method OnLocationError(code: string)
      modifies this`gpsQuality
      ensures gpsQuality == if code == "NOT_AUTHORIZED" then Poor else old(gpsQuality)
    {
      if code == "NOT_AUTHORIZED" {
        gpsQuality := Poor;
      }
    }

    /** `startTrip`: clear storage and the addresses, then start a watcher from zero miles. */
    method StartTrip(checkGranted: bool, requestGranted: bool, newId: nat)
      requires Valid()
      modifies this`storedTrip, this`wasGpsUsed, this`lastCoords, this`startAddress, this`endAddress
      modifies this`geocodingError, this`hasGeocodedStart, this`miles, this`unsaved, this`path
      modifies this`tripType, this`isTracking, this`watcherId
      ensures Valid()
      ensures storedTrip.None?
      ensures miles == 0.0 && path == [] && lastCoords.None? && unsaved == 0.0 && tripType == old(tripType)
      ensures !wasGpsUsed && !hasGeocodedStart
      ensures startAddress.None? && endAddress.None? && geocodingError.None?
      ensures isTracking == (checkGranted || requestGranted)
      ensures watcherId == if checkGranted || requestGranted then Some(newId) else old(watcherId)
    {
      storedTrip := None;
      lastCoords := None;
      ClearSession();
      StartWatcher(0.0, [], tripType, checkGranted, requestGranted, newId);
    }

    /** What starting and resetting a trip both clear: GPS use, the addresses and the error. */
    method ClearSession()
      modifies this`wasGpsUsed, this`startAddress, this`endAddress, this`geocodingError, this`hasGeocodedStart
      ensures !wasGpsUsed && !hasGeocodedStart
      ensures startAddress.None? && endAddress.None? && geocodingError.None?
    {
      wasGpsUsed := false;
      startAddress := None;
      endAddress := None;
      geocodingError := None;
      hasGeocodedStart := false;
    }

    /**
     * `stopTrip`: look up the end address if there is a last point and none
     * yet, remove the watcher, clear storage and return the trip. The refs
     * are left as they are.
     */
    method StopTrip(reply: GeocodeReply, now: int) returns (result: TripResult)
      requires Valid()
      modifies this`geocodingError, this`endAddress, this`watcherId, this`isTracking, this`storedTrip
      ensures Valid()
      ensures !isTracking && watcherId.None? && storedTrip.None?
      ensures result.miles == miles && result.path == path && result.tripType == tripType
      ensures result.startAddress == startAddress
      ensures old(endAddress).Some? ==> result.endAddress == old(endAddress) && geocodingError == old(geocodingError)
      ensures old(endAddress).None? && lastCoords.None? ==> result.endAddress.None? && geocodingError == old(geocodingError)
      ensures old(endAddress).None? && lastCoords.Some? ==>
                var res := Resolve(haversine, savedPlaces, reply, lastCoords.value.lat, lastCoords.value.lon, now);
                result.endAddress == res.address && geocodingError == ErrorAfter(res.error, old(geocodingError))
      ensures endAddress == if result.endAddress.Some? then result.endAddress else old(endAddress)
    {
      var finalEnd := LookUpEnd(reply, now);
      watcherId := None;
      isTracking := false;
      result := TripResult(miles, path, tripType, startAddress, finalEnd);
      storedTrip := None;
    }

    /** The first step of `stopTrip`: the end address, looked up when there is a last point and none yet. */
    method LookUpEnd(reply: GeocodeReply, now: int) returns (finalEnd: Option<Address>)
      modifies this`geocodingError, this`endAddress
      ensures old(endAddress).Some? ==> finalEnd == old(endAddress) && geocodingError == old(geocodingError)
      ensures old(endAddress).None? && lastCoords.None? ==> finalEnd.None? && geocodingError == old(geocodingError)
      ensures old(endAddress).None? && lastCoords.Some? ==>
                var res := Resolve(haversine, savedPlaces, reply, lastCoords.value.lat, lastCoords.value.lon, now);
                finalEnd == res.address && geocodingError == ErrorAfter(res.error, old(geocodingError))
      ensures endAddress == if finalEnd.Some? then finalEnd else old(endAddress)
    {
      finalEnd := endAddress;
      if lastCoords.Some? && finalEnd.None? {
        var res := Resolve(haversine, savedPlaces, reply, lastCoords.value.lat, lastCoords.value.lon, now);
        geocodingError := ErrorAfter(res.error, geocodingError);
        finalEnd := res.address;
        if finalEnd.Some? {
          endAddress := finalEnd;
        }
      }
    }

    /** `resetTrip`: back to an empty trip; the unsaved count, the trip type and the watcher are kept. */
    method ResetTrip()
      requires Valid()
      modifies this`miles, this`path, this`lastCoords, this`wasGpsUsed, this`startAddress, this`endAddress
      modifies this`geocodingError, this`hasGeocodedStart, this`storedTrip
      ensures Valid()
      ensures miles == 0.0 && path == [] && lastCoords.None? && storedTrip.None?
      ensures !wasGpsUsed && !hasGeocodedStart
      ensures startAddress.None? && endAddress.None? && geocodingError.None?
    {
      miles := 0.0;
      path := [];
      lastCoords := None;
      ClearSession();
      storedTrip := None;
    }

    /** `setType` (`changeType`): switch the trip type and, while tracking, write a snapshot. */
    method ChangeType(newType: string, flushOk: bool, now: int)
      requires Valid()
      modifies this`tripType, this`storedTrip, this`unsaved
      ensures Valid()
      ensures State() == if isTracking then Flushed(old(State()).(tripType := newType), flushOk, now)
                         else old(State()).(tripType := newType)
    {
      tripType := newType;
      if isTracking {
        Flush(flushOk, now);
      }
    }

    /**
     * `savePlace`: learn a place unless the name is blank or the stored list
     * already has it; the in-memory list becomes the stored list plus the new
     * place even when the write fails.
     */
    method SavePlace(lat: real, lon: real, name: string, writeOk: bool)
      requires Valid()
      modifies this`savedPlaces, this`storedPlaces
      ensures Valid()
      ensures var updated := WithPlace(haversine, old(storedPlaces), lat, lon, name);
              && (updated == old(storedPlaces) ==> savedPlaces == old(savedPlaces) && storedPlaces == old(storedPlaces))
              && (updated != old(storedPlaces) ==>
                    savedPlaces == updated && storedPlaces == (if writeOk then updated else old(storedPlaces)))
    {
      var updated := WithPlace(haversine, storedPlaces, lat, lon, name);
      if updated == storedPlaces {
        return;
      }
      savedPlaces := updated;
      if writeOk {
        storedPlaces := updated;
      }
    }
  }
}
