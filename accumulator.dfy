/**
 * The per-fix decision of the location watcher in src/hooks/useGPS.js: how a
 * fix is rated, when it is dropped, when it anchors a trip, and when it adds
 * a leg to the path and to the mileage. This module is the pure part; the
 * watcher's state (refs, storage) is the TripRecorder class of module Gps.
 */
module Accumulator {
  import opened Wrappers
  import opened Geo

  /** Declared by the hook but never applied: the path is not trimmed. */
  const MAX_PATH_POINTS: nat := 500
  /** Legs shorter than this (~5 m) are noise. */
  const MIN_MOVEMENT: real := 0.0031
  /** Legs longer than this are GPS jumps and are dropped. */
  const MAX_JUMP: real := 0.5
  /** Fixes with a worse accuracy (metres) are dropped. */
  const MAX_ACCURACY: real := 50.0
  /** The accuracy assumed when the plugin reports none. */
  const DEFAULT_ACCURACY: real := 20.0
  /** Unsaved miles at which the trip is written to storage (~50 m). */
  const SAVE_THRESHOLD: real := 0.03

  /** A location as the plugin delivers it; `accuracy` may be absent. */
  datatype Fix = Fix(lat: real, lon: real, accuracy: Option<real>)

  /** A recorded path point `{lat, lon, accuracy}`. */
  datatype Point = Point(lat: real, lon: real, accuracy: real)

  datatype Quality = Good | Medium | Poor

  /** The destructuring default `accuracy = 20`. */
  function AccuracyOf(f: Fix): (a: real)
    ensures f.accuracy.Some? ==> a == f.accuracy.value
    ensures f.accuracy.None? ==> a == DEFAULT_ACCURACY
  {
    f.accuracy.GetOr(DEFAULT_ACCURACY)
  }

  function PointOf(f: Fix): Point {
    Point(f.lat, f.lon, AccuracyOf(f))
  }

  function Coords(p: Point): Coord {
    Coord(p.lat, p.lon)
  }

  /** The guarded distance between two path points. */
  function Leg(h: Haversine, a: Point, b: Point): Miles {
    CalculateDistance(h, Coords(a), Coords(b))
  }

  // ------------------------------------------------------------ GPS quality

  /** Over 30 m is poor, over 15 m medium, otherwise good. */
  function Classify(accuracy: real): (q: Quality)
    ensures q == Poor <==> accuracy > 30.0
    ensures q == Good <==> accuracy <= 15.0
  {
    if accuracy > 30.0 then Poor else if accuracy > 15.0 then Medium else Good
  }

  function Rank(q: Quality): nat {
    match q
    case Good => 0
    case Medium => 1
    case Poor => 2
  }

  /** A less accurate fix never gets a better rating. */
  lemma ClassifyMonotone(a: real, b: real)
    requires a <= b
    ensures Rank(Classify(a)) <= Rank(Classify(b))
  {
  }

  /** A fix that is dropped for its accuracy has always been rated poor first. */
  lemma DroppedFixIsPoor(f: Fix)
    requires AccuracyOf(f) > MAX_ACCURACY
    ensures Classify(AccuracyOf(f)) == Poor
  {
  }

  // ------------------------------------------------------------- decision

  /** What the watcher callback does with one fix. */
  datatype Decision =
    | Rejected             // accuracy over 50 m: ignored
    | Anchor               // no previous point: becomes the first point
    | Jump(d: Miles)       // more than 0.5 mi from the previous point: ignored
    | Stationary(d: Miles) // under 0.0031 mi from the previous point: ignored
    | Step(d: Miles)       // appended, and d added to the miles

  /** The callback's branches, given the previous point (`lastCoords.current`). */
  function Decide(h: Haversine, last: Option<Point>, fix: Fix): (r: Decision)
    ensures r == Rejected <==> AccuracyOf(fix) > MAX_ACCURACY
    ensures r == Anchor <==> AccuracyOf(fix) <= MAX_ACCURACY && last.None?
    ensures (r.Jump? || r.Stationary? || r.Step?) ==> last.Some? && r.d == Leg(h, last.value, PointOf(fix))
    ensures r.Jump? ==> r.d > MAX_JUMP
    ensures r.Stationary? ==> r.d < MIN_MOVEMENT
    ensures r.Step? ==> MIN_MOVEMENT <= r.d <= MAX_JUMP
  {
    if AccuracyOf(fix) > MAX_ACCURACY then Rejected
    else match last
      case None => Anchor
      case Some(p) =>
        var d := Leg(h, p, PointOf(fix));
        if d > MAX_JUMP then Jump(d)
        else if d >= MIN_MOVEMENT then Step(d)
        else Stationary(d)
  }

  /** The decisions that append the fix to the path. */
  predicate Records(r: Decision) {
    r.Anchor? || r.Step?
  }

  // ------------------------------------------------------------- the track

  /** The total length of a path: the sum of its legs. */
  function PathMiles(h: Haversine, path: seq<Point>): Miles
    decreases |path|
  {
    if |path| <= 1 then 0.0
    else PathMiles(h, path[..|path| - 1]) + Leg(h, path[|path| - 2], path[|path| - 1])
  }

  /** Appending a point adds one leg to the length of a non-empty path. */
  lemma PathMilesAppend(h: Haversine, path: seq<Point>, p: Point)
    requires path != []
    ensures PathMiles(h, path + [p]) == PathMiles(h, path) + Leg(h, path[|path| - 1], p)
  {
    assert (path + [p])[..|path|] == path;
  }

  function Last(path: seq<Point>): (r: Option<Point>)
    ensures r.None? <==> path == []
    ensures r.Some? ==> r.value == path[|path| - 1]
  {
    if path == [] then None else Some(path[|path| - 1])
  }

  /** The path and the miles the refs hold (`pathRef`, `milesRef`). */
  datatype Track = Track(path: seq<Point>, miles: real)

  /** The effect of one fix on the path and the miles. */
  function Advance(h: Haversine, t: Track, fix: Fix): (r: Track)
    ensures Records(Decide(h, Last(t.path), fix)) ==> r.path == t.path + [PointOf(fix)]
    ensures !Records(Decide(h, Last(t.path), fix)) ==> r.path == t.path
    ensures Decide(h, Last(t.path), fix).Step? ==> r.miles == t.miles + Decide(h, Last(t.path), fix).d
    ensures !Decide(h, Last(t.path), fix).Step? ==> r.miles == t.miles
  {
    match Decide(h, Last(t.path), fix)
    case Anchor => Track(t.path + [PointOf(fix)], t.miles)
    case Step(d) => Track(t.path + [PointOf(fix)], t.miles + d)
    case _ => t
  }

  /** A trip started from nothing and fed `fixes` in order. */
  function Replay(h: Haversine, fixes: seq<Fix>): Track
    decreases |fixes|
  {
    if fixes == [] then Track([], 0.0)
    else Advance(h, Replay(h, fixes[..|fixes| - 1]), fixes[|fixes| - 1])
  }

  /**
   * The miles are the length of the path, every point was at most 50 m
   * accurate, and every leg is between 0.0031 and 0.5 mi.
   */
  predicate Consistent(h: Haversine, t: Track) {
    && t.miles == PathMiles(h, t.path)
    && (forall k :: 0 <= k < |t.path| ==> t.path[k].accuracy <= MAX_ACCURACY)
    && (forall k :: 0 <= k < |t.path| - 1 ==> MIN_MOVEMENT <= Leg(h, t.path[k], t.path[k + 1]) <= MAX_JUMP)
  }

  lemma AdvanceConsistent(h: Haversine, t: Track, fix: Fix)
    requires Consistent(h, t)
    ensures Consistent(h, Advance(h, t, fix))
  {
    var r := Advance(h, t, fix);
    match Decide(h, Last(t.path), fix)
    case Anchor =>
      assert r.path == [PointOf(fix)];
    case Step(d) =>
      StepConsistent(h, t, PointOf(fix), d);
    case _ =>
  }

  /** Appending an accurate point one admissible leg away keeps a track Consistent. */
  lemma StepConsistent(h: Haversine, t: Track, p: Point, d: Miles)
    requires Consistent(h, t) && t.path != []
    requires d == Leg(h, t.path[|t.path| - 1], p) && MIN_MOVEMENT <= d <= MAX_JUMP
    requires p.accuracy <= MAX_ACCURACY
    ensures Consistent(h, Track(t.path + [p], t.miles + d))
  {
    var path := t.path + [p];
    PathMilesAppend(h, t.path, p);
    assert path[|t.path|] == p;
    assert forall k :: 0 <= k < |t.path| ==> path[k] == t.path[k];
  }

  /** Whatever fixes arrive, a trip started from nothing stays Consistent. */
  lemma {:induction false} ReplayConsistent(h: Haversine, fixes: seq<Fix>)
    ensures Consistent(h, Replay(h, fixes))
    ensures |Replay(h, fixes).path| <= |fixes|
    decreases |fixes|
  {
    if fixes != [] {
      ReplayConsistent(h, fixes[..|fixes| - 1]);
      AdvanceConsistent(h, Replay(h, fixes[..|fixes| - 1]), fixes[|fixes| - 1]);
    }
  }

  // ------------------------------------------------- the callback's refs

  /** What `saveToDisk` writes under 'current_trip_state_v1' (`isTracking` is always written true). */
  datatype Snapshot = Snapshot(
    isTracking: bool,
    miles: real,
    path: seq<Point>,
    lastCoords: Option<Point>,
    tripType: string,
    timestamp: int)

  /** The refs the watcher callback reads and writes, with the snapshot in storage. */
  datatype Refs = Refs(
    path: seq<Point>,
    miles: real,
    lastCoords: Option<Point>,
    unsaved: real,
    tripType: string,
    stored: Option<Snapshot>)

  /** `saveToDisk` of the current refs: when the write succeeds the snapshot is the refs and nothing is unsaved. */
  function Flushed(w: Refs, ok: bool, now: int): Refs {
    if ok then w.(stored := Some(Snapshot(true, w.miles, w.path, w.lastCoords, w.tripType, now)), unsaved := 0.0)
    else w
  }

  /**
   * The refs after the callback has handled one fix: the fix is appended on
   * an anchor or a step, a step adds its leg to the miles and to the unsaved
   * miles, and a snapshot is written on an anchor and when a step takes the
   * unsaved miles to 0.03 or more.
   */
  function Callback(h: Haversine, w: Refs, fix: Fix, flushOk: bool, now: int): (r: Refs)
    ensures !Records(Decide(h, w.lastCoords, fix)) ==> r == w
    ensures Records(Decide(h, w.lastCoords, fix)) ==>
              r.path == w.path + [PointOf(fix)] && r.lastCoords == Some(PointOf(fix))
    ensures r.tripType == w.tripType
  {
    match Decide(h, w.lastCoords, fix)
    case Anchor =>
      var p := PointOf(fix);
      Flushed(w.(path := w.path + [p], lastCoords := Some(p)), flushOk, now)
    case Step(d) =>
      var p := PointOf(fix);
      var moved := w.(path := w.path + [p], lastCoords := Some(p), miles := w.miles + d, unsaved := w.unsaved + d);
      if moved.unsaved >= SAVE_THRESHOLD then Flushed(moved, flushOk, now) else moved
    case _ => w
  }

  /**
   * `lastCoords` is the last point of the path, and storage lags the refs by
   * exactly the unsaved miles and the points added since the last write.
   */
  predicate Lagging(w: Refs) {
    && w.lastCoords == Last(w.path)
    && w.unsaved >= 0.0
    && (w.stored.Some? && w.stored.value.isTracking ==>
          w.stored.value.miles + w.unsaved == w.miles && w.stored.value.path <= w.path)
  }

  /** The callback moves the path and the miles as Advance does. */
  lemma CallbackAdvances(h: Haversine, w: Refs, fix: Fix, flushOk: bool, now: int)
    requires w.lastCoords == Last(w.path)
    ensures var r := Callback(h, w, fix, flushOk, now);
            Track(r.path, r.miles) == Advance(h, Track(w.path, w.miles), fix)
  {
  }

  /** The callback keeps storage lagging the refs as Lagging says. */
  lemma CallbackLagging(h: Haversine, w: Refs, fix: Fix, flushOk: bool, now: int)
    requires Lagging(w)
    ensures Lagging(Callback(h, w, fix, flushOk, now))
  {
    match Decide(h, w.lastCoords, fix)
    case Anchor =>
    case Step(d) =>
    case _ =>
  }

  /**
   * While every write succeeds, less than 0.03 mi is ever unsaved: a crash
   * loses less than that.
   */
  lemma CallbackBoundsUnsaved(h: Haversine, w: Refs, fix: Fix, now: int)
    requires w.unsaved < SAVE_THRESHOLD
    ensures Callback(h, w, fix, true, now).unsaved < SAVE_THRESHOLD
  {
  }

  /**
   * When the callback writes: an anchor always asks for a write, a step only
   * once it takes the unsaved miles to 0.03 or more. A successful write
   * stores the refs as they now are and zeroes the unsaved miles; a failed
   * one, or no write, leaves storage as it was.
   */
  lemma CallbackFlushes(h: Haversine, w: Refs, fix: Fix, flushOk: bool, now: int)
    ensures var dec := Decide(h, w.lastCoords, fix);
            var r := Callback(h, w, fix, flushOk, now);
            var written := dec.Anchor? || (dec.Step? && w.unsaved + dec.d >= SAVE_THRESHOLD);
            && (written && flushOk ==>
                  r.stored == Some(Snapshot(true, r.miles, r.path, r.lastCoords, r.tripType, now)) && r.unsaved == 0.0)
            && (!(written && flushOk) ==> r.stored == w.stored)
            && (dec.Anchor? && !flushOk ==> r.unsaved == w.unsaved)
            && (dec.Step? && !(written && flushOk) ==> r.unsaved == w.unsaved + dec.d)
  {
    match Decide(h, w.lastCoords, fix)
    case Anchor =>
    case Step(d) =>
    case _ =>
  }

  /** After the callback the stored snapshot is the one before, or the refs as they now are. */
  lemma CallbackStoresCurrent(h: Haversine, w: Refs, fix: Fix, flushOk: bool, now: int)
    ensures var r := Callback(h, w, fix, flushOk, now);
            r.stored == w.stored
            || r.stored == Some(Snapshot(true, r.miles, r.path, r.lastCoords, r.tripType, now))
  {
  }
}
