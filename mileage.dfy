/**
 * The trip page of src/pages/MileageTracker.jsx: the list of trips shown
 * (optimistic placeholders first), the `YYYY-MM-DD` date text of the date
 * field, the trip document built by `handleSave`, and the page state that
 * the stop, save and start buttons change. The trip recorder is the
 * TripRecorder of module Gps; the local calendar, the trip store and the
 * device preferences are parameters.
 */
module Mileage {
  import opened Wrappers
  import opened Arrays
  import opened Records
  import opened Text
  import opened Calendar
  import opened Geocode
  import opened Gps
  import Reports
  import Accumulator

  // ------------------------------------------------------------ trip list

  /** The sort key of `todayTrips`: Infinity for a placeholder, else the date seconds or 0. */
  function TripKey(t: Trip): SortKey {
    if t.isOptimistic then Top else Val(t.fecha.GetOr(0) as real)
  }

  /** `todayTrips`: the placeholders and the stored trips, sorted by TripKey descending. */
  function TodayTrips(optimistic: seq<Trip>, trips: seq<Trip>): (r: seq<Trip>)
    ensures multiset(r) == multiset(optimistic + trips)
    ensures SortedDesc(r, TripKey)
  {
    SortDesc(optimistic + trips, TripKey)
  }

  /** Every placeholder is listed before every stored trip. */
  lemma PlaceholdersFirst(optimistic: seq<Trip>, trips: seq<Trip>, i: nat, j: nat)
    requires i < j < |TodayTrips(optimistic, trips)|
    requires TodayTrips(optimistic, trips)[j].isOptimistic
    ensures TodayTrips(optimistic, trips)[i].isOptimistic
  {
    SortedDescPairs(TodayTrips(optimistic, trips), TripKey, i, j);
  }

  /** Stored trips are listed newest first, a trip without a date counting as 0. */
  lemma StoredNewestFirst(optimistic: seq<Trip>, trips: seq<Trip>, i: nat, j: nat)
    requires i < j < |TodayTrips(optimistic, trips)|
    requires !TodayTrips(optimistic, trips)[i].isOptimistic
    ensures var r := TodayTrips(optimistic, trips);
            !r[j].isOptimistic && r[i].fecha.GetOr(0) >= r[j].fecha.GetOr(0)
  {
    SortedDescPairs(TodayTrips(optimistic, trips), TripKey, i, j);
  }

  // ------------------------------------------------------------ date text

  /** `${year}-${month}-${day}` with the 1-based month and the day padded to two digits. */
  function YmdText(d: LocalDate): string {
    DashJoin(IntToDecimal(d.year), Pad2(IntToDecimal(d.month + 1)), Pad2(IntToDecimal(d.day)))
  }

  function DashJoin(a: string, b: string, c: string): string {
    a + "-" + b + "-" + c
  }

  /** `getCurrentLocalDate`. */
  function CurrentLocalDate(cal: Clock, nowMs: int): string {
    YmdText(cal(nowMs))
  }

  /** A trip's `fecha` as `formatDateForInput` may receive it. */
  datatype Stamp =
    | NoStamp                  // null or undefined
    | Timestamp(seconds: int)  // a Firestore Timestamp
    | JsDate(ms: Option<int>)  // a Date; None when it is an invalid date

  /**
   * `formatDateForInput`: the date of a Timestamp with non-zero seconds, or
   * of a valid Date; anything else is today.
   */
  function FormatDateForInput(stamp: Stamp, cal: Clock, nowMs: int): (r: string)
    ensures stamp.Timestamp? && stamp.seconds != 0 ==> r == YmdText(cal(stamp.seconds * 1000))
    ensures stamp.JsDate? && stamp.ms.Some? ==> r == YmdText(cal(stamp.ms.value))
    ensures stamp.NoStamp? || (stamp.Timestamp? && stamp.seconds == 0) || (stamp.JsDate? && stamp.ms.None?) ==>
              r == CurrentLocalDate(cal, nowMs)
  {
    match stamp
    case Timestamp(s) => if s != 0 then YmdText(cal(s * 1000)) else CurrentLocalDate(cal, nowMs)
    case JsDate(Some(ms)) => YmdText(cal(ms))
    case _ => CurrentLocalDate(cal, nowMs)
  }

  /** The year, the 1-based month and the day, as the date field shows them. */
  function Shown(d: LocalDate): (int, int, int) {
    (d.year, d.month + 1, d.day)
  }

  /** `text.split('-').map(Number)`, the first three pieces; None when one is NaN or missing. */
  function ParseYmd(text: string): Option<(int, int, int)> {
    NumbersOf(Split(text, '-'))
  }

  /** `Number` of the first three pieces; None when one is NaN or missing. */
  function NumbersOf(parts: seq<string>): Option<(int, int, int)> {
    if |parts| < 3 then None
    else
      match (NumberOf(parts[0]), NumberOf(parts[1]), NumberOf(parts[2]))
      case (Some(y), Some(m), Some(d)) => Some((y, m, d))
      case _ => None
  }

  /** A number padded to two digits is still a digit string with the number's value. */
  lemma PaddedValue(n: nat)
    ensures AllDigits(Pad2(NatToDecimal(n)))
    ensures DigitsValue(Pad2(NatToDecimal(n))) == n
  {
    var d := NatToDecimal(n);
    DecimalRoundTrip(n);
    if |d| == 1 {
      LeadingZero(d);
    }
  }

  lemma JoinThree(a: string, b: string, c: string, sep: char)
    ensures Join([a, b, c], sep) == a + [sep] + b + [sep] + c
  {
    assert Join([b, c], sep) == b + [sep] + c by {
      assert [b, c][1..] == [c];
    }
    assert [a, b, c][1..] == [b, c];
  }

  /** Three digit strings joined with dashes split back into those three. */
  lemma SplitThree(a: string, b: string, c: string)
    requires AllDigits(a) && AllDigits(b) && AllDigits(c)
    ensures Split(DashJoin(a, b, c), '-') == [a, b, c]
  {
    JoinThree(a, b, c, '-');
    assert !IsDigit('-');
    assert '-' !in a && '-' !in b && '-' !in c;
    SplitJoin([a, b, c], '-');
  }

  /** The pieces of the date text between the dashes. */
  lemma YmdPieces(d: LocalDate)
    requires d.year >= 0 && d.month >= 0 && d.day >= 0
    ensures Split(YmdText(d), '-')
            == [NatToDecimal(d.year), Pad2(NatToDecimal(d.month + 1)), Pad2(NatToDecimal(d.day))]
  {
    var year, month, day := NatToDecimal(d.year), Pad2(NatToDecimal(d.month + 1)), Pad2(NatToDecimal(d.day));
    assert YmdText(d) == DashJoin(year, month, day);
    PaddedValue(d.month + 1);
    PaddedValue(d.day);
    SplitThree(year, month, day);
  }

  /** Three digit strings read back as their values. */
  lemma NumbersOfDigits(a: string, b: string, c: string)
    requires AllDigits(a) && AllDigits(b) && AllDigits(c)
    ensures NumbersOf([a, b, c]) == Some((DigitsValue(a), DigitsValue(b), DigitsValue(c)))
  {
    NumberOfDigits(a);
    NumberOfDigits(b);
    NumberOfDigits(c);
  }

  /** Reading the date text back gives the year, the 1-based month and the day. */
  lemma YmdRoundTrip(d: LocalDate)
    requires d.year >= 0 && d.month >= 0 && d.day >= 0
    ensures ParseYmd(YmdText(d)) == Some(Shown(d))
  {
    YmdPieces(d);
    DecimalRoundTrip(d.year);
    PaddedValue(d.month + 1);
    PaddedValue(d.day);
    NumbersOfDigits(NatToDecimal(d.year), Pad2(NatToDecimal(d.month + 1)), Pad2(NatToDecimal(d.day)));
  }

  /** A stored trip's date, formatted for the field and read back, is its local date. */
  lemma StoredDateRoundTrip(seconds: int, cal: Clock, nowMs: int)
    requires seconds != 0
    requires var d := cal(seconds * 1000); d.year >= 0 && d.month >= 0 && d.day >= 0
    ensures var d := cal(seconds * 1000);
            ParseYmd(FormatDateForInput(Timestamp(seconds), cal, nowMs)) == Some(Shown(d))
  {
    YmdRoundTrip(cal(seconds * 1000));
  }

  /** `new Date(y, m - 1, d, 12, 0, 0)`: the instant of noon on a local date. */
  type NoonOf = (int, int, int) -> int

  /**
   * The instant `handleSave` stores for the date read from the field: now
   * when it is today's local date, else noon of that date; None when the
   * field did not hold three numbers (the Date would be invalid).
   */
  function DateToSave(parsed: Option<(int, int, int)>, today: LocalDate, noon: NoonOf, nowMs: int): (r: Option<int>)
    ensures r.None? <==> parsed.None?
    ensures parsed == Some(Shown(today)) ==> r == Some(nowMs)
    ensures parsed.Some? && parsed != Some(Shown(today)) ==>
              r == Some(noon(parsed.value.0, parsed.value.1 - 1, parsed.value.2))
  {
    match parsed
    case None => None
    case Some(ymd) => if ymd == Shown(today) then Some(nowMs) else Some(noon(ymd.0, ymd.1 - 1, ymd.2))
  }

  /** A trip saved with the date field left at today's date is stamped with the current instant. */
  lemma TodaySavesNow(cal: Clock, noon: NoonOf, nowMs: int)
    requires var d := cal(nowMs); d.year >= 0 && d.month >= 0 && d.day >= 0
    ensures DateToSave(ParseYmd(CurrentLocalDate(cal, nowMs)), cal(nowMs), noon, nowMs) == Some(nowMs)
  {
    YmdRoundTrip(cal(nowMs));
  }

  /**
   * Editing a stored trip of another day and saving it without touching the
   * date stamps it with noon of the same local date.
   */
  lemma EditKeepsDay(seconds: int, cal: Clock, noon: NoonOf, nowMs: int)
    requires seconds != 0
    requires var d := cal(seconds * 1000); d.year >= 0 && d.month >= 0 && d.day >= 0
    requires cal(seconds * 1000) != cal(nowMs)
    requires var d := cal(seconds * 1000); cal(noon(d.year, d.month, d.day)) == d
    ensures var saved := DateToSave(ParseYmd(FormatDateForInput(Timestamp(seconds), cal, nowMs)), cal(nowMs), noon, nowMs);
            saved.Some? && cal(saved.value) == cal(seconds * 1000)
  {
    YmdRoundTrip(cal(seconds * 1000));
  }

  /** `v => v.id === id`, the test `handleEdit` finds a trip's vehicle by. */
  function HasVehicleId(id: string): VehicleInfo -> bool {
    (v: VehicleInfo) => v.id == id
  }

  /** A stored `fecha` as `formatDateForInput` receives it: a Timestamp, or nothing. */
  function StampOf(fecha: Option<int>): (r: Stamp)
    ensures fecha.Some? <==> r.Timestamp?
    ensures fecha.Some? ==> r.seconds == fecha.value
  {
    if fecha.Some? then Timestamp(fecha.value) else NoStamp
  }

  /** `Timestamp.fromDate`: whole seconds, rounded down. */
  function SecondsOf(ms: int): int {
    ms / 1000
  }

  // ------------------------------------------------------------ the record

  /** The trip form's fields. */
  datatype FormData = FormData(origen: string, destino: string, manualMiles: string, date: string)

  const EMPTY_FORM: FormData := FormData("", "", "", "")

  const UNSPECIFIED_VEHICLE: string := "No especificado"

  /** `vehiculoLabel`: `${plate} (${alias})` of the selected vehicle, or 'No especificado'. */
  function VehicleLabel(v: Option<VehicleInfo>): (text: string)
    ensures v.None? <==> text == UNSPECIFIED_VEHICLE
    ensures v.Some? ==> text == v.value.plate + " (" + v.value.alias + ")"
    ensures v.Some? ==> |text| >= 3 && text[|text| - 1] == ')'
  {
    match v
    case None => UNSPECIFIED_VEHICLE
    case Some(info) =>
      var text := info.plate + " (" + info.alias + ")";
      assert text[|text| - 1] == ')' && UNSPECIFIED_VEHICLE[|UNSPECIFIED_VEHICLE| - 1] == 'o';
      text
  }

  /** `dataToSave`: the trip document built from the form. */
  function TripRecord(form: FormData, tipo: string, wasGpsUsed: bool, vehicle: Option<VehicleInfo>,
                      fecha: Option<int>): (t: Trip)
    ensures t.millas.Some?
    ensures t.millas.value < 0.0 ==> NegativeSign(form.manualMiles)
    ensures ParseFloat(form.manualMiles).Some? ==> t.millas == ParseFloat(form.manualMiles)
    ensures ParseFloat(form.manualMiles).None? ==> t.millas == Some(0.0)
    ensures t.origen != [] ==> !IsJsWhitespace(t.origen[0]) && !IsJsWhitespace(t.origen[|t.origen| - 1])
    ensures t.destino != [] ==> !IsJsWhitespace(t.destino[0]) && !IsJsWhitespace(t.destino[|t.destino| - 1])
    ensures t.origen == Trim(form.origen) && t.destino == Trim(form.destino)
    ensures t.tipo == tipo && t.fecha == fecha
    ensures t.modo == "gps" <==> wasGpsUsed
    ensures t.vehiculoData == vehicle && t.vehiculoLabel == VehicleLabel(vehicle)
    ensures t.vehiculoLabel != "" && !t.isOptimistic
  {
    Trip("", Some(ParsedOrZero(ParseFloat(form.manualMiles))), Trim(form.origen), Trim(form.destino), tipo,
         if wasGpsUsed then "gps" else "manual", fecha, vehicle, VehicleLabel(vehicle), false)
  }

  /** The monthly report groups a trip saved from this page under its own label. */
  lemma ReportGroupIsLabel(form: FormData, tipo: string, wasGpsUsed: bool, vehicle: Option<VehicleInfo>,
                           fecha: Option<int>)
    ensures Reports.VehicleKey(TripRecord(form, tipo, wasGpsUsed, vehicle, fecha)) == VehicleLabel(vehicle)
  {
  }

  /** Saving trims the origin and destination once; saving them again changes nothing. */
  lemma ResaveKeepsPlaces(form: FormData, tipo: string, wasGpsUsed: bool, vehicle: Option<VehicleInfo>,
                          fecha: Option<int>)
    ensures var t := TripRecord(form, tipo, wasGpsUsed, vehicle, fecha);
            var again := TripRecord(form.(origen := t.origen, destino := t.destino), tipo, wasGpsUsed, vehicle, fecha);
            again.origen == t.origen && again.destino == t.destino
  {
    TrimIdempotent(form.origen);
    TrimIdempotent(form.destino);
  }

  /** The address text `handleStopTrip` puts in the form: `formatted`, or ''. */
  function AddressText(a: Option<Address>): string {
    if a.Some? then a.value.formatted else ""
  }

  /** The form `handleStopTrip` fills in from the stopped trip. */
  function StopForm(result: TripResult, cal: Clock, nowMs: int): (f: FormData)
    ensures f.manualMiles == ToFixed1(result.miles) && f.date == CurrentLocalDate(cal, nowMs)
    ensures f.origen == AddressText(result.startAddress) && f.destino == AddressText(result.endAddress)
  {
    FormData(AddressText(result.startAddress), AddressText(result.endAddress), ToFixed1(result.miles),
             CurrentLocalDate(cal, nowMs))
  }

  /** Saving the form a stop filled in records the trip's miles rounded to tenths. */
  lemma StopThenSaveMiles(result: TripResult, cal: Clock, nowMs: int, tipo: string, wasGpsUsed: bool,
                          vehicle: Option<VehicleInfo>, fecha: Option<int>)
    requires result.miles >= 0.0
    ensures var t := TripRecord(StopForm(result, cal, nowMs), tipo, wasGpsUsed, vehicle, fecha);
            t.millas.Some? && t.millas.value == TenthsRounded(result.miles) as real / 10.0
  {
    ParseFixed1(result.miles);
  }

  /** The record `handleSave` builds, with the date of DateToSave in whole seconds. */
  function SavedRecord(form: FormData, tipo: string, wasGpsUsed: bool, vehicle: Option<VehicleInfo>,
                       cal: Clock, noon: NoonOf, nowMs: int): Trip
  {
    var fecha := DateToSave(ParseYmd(form.date), cal(nowMs), noon, nowMs);
    TripRecord(form, tipo, wasGpsUsed, vehicle, if fecha.Some? then Some(SecondsOf(fecha.value)) else None)
  }

  // ------------------------------------------------------------ placeholders

  /** `'temp-' + Date.now()`. */
  function TempId(nowMs: nat): string {
    "temp-" + NatToDecimal(nowMs)
  }

  /** Saves started at different instants get different placeholder ids. */
  lemma TempIdInjective(t1: nat, t2: nat)
    requires TempId(t1) == TempId(t2)
    ensures t1 == t2
  {
    DecimalTextInjective("temp-", t1, t2, "");
    assert TempId(t1) + "" == TempId(t1);
    assert TempId(t2) + "" == TempId(t2);
  }

  /** The trip shown while a new trip is being stored. */
  function Placeholder(record: Trip, nowMs: nat): (t: Trip)
    ensures t.isOptimistic && t.id == TempId(nowMs)
  {
    record.(id := TempId(nowMs), isOptimistic := true)
  }

  function NotId(id: string): Trip -> bool {
    (t: Trip) => t.id != id
  }

  lemma {:induction false} FilterKeepsAll(xs: seq<Trip>, id: string)
    requires forall t :: t in xs ==> t.id != id
    ensures Filter(xs, NotId(id)) == xs
    decreases |xs|
  {
    if xs != [] {
      FilterKeepsAll(xs[..|xs| - 1], id);
      assert xs == xs[..|xs| - 1] + [xs[|xs| - 1]];
    }
  }

  /**
   * Removing a placeholder by its id undoes prepending it, when no other
   * placeholder has that id.
   */
  lemma RemovePlaceholder(placeholder: Trip, rest: seq<Trip>)
    requires forall t :: t in rest ==> t.id != placeholder.id
    ensures Filter([placeholder] + rest, NotId(placeholder.id)) == rest
  {
    FilterAppend([placeholder], rest, NotId(placeholder.id));
    assert Filter([placeholder], NotId(placeholder.id)) == [] by {
      assert [placeholder][..0] == [];
    }
    FilterKeepsAll(rest, placeholder.id);
  }

  // ------------------------------------------------------------ the page

  datatype FormMode = Closed | Creating | Editing

  /** A save between its start and the answer of the store. */
  datatype PendingSave = PendingSave(mode: FormMode, tempId: Option<string>, record: Trip)

  class TripPage {
    const gps: TripRecorder
    var formMode: FormMode
    var editingId: Option<string>
    var optimisticTrips: seq<Trip>
    var formData: FormData
    var isSaving: bool
    var showBatteryWarn: bool
    var selectedVehicle: Option<VehicleInfo>
    var batteryWarnSeen: bool      // the 'BATTERY_WARN_SEEN' preference is set

    constructor(recorder: TripRecorder, warnSeen: bool)
      ensures gps == recorder && batteryWarnSeen == warnSeen
      ensures formMode == Closed && editingId.None? && optimisticTrips == [] && formData == EMPTY_FORM
      ensures !isSaving && !showBatteryWarn && selectedVehicle.None?
    {
      gps := recorder;
      formMode := Closed;
      editingId := None;
      optimisticTrips := [];
      formData := EMPTY_FORM;
      isSaving := false;
      showBatteryWarn := false;
      selectedVehicle := None;
      batteryWarnSeen := warnSeen;
    }

    /**
     * `handleStartClick`: the first press only shows the battery warning and
     * sets the preference; once it is set, a press starts a trip.
     */
    method HandleStartClick(checkGranted: bool, requestGranted: bool, newId: nat)
      requires gps.Valid()
      modifies this`showBatteryWarn, this`batteryWarnSeen
      modifies gps`storedTrip, gps`wasGpsUsed, gps`lastCoords, gps`startAddress, gps`endAddress
      modifies gps`geocodingError, gps`hasGeocodedStart, gps`miles, gps`unsaved, gps`path
      modifies gps`tripType, gps`isTracking, gps`watcherId
      ensures gps.Valid() && batteryWarnSeen
      ensures !old(batteryWarnSeen) ==> showBatteryWarn && unchanged(gps)
      ensures old(batteryWarnSeen) ==>
                && showBatteryWarn == old(showBatteryWarn)
                && gps.storedTrip.None?
                && gps.miles == 0.0 && gps.path == [] && gps.lastCoords.None? && gps.unsaved == 0.0
                && gps.tripType == old(gps.tripType)
                && !gps.wasGpsUsed && !gps.hasGeocodedStart
                && gps.startAddress.None? && gps.endAddress.None? && gps.geocodingError.None?
                && gps.isTracking == (checkGranted || requestGranted)
                && gps.watcherId == if checkGranted || requestGranted then Some(newId) else old(gps.watcherId)
    {
      if !batteryWarnSeen {
        showBatteryWarn := true;
        batteryWarnSeen := true;
      } else {
        gps.StartTrip(checkGranted, requestGranted, newId);
      }
    }

    /**
     * Closing the battery warning: the warning goes and the trip starts, as a
     * later press of the start button would.
     */
    method DismissBatteryWarn(checkGranted: bool, requestGranted: bool, newId: nat)
      requires gps.Valid()
      modifies this`showBatteryWarn
      modifies gps`storedTrip, gps`wasGpsUsed, gps`lastCoords, gps`startAddress, gps`endAddress
      modifies gps`geocodingError, gps`hasGeocodedStart, gps`miles, gps`unsaved, gps`path
      modifies gps`tripType, gps`isTracking, gps`watcherId
      ensures gps.Valid() && !showBatteryWarn
      ensures gps.storedTrip.None?
      ensures gps.miles == 0.0 && gps.path == [] && gps.lastCoords.None? && gps.unsaved == 0.0
      ensures gps.tripType == old(gps.tripType)
      ensures !gps.wasGpsUsed && !gps.hasGeocodedStart
      ensures gps.startAddress.None? && gps.endAddress.None? && gps.geocodingError.None?
      ensures gps.isTracking == (checkGranted || requestGranted)
      ensures gps.watcherId == if checkGranted || requestGranted then Some(newId) else old(gps.watcherId)
    {
      showBatteryWarn := false;
      gps.StartTrip(checkGranted, requestGranted, newId);
    }

    /** `handleStopTrip`: stop the trip and open the create form filled in from it. */
    method HandleStopTrip(reply: GeocodeReply, cal: Clock, nowMs: int) returns (result: TripResult)
      requires gps.Valid()
      modifies this`formMode, this`formData
      modifies gps`geocodingError, gps`endAddress, gps`watcherId, gps`isTracking, gps`storedTrip
      ensures gps.Valid() && !gps.isTracking
      ensures gps.watcherId.None? && gps.storedTrip.None?
      ensures result.miles == old(gps.miles) && result.startAddress == old(gps.startAddress)
      ensures result.path == old(gps.path) && result.tripType == old(gps.tripType)
      ensures old(gps.endAddress).Some? ==>
                result.endAddress == old(gps.endAddress) && gps.geocodingError == old(gps.geocodingError)
      ensures old(gps.endAddress).None? && old(gps.lastCoords).None? ==>
                result.endAddress.None? && gps.geocodingError == old(gps.geocodingError)
      ensures old(gps.endAddress).None? && old(gps.lastCoords).Some? ==>
                var at := old(gps.lastCoords).value;
                var res := Resolve(gps.haversine, old(gps.savedPlaces), reply, at.lat, at.lon, nowMs);
                result.endAddress == res.address && gps.geocodingError == ErrorAfter(res.error, old(gps.geocodingError))
      ensures gps.endAddress == if result.endAddress.Some? then result.endAddress else old(gps.endAddress)
      ensures formMode == Creating && formData == StopForm(result, cal, nowMs)
    {
      result := gps.StopTrip(reply, nowMs);
      formMode := Creating;
      formData := StopForm(result, cal, nowMs);
    }

    /**
     * `handleEdit`: open the edit form on a stored trip. The recorder's trip
     * type becomes the trip's (`setType`, so a running trip writes a snapshot
     * with it), the form is filled from the trip, and a trip carrying a
     * vehicle selects the vehicle of the current list with the same id, or
     * the carried copy. `milesText` is `trip.millas.toString()`.
     */
    method HandleEdit(trip: Trip, vehicles: seq<VehicleInfo>, milesText: string,
                      cal: Clock, nowMs: int, flushOk: bool)
      requires gps.Valid()
      modifies this`editingId, this`formData, this`formMode, this`selectedVehicle
      modifies gps`tripType, gps`storedTrip, gps`unsaved
      ensures gps.Valid() && gps.tripType == trip.tipo
      ensures gps.State() == if gps.isTracking then Accumulator.Flushed(old(gps.State()).(tripType := trip.tipo), flushOk, nowMs)
                             else old(gps.State()).(tripType := trip.tipo)
      ensures editingId == Some(trip.id) && formMode == Editing
      ensures formData == FormData(trip.origen, trip.destino, milesText, FormatDateForInput(StampOf(trip.fecha), cal, nowMs))
      ensures trip.vehiculoData.None? ==> selectedVehicle == old(selectedVehicle)
      ensures trip.vehiculoData.Some? ==>
                var v := trip.vehiculoData.value;
                var found := FindIndex(vehicles, HasVehicleId(v.id));
                selectedVehicle == if v.id != "" && found.Some? then Some(vehicles[found.value]) else Some(v)
    {
      editingId := Some(trip.id);
      gps.ChangeType(trip.tipo, flushOk, nowMs);
      formData := FormData(trip.origen, trip.destino, milesText, FormatDateForInput(StampOf(trip.fecha), cal, nowMs));
      if trip.vehiculoData.Some? && trip.vehiculoData.value.id != "" {
        var id := trip.vehiculoData.value.id;
        var found := FindIndex(vehicles, HasVehicleId(id));
        selectedVehicle := if found.Some? then Some(vehicles[found.value]) else trip.vehiculoData;
      } else if trip.vehiculoData.Some? {
        selectedVehicle := trip.vehiculoData;
      }
      formMode := Editing;
    }

    /**
     * The part of `handleSave` before the store answers. Nothing happens when
     * the miles field is empty. Otherwise the record is built; a new trip is
     * shown at once as a placeholder with a temporary id, and the create form
     * closes; an edit keeps the form open until the store answers.
     */
    method BeginSave(cal: Clock, noon: NoonOf, nowMs: nat) returns (pending: Option<PendingSave>)
      modifies this`isSaving, this`optimisticTrips, this`formMode, this`formData
      ensures old(formData.manualMiles) == "" <==> pending.None?
      ensures pending.None? ==> isSaving == old(isSaving) && optimisticTrips == old(optimisticTrips)
      ensures pending.None? ==> formMode == old(formMode) && formData == old(formData)
      ensures pending.Some? ==> isSaving && pending.value.mode == old(formMode)
      ensures pending.Some? ==>
                pending.value.record
                == SavedRecord(old(formData), gps.tripType, gps.wasGpsUsed, selectedVehicle, cal, noon, nowMs)
      ensures pending.Some? && old(formMode) == Creating ==>
                && pending.value.tempId == Some(TempId(nowMs))
                && optimisticTrips == [Placeholder(pending.value.record, nowMs)] + old(optimisticTrips)
                && formMode == Closed && formData == EMPTY_FORM
      ensures pending.Some? && old(formMode) != Creating ==>
                && pending.value.tempId.None? && optimisticTrips == old(optimisticTrips)
                && formMode == old(formMode) && formData == old(formData)
    {
      if formData.manualMiles == "" {
        return None;
      }
      isSaving := true;
      var record := SavedRecord(formData, gps.tripType, gps.wasGpsUsed, selectedVehicle, cal, noon, nowMs);
      var tempId: Option<string> := None;
      var mode := formMode;
      if formMode == Creating {
        tempId := Some(TempId(nowMs));
        optimisticTrips := [Placeholder(record, nowMs)] + optimisticTrips;
        formMode := Closed;
        formData := EMPTY_FORM;
      }
      pending := Some(PendingSave(mode, tempId, record));
    }

    /**
     * The rest of `handleSave`, once the store answered `writeOk`. A created
     * trip resets the recorder; a successful edit closes the form. Either
     * way the placeholder, if any, goes and saving ends.
     */
    method FinishSave(pending: PendingSave, writeOk: bool)
      requires gps.Valid()
      modifies this`optimisticTrips, this`isSaving, this`formMode, this`formData, this`editingId
      modifies gps`miles, gps`path, gps`lastCoords, gps`wasGpsUsed, gps`startAddress, gps`endAddress
      modifies gps`geocodingError, gps`hasGeocodedStart, gps`storedTrip
      ensures gps.Valid() && !isSaving
      ensures pending.tempId.Some? ==> optimisticTrips == Filter(old(optimisticTrips), NotId(pending.tempId.value))
      ensures pending.tempId.None? ==> optimisticTrips == old(optimisticTrips)
      ensures pending.mode == Creating && writeOk ==>
                && gps.miles == 0.0 && gps.path == [] && gps.lastCoords.None? && gps.storedTrip.None?
                && !gps.wasGpsUsed && !gps.hasGeocodedStart
                && gps.startAddress.None? && gps.endAddress.None? && gps.geocodingError.None?
      ensures !(pending.mode == Creating && writeOk) ==> unchanged(gps)
      ensures pending.mode != Creating && writeOk ==> formMode == Closed && formData == EMPTY_FORM && editingId.None?
      ensures !(pending.mode != Creating && writeOk) ==>
                formMode == old(formMode) && formData == old(formData) && editingId == old(editingId)
    {
      if writeOk {
        if pending.mode == Creating {
          gps.ResetTrip();
        } else {
          formMode := Closed;
          formData := EMPTY_FORM;
          editingId := None;
        }
      }
      if pending.tempId.Some? {
        optimisticTrips := Filter(optimisticTrips, NotId(pending.tempId.value));
      }
      isSaving := false;
    }
  }
}
