/**
 * The monthly report of src/pages/Reports.jsx (`stats`): the work trips and
 * approved receipts of the selected month, their totals, the deduction at
 * the IRS rate, and the trips grouped by vehicle. Amounts stay `real`; the
 * `toFixed` strings the page shows are not modelled.
 */
module Reports {
  import opened Wrappers
  import opened Arrays
  import opened Records
  import opened Calendar

  /** Dollars deducted per mile. */
  const IRS_RATE: real := 0.70

  /** The group of trips that name no vehicle. */
  const NO_VEHICLE: string := "Sin Veh\U{00ED}culo Asignado"

  // ------------------------------------------------------------- filters

  /**
   * The instant a document is dated at: its Timestamp's seconds in
   * milliseconds, or now when it has none.
   */
  function InstantOf(seconds: Option<int>, nowMs: int): int {
    match seconds
    case Some(s) => s * 1000
    case None => nowMs
  }

  predicate InPeriod(cal: Clock, ms: int, month: int, year: int) {
    cal(ms).month == month && cal(ms).year == year
  }

  /** A trip counts when it is dated in the selected month and year and is a work trip. */
  predicate CountsTrip(cal: Clock, nowMs: int, month: int, year: int, t: Trip) {
    InPeriod(cal, InstantOf(t.fecha, nowMs), month, year) && t.tipo == "trabajo"
  }

  /** A receipt counts when it was uploaded in the selected month and year and is approved. */
  predicate CountsExpense(cal: Clock, nowMs: int, month: int, year: int, e: Expense) {
    InPeriod(cal, InstantOf(e.uploadedAt, nowMs), month, year) && e.status == "approved"
  }

  function TripFilter(cal: Clock, nowMs: int, month: int, year: int): Trip -> bool {
    t => CountsTrip(cal, nowMs, month, year, t)
  }

  function ExpenseFilter(cal: Clock, nowMs: int, month: int, year: int): Expense -> bool {
    e => CountsExpense(cal, nowMs, month, year, e)
  }

  /** `parseFloat(trip.millas) || 0`. */
  function TripMiles(t: Trip): real {
    ParsedOrZero(t.millas)
  }

  /** `parseFloat(expense.amount) || 0`. */
  function ExpenseAmount(e: Expense): real {
    ParsedOrZero(e.amount)
  }

  // --------------------------------------------------------- vehicle key

  /**
   * The group a trip goes to: its saved label, else "<plate> (<alias>)" when
   * its vehicle copy has an alias, else the no-vehicle group. No trip lands
   * under an empty name.
   */
  function VehicleKey(t: Trip): (k: string)
    ensures k != ""
    ensures t.vehiculoLabel != "" ==> k == t.vehiculoLabel
    ensures t.vehiculoLabel == "" && t.vehiculoData.Some? && t.vehiculoData.value.alias != "" ==>
              k == t.vehiculoData.value.plate + " (" + t.vehiculoData.value.alias + ")"
    ensures t.vehiculoLabel == "" && (t.vehiculoData.None? || t.vehiculoData.value.alias == "") ==> k == NO_VEHICLE
  {
    if t.vehiculoLabel != "" then t.vehiculoLabel
    else if t.vehiculoData.Some? && t.vehiculoData.value.alias != "" then
      t.vehiculoData.value.plate + " (" + t.vehiculoData.value.alias + ")"
    else NO_VEHICLE
  }

  // ------------------------------------------------------------ grouping

  /** One entry of `tripsByVehicle`. */
  datatype Group = Group(miles: real, deduction: real, trips: seq<Trip>)

  const EMPTY_GROUP: Group := Group(0.0, 0.0, [])

  function MilesOf(g: Group): real { g.miles }

  function DeductionOf(g: Group): real { g.deduction }

  /*
   * The grouping is stated for any key and any miles reading of a trip; the
   * report uses VehicleKey and TripMiles.
   */

  /** A group after one more trip. */
  function Tally(g: Group, t: Trip, miles: Trip -> real): Group {
    Group(g.miles + miles(t), g.deduction + miles(t) * IRS_RATE, g.trips + [t])
  }

  /** The dictionary once the loop has seen `ts`. */
  function GroupsOf(ts: seq<Trip>, key: Trip -> string, miles: Trip -> real): map<string, Group>
    decreases |ts|
  {
    if ts == [] then map[]
    else
      var prev := GroupsOf(ts[..|ts| - 1], key, miles);
      var t := ts[|ts| - 1];
      prev[key(t) := Tally(if key(t) in prev then prev[key(t)] else EMPTY_GROUP, t, miles)]
  }

  /** The dictionary's keys in the order they were created. */
  function KeysOf(ts: seq<Trip>, key: Trip -> string): seq<string>
    decreases |ts|
  {
    if ts == [] then []
    else
      var prev := KeysOf(ts[..|ts| - 1], key);
      var k := key(ts[|ts| - 1]);
      if k in prev then prev else prev + [k]
  }

  function KeyIs(key: Trip -> string, k: string): Trip -> bool {
    t => key(t) == k
  }

  predicate Distinct(keys: seq<string>) {
    forall i, j :: 0 <= i < j < |keys| ==> keys[i] != keys[j]
  }

  /**
   * The keys are the distinct keys of the trips, each created once, and they
   * are exactly the dictionary's keys.
   */
  lemma {:induction false} KeysOfSpec(ts: seq<Trip>, key: Trip -> string, miles: Trip -> real)
    ensures Distinct(KeysOf(ts, key))
    ensures forall k :: k in GroupsOf(ts, key, miles) <==> k in KeysOf(ts, key)
    ensures forall k :: k in KeysOf(ts, key) <==> exists i :: 0 <= i < |ts| && key(ts[i]) == k
    decreases |ts|
  {
    if ts != [] {
      var ps := ts[..|ts| - 1];
      KeysOfSpec(ps, key, miles);
      forall k
        ensures k in KeysOf(ts, key) <==> exists i :: 0 <= i < |ts| && key(ts[i]) == k
      {
        if k in KeysOf(ts, key) {
          if k in KeysOf(ps, key) {
            var i :| 0 <= i < |ps| && key(ps[i]) == k;
            assert ts[i] == ps[i];
          } else {
            assert key(ts[|ts| - 1]) == k;
          }
        }
        if exists i :: 0 <= i < |ts| && key(ts[i]) == k {
          var i :| 0 <= i < |ts| && key(ts[i]) == k;
          if i < |ps| {
            assert ps[i] == ts[i];
          }
        }
      }
    }
  }

  /** A sum over a list with one more element. */
  lemma SumSnoc(xs: seq<Trip>, t: Trip, f: Trip -> real)
    ensures SumOf(xs + [t], f) == SumOf(xs, f) + f(t)
  {
    assert (xs + [t])[..|xs|] == xs;
  }

  /**
   * Every group holds, in filter order, exactly the trips with its key; its
   * miles are their miles' sum and its deduction is those miles at the IRS
   * rate. A key with no group has no trips.
   */
  lemma {:induction false} GroupContents(ts: seq<Trip>, key: Trip -> string, miles: Trip -> real, k: string)
    ensures k in GroupsOf(ts, key, miles) ==>
              var sel := Filter(ts, KeyIs(key, k));
              GroupsOf(ts, key, miles)[k] == Group(SumOf(sel, miles), SumOf(sel, miles) * IRS_RATE, sel)
    ensures k !in GroupsOf(ts, key, miles) ==> Filter(ts, KeyIs(key, k)) == []
    decreases |ts|
  {
    if ts != [] {
      var ps := ts[..|ts| - 1];
      var t := ts[|ts| - 1];
      GroupContents(ps, key, miles, k);
      var prev := GroupsOf(ps, key, miles);
      var sel := Filter(ps, KeyIs(key, k));
      if key(t) == k {
        var total := SumOf(sel, miles);
        SumSnoc(sel, t, miles);
        assert KeyIs(key, k)(t);
        assert total * IRS_RATE + miles(t) * IRS_RATE == (total + miles(t)) * IRS_RATE;
      } else {
        assert !KeyIs(key, k)(t);
        assert Filter(ts, KeyIs(key, k)) == sel;
        assert k in GroupsOf(ts, key, miles) ==> k in prev && GroupsOf(ts, key, miles)[k] == prev[k];
      }
    }
  }

  /** Each counted trip is in the group of its key and in no other. */
  lemma TripInOneGroup(ts: seq<Trip>, key: Trip -> string, miles: Trip -> real, i: nat)
    requires i < |ts|
    ensures key(ts[i]) in GroupsOf(ts, key, miles)
    ensures ts[i] in GroupsOf(ts, key, miles)[key(ts[i])].trips
    ensures forall k :: k in GroupsOf(ts, key, miles) && ts[i] in GroupsOf(ts, key, miles)[k].trips ==>
              k == key(ts[i])
  {
    var k := key(ts[i]);
    KeysOfSpec(ts, key, miles);
    GroupContents(ts, key, miles, k);
    FilterMembers(ts, KeyIs(key, k));
    forall j | j in GroupsOf(ts, key, miles) && ts[i] in GroupsOf(ts, key, miles)[j].trips
      ensures j == k
    {
      GroupContents(ts, key, miles, j);
      FilterMembers(ts, KeyIs(key, j));
    }
  }

  /** The sum of `f` over the groups under `keys`. */
  function GroupTotal(groups: map<string, Group>, keys: seq<string>, f: Group -> real): real
    requires forall i :: 0 <= i < |keys| ==> keys[i] in groups
    decreases |keys|
  {
    if keys == [] then 0.0
    else GroupTotal(groups, keys[..|keys| - 1], f) + f(groups[keys[|keys| - 1]])
  }

  /** Groups that agree on the keys summed over give the same total. */
  lemma {:induction false} GroupTotalFrame(a: map<string, Group>, b: map<string, Group>, keys: seq<string>,
                                           f: Group -> real)
    requires forall i :: 0 <= i < |keys| ==> keys[i] in a && keys[i] in b && a[keys[i]] == b[keys[i]]
    ensures GroupTotal(a, keys, f) == GroupTotal(b, keys, f)
    decreases |keys|
  {
    if keys != [] {
      GroupTotalFrame(a, b, keys[..|keys| - 1], f);
    }
  }

  /** Changing one group among distinct keys changes the total by the change of `f`. */
  lemma {:induction false} GroupTotalUpdate(a: map<string, Group>, keys: seq<string>, k: string, g: Group,
                                            f: Group -> real)
    requires forall i :: 0 <= i < |keys| ==> keys[i] in a
    requires Distinct(keys)
    requires k in keys
    ensures GroupTotal(a[k := g], keys, f) == GroupTotal(a, keys, f) - f(a[k]) + f(g)
    decreases |keys|
  {
    var init := keys[..|keys| - 1];
    var last := keys[|keys| - 1];
    if last == k {
      assert k !in init by {
        forall i | 0 <= i < |init|
          ensures init[i] != k
        {
          assert keys[i] != keys[|keys| - 1];
        }
      }
      GroupTotalFrame(a[k := g], a, init, f);
    } else {
      assert k in init by {
        var i :| 0 <= i < |keys| && keys[i] == k;
        assert i < |keys| - 1;
        assert init[i] == k;
      }
      GroupTotalUpdate(a, init, k, g, f);
    }
  }

  /** The keys are distinct and are exactly the dictionary's keys. */
  lemma KeysMatchGroups(ts: seq<Trip>, key: Trip -> string, miles: Trip -> real)
    ensures Distinct(KeysOf(ts, key))
    ensures forall k :: k in GroupsOf(ts, key, miles) <==> k in KeysOf(ts, key)
  {
    KeysOfSpec(ts, key, miles);
  }

  /** The group a trip lands in, before it is counted. */
  function GroupBefore(groups: map<string, Group>, k: string): Group {
    if k in groups then groups[k] else EMPTY_GROUP
  }

  /** One more trip changes a sum over the groups by the change of its own group. */
  lemma GroupTotalStep(ps: seq<Trip>, t: Trip, key: Trip -> string, miles: Trip -> real, f: Group -> real)
    requires f(EMPTY_GROUP) == 0.0
    ensures var ts := ps + [t];
            var prev := GroupsOf(ps, key, miles);
            && (forall i :: 0 <= i < |KeysOf(ps, key)| ==> KeysOf(ps, key)[i] in prev)
            && (forall i :: 0 <= i < |KeysOf(ts, key)| ==> KeysOf(ts, key)[i] in GroupsOf(ts, key, miles))
            && GroupTotal(GroupsOf(ts, key, miles), KeysOf(ts, key), f)
               == GroupTotal(prev, KeysOf(ps, key), f) - f(GroupBefore(prev, key(t)))
                  + f(Tally(GroupBefore(prev, key(t)), t, miles))
  {
    var ts := ps + [t];
    assert ts[..|ts| - 1] == ps && ts[|ts| - 1] == t;
    KeysMatchGroups(ps, key, miles);
    KeysMatchGroups(ts, key, miles);
    var prev := GroupsOf(ps, key, miles);
    var keys := KeysOf(ps, key);
    var k := key(t);
    var g' := Tally(GroupBefore(prev, k), t, miles);
    assert GroupsOf(ts, key, miles) == prev[k := g'];
    if k in prev {
      assert KeysOf(ts, key) == keys;
      GroupTotalUpdate(prev, keys, k, g', f);
    } else {
      assert KeysOf(ts, key) == keys + [k];
      assert (keys + [k])[..|keys|] == keys;
      assert GroupTotal(prev[k := g'], keys + [k], f) == GroupTotal(prev[k := g'], keys, f) + f(g');
      GroupTotalFrame(prev[k := g'], prev, keys, f);
    }
  }

  /** The groups' miles add up to the total miles. */
  lemma {:induction false} GroupMilesTotal(ts: seq<Trip>, key: Trip -> string, miles: Trip -> real)
    ensures forall i :: 0 <= i < |KeysOf(ts, key)| ==> KeysOf(ts, key)[i] in GroupsOf(ts, key, miles)
    ensures GroupTotal(GroupsOf(ts, key, miles), KeysOf(ts, key), MilesOf) == SumOf(ts, miles)
    decreases |ts|
  {
    KeysMatchGroups(ts, key, miles);
    if ts != [] {
      var ps := ts[..|ts| - 1];
      var t := ts[|ts| - 1];
      assert ts == ps + [t];
      GroupMilesTotal(ps, key, miles);
      GroupTotalStep(ps, t, key, miles, MilesOf);
      SumSnoc(ps, t, miles);
    }
  }

  /** The groups' deductions add up to the total miles at the IRS rate. */
  lemma {:induction false} GroupDeductionsTotal(ts: seq<Trip>, key: Trip -> string, miles: Trip -> real)
    ensures forall i :: 0 <= i < |KeysOf(ts, key)| ==> KeysOf(ts, key)[i] in GroupsOf(ts, key, miles)
    ensures GroupTotal(GroupsOf(ts, key, miles), KeysOf(ts, key), DeductionOf) == SumOf(ts, miles) * IRS_RATE
    decreases |ts|
  {
    KeysMatchGroups(ts, key, miles);
    if ts != [] {
      var ps := ts[..|ts| - 1];
      var t := ts[|ts| - 1];
      assert ts == ps + [t];
      GroupDeductionsTotal(ps, key, miles);
      GroupTotalStep(ps, t, key, miles, DeductionOf);
      SumSnoc(ps, t, miles);
      assert SumOf(ps, miles) * IRS_RATE + miles(t) * IRS_RATE == SumOf(ts, miles) * IRS_RATE;
    }
  }

  /**
   * The `forEach` loop that fills `tripsByVehicle`: create the trip's entry
   * when its key is new, then add its miles, its deduction and the trip.
   */
  method GroupTrips(ts: seq<Trip>, key: Trip -> string, miles: Trip -> real)
      returns (groups: map<string, Group>, keys: seq<string>)
    ensures groups == GroupsOf(ts, key, miles) && keys == KeysOf(ts, key)
  {
    groups := map[];
    keys := [];
    for i := 0 to |ts|
      invariant groups == GroupsOf(ts[..i], key, miles) && keys == KeysOf(ts[..i], key)
    {
      var trip := ts[i];
      ghost var seen := ts[..i + 1];
      assert seen[..|seen| - 1] == ts[..i] && seen[|seen| - 1] == trip;
      KeysMatchGroups(ts[..i], key, miles);
      ghost var prev := groups;
      var vehicleKey := key(trip);
      if vehicleKey !in groups {
        groups := groups[vehicleKey := EMPTY_GROUP];
        keys := keys + [vehicleKey];
      }
      var tripMiles := miles(trip);
      var g := groups[vehicleKey];
      assert g == if vehicleKey in prev then prev[vehicleKey] else EMPTY_GROUP;
      groups := groups[vehicleKey := Group(g.miles + tripMiles, g.deduction + tripMiles * IRS_RATE, g.trips + [trip])];
      assert groups == prev[vehicleKey := Tally(g, trip, miles)];
    }
    assert ts[..|ts|] == ts;
  }

  // --------------------------------------------------------------- stats

  /** What `stats` holds, amounts as numbers; `keys` is the dictionary's key order. */
  datatype Stats = Stats(
    miles: real,
    deduction: real,
    expenses: real,
    rawTrips: seq<Trip>,
    groups: map<string, Group>,
    keys: seq<string>)

  /**
   * `stats` for the selected month and year. None stands for a list that is
   * not an array; then everything is zero and empty.
   */
  method ComputeStats(trips: Option<seq<Trip>>, expenses: Option<seq<Expense>>,
                      cal: Clock, nowMs: int, month: int, year: int) returns (r: Stats)
    ensures trips.None? || expenses.None? ==> r == Stats(0.0, 0.0, 0.0, [], map[], [])
    ensures trips.Some? && expenses.Some? ==>
              && r.rawTrips == Filter(trips.value, TripFilter(cal, nowMs, month, year))
              && r.miles == SumOf(r.rawTrips, TripMiles)
              && r.deduction == r.miles * IRS_RATE
              && r.expenses == SumOf(Filter(expenses.value, ExpenseFilter(cal, nowMs, month, year)), ExpenseAmount)
              && r.groups == GroupsOf(r.rawTrips, VehicleKey, TripMiles)
              && r.keys == KeysOf(r.rawTrips, VehicleKey)
  {
    if trips.None? || expenses.None? {
      return Stats(0.0, 0.0, 0.0, [], map[], []);
    }
    var mTrips := Filter(trips.value, TripFilter(cal, nowMs, month, year));
    var mExp := Filter(expenses.value, ExpenseFilter(cal, nowMs, month, year));
    var totMiles := SumOf(mTrips, TripMiles);
    var totExp := SumOf(mExp, ExpenseAmount);
    var groups, keys := GroupTrips(mTrips, VehicleKey, TripMiles);
    r := Stats(totMiles, totMiles * IRS_RATE, totExp, mTrips, groups, keys);
  }

  /** A trip is in the report exactly when it is one of the trips and it counts. */
  lemma ReportedTrips(trips: seq<Trip>, cal: Clock, nowMs: int, month: int, year: int, t: Trip)
    ensures var raw := Filter(trips, TripFilter(cal, nowMs, month, year));
            t in raw <==> t in trips && CountsTrip(cal, nowMs, month, year, t)
  {
    FilterMembers(trips, TripFilter(cal, nowMs, month, year));
  }
}
