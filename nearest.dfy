/**
 * The backend's `/nearest-machine` endpoint: one pass over the machines in query
 * order, keeping the first machine with the smallest distance. The great-circle
 * distance in kilometres is a parameter.
 */
module NearestMachine {
  import opened Wrappers

  /** A machine row; a coordinate column may be NULL. */
  datatype DbMachine = DbMachine(id: int, name: string, latitude: Option<real>, longitude: Option<real>)

  type Km = r: real | r >= 0.0

  /** `calculate_distance(lat1, lon1, lat2, lon2)` */
  type DistanceFn = (real, real, real, real) -> Km

  datatype NearestResult =
    | Nearest(machine: DbMachine, index: nat, distanceKm: Km)
    | NoMachinesFound
    // `math.radians(None)` raises before the loop finishes
    | MissingCoordinate(index: nat)

  const NoMachinesMessage := "No machines found"

  predicate HasCoordinates(m: DbMachine) {
    m.latitude.Some? && m.longitude.Some?
  }

  function DistanceTo(distance: DistanceFn, userLat: real, userLon: real, m: DbMachine): Km
    requires HasCoordinates(m)
  {
    distance(userLat, userLon, m.latitude.value, m.longitude.value)
  }

  /** Why a request ends in HTTP 500: `math.radians(None)` for a row without
      coordinates, or the read of `nearest.location`, an attribute the machine table
      does not have. */
  datatype Failure = RadiansOfNone(index: nat) | NoLocationAttribute

  /** What the endpoint sends: the JSON error body, or an internal server error. */
  datatype Response = ErrorBody(error: string) | InternalServerError(cause: Failure)

  /** The tail of `find_nearest`, after the scan: the falsy-`nearest` test and the
      payload, whose `location` read raises for every chosen machine. */
  function ResponseOf(r: NearestResult): (resp: Response)
    ensures resp.ErrorBody? <==> r.NoMachinesFound?
    ensures resp.ErrorBody? ==> resp.error == NoMachinesMessage
    ensures r.Nearest? ==> resp == InternalServerError(NoLocationAttribute)
    ensures r.MissingCoordinate? ==> resp == InternalServerError(RadiansOfNone(r.index))
  {
    match r
    case Nearest(_, _, _) => InternalServerError(NoLocationAttribute)
    case NoMachinesFound => ErrorBody(NoMachinesMessage)
    case MissingCoordinate(i) => InternalServerError(RadiansOfNone(i))
  }

  /** `find_nearest`: the error result exactly for an empty table; a machine without
      coordinates stops the scan; otherwise the chosen machine is at least as close as
      every machine and strictly closer than every machine before it. */
  method FindNearest(userLat: real, userLon: real, machines: seq<DbMachine>, distance: DistanceFn)
    returns (r: NearestResult)
    ensures r.NoMachinesFound? <==> machines == []
    ensures r.MissingCoordinate? ==>
      && r.index < |machines| && !HasCoordinates(machines[r.index])
      && forall j :: 0 <= j < r.index ==> HasCoordinates(machines[j])
    ensures r.Nearest? ==>
      && (forall j :: 0 <= j < |machines| ==> HasCoordinates(machines[j]))
      && r.index < |machines| && r.machine == machines[r.index]
      && r.distanceKm == DistanceTo(distance, userLat, userLon, machines[r.index])
      && (forall j :: 0 <= j < |machines| ==> r.distanceKm <= DistanceTo(distance, userLat, userLon, machines[j]))
      && (forall j :: 0 <= j < r.index ==> r.distanceKm < DistanceTo(distance, userLat, userLon, machines[j]))
    ensures machines != [] && (forall j :: 0 <= j < |machines| ==> HasCoordinates(machines[j])) ==> r.Nearest?
  {
    // `nearest = None` and `min_distance = float("inf")` are both `best == None`
    var best: Option<(nat, Km)> := None;
    var k := 0;
    while k < |machines|
      invariant 0 <= k <= |machines|
      invariant forall j :: 0 <= j < k ==> HasCoordinates(machines[j])
      invariant best.None? <==> k == 0
      invariant best.Some? ==>
        && best.value.0 < k
        && best.value.1 == DistanceTo(distance, userLat, userLon, machines[best.value.0])
        && (forall j :: 0 <= j < k ==> best.value.1 <= DistanceTo(distance, userLat, userLon, machines[j]))
        && (forall j :: 0 <= j < best.value.0 ==> best.value.1 < DistanceTo(distance, userLat, userLon, machines[j]))
    {
      var m := machines[k];
      if !HasCoordinates(m) {
        return MissingCoordinate(k);
      }
      var d := DistanceTo(distance, userLat, userLon, m);
      if best.None? || d < best.value.1 {
        best := Some((k, d));
      }
      k := k + 1;
    }
    if best.None? {
      r := NoMachinesFound;
    } else {
      r := Nearest(machines[best.value.0], best.value.0, best.value.1);
    }
  }

  /** `POST /nearest-machine` as a whole: only an empty machine table gets an answer
      (the error body); any other table ends in HTTP 500, at the first row without
      coordinates or, when every row has them, at the `location` read. */
  method NearestMachineEndpoint(userLat: real, userLon: real, machines: seq<DbMachine>, distance: DistanceFn)
    returns (resp: Response)
    ensures resp == ErrorBody(NoMachinesMessage) <==> machines == []
    ensures machines != [] ==> resp.InternalServerError?
    ensures (forall j :: 0 <= j < |machines| ==> HasCoordinates(machines[j])) && machines != [] ==>
      resp == InternalServerError(NoLocationAttribute)
    ensures resp.InternalServerError? && resp.cause.RadiansOfNone? ==>
      && resp.cause.index < |machines| && !HasCoordinates(machines[resp.cause.index])
      && forall j :: 0 <= j < resp.cause.index ==> HasCoordinates(machines[j])
  {
    var r := FindNearest(userLat, userLon, machines, distance);
    resp := ResponseOf(r);
  }

  /** The specification of the choice on its own: the index of the first machine of
      least distance in a table whose rows all have coordinates. */
  ghost predicate IsFirstMinimum(distance: DistanceFn, userLat: real, userLon: real, machines: seq<DbMachine>, i: nat)
    requires forall j :: 0 <= j < |machines| ==> HasCoordinates(machines[j])
  {
    && i < |machines|
    && (forall j :: 0 <= j < |machines| ==> DistanceTo(distance, userLat, userLon, machines[i]) <= DistanceTo(distance, userLat, userLon, machines[j]))
    && (forall j :: 0 <= j < i ==> DistanceTo(distance, userLat, userLon, machines[i]) < DistanceTo(distance, userLat, userLon, machines[j]))
  }

  /** There is only one first minimum, so the result of the scan is determined. */
  lemma FirstMinimumUnique(distance: DistanceFn, userLat: real, userLon: real, machines: seq<DbMachine>, i: nat, i': nat)
    requires forall j :: 0 <= j < |machines| ==> HasCoordinates(machines[j])
    requires IsFirstMinimum(distance, userLat, userLon, machines, i)
    requires IsFirstMinimum(distance, userLat, userLon, machines, i')
    ensures i == i'
  {
    var d, d' := DistanceTo(distance, userLat, userLon, machines[i]), DistanceTo(distance, userLat, userLon, machines[i']);
    assert d <= d' && d' <= d;
  }

  /** Equal distances: the earlier machine wins. */
  lemma TieGoesToEarlier(distance: DistanceFn, userLat: real, userLon: real, a: DbMachine, b: DbMachine)
    requires HasCoordinates(a) && HasCoordinates(b)
    requires DistanceTo(distance, userLat, userLon, a) == DistanceTo(distance, userLat, userLon, b)
    ensures IsFirstMinimum(distance, userLat, userLon, [a, b], 0)
    ensures !IsFirstMinimum(distance, userLat, userLon, [a, b], 1)
  {
  }
}
