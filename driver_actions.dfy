/** The driver's ride list: which of the three action buttons (accept, start,
    complete) a ride's card offers, the update each button asks the API
    for, and the passenger's cancel button. */
module DriverActions {
  import opened JsValues
  import opened Rides
  import opened Status

  /** `isMyRide`: the ride has a driver and that driver's id equals the
      visitor's, compared as strings. */
  predicate IsMyRide(r: Ride, userId: Value) {
    Truthy(r.driverId) && ToStr(r.driverId) == ToStr(userId)
  }

  datatype Action = Accept | Start | Complete

  /** The buttons a ride's card shows, in the order the card lists them. */
  function OfferedActions(r: Ride, userId: Value): (acts: seq<Action>)
    ensures |acts| <= 1
    ensures Accept in acts <==> !Truthy(r.driverId) && (Is(r.status, "requested") || Is(r.status, "accepted"))
    ensures Start in acts <==> IsMyRide(r, userId) && Is(r.status, "accepted")
    ensures Complete in acts <==> IsMyRide(r, userId) && Is(r.status, "ongoing")
  {
    var accept := !Truthy(r.driverId) && (Is(r.status, "requested") || Is(r.status, "accepted"));
    var start := Truthy(r.driverId) && IsMyRide(r, userId) && Is(r.status, "accepted");
    var complete := Truthy(r.driverId) && IsMyRide(r, userId) && Is(r.status, "ongoing");
    (if accept then [Accept] else []) + (if start then [Start] else []) + (if complete then [Complete] else [])
  }

  /** A ride another driver holds offers this driver nothing. */
  lemma OthersRidesOfferNothing(r: Ride, userId: Value)
    requires Truthy(r.driverId) && !IsMyRide(r, userId)
    ensures OfferedActions(r, userId) == []
  {
  }

  /** `vehicles.find(v => v.driverID === userId)`: the first vehicle
      registered to the driver, compared strictly. */
  function FindVehicle(vehicles: seq<Vehicle>, userId: Value): (found: Option<Vehicle>)
    ensures found.None? <==> forall i :: 0 <= i < |vehicles| ==> vehicles[i].driverId != userId
    ensures found.Some? ==>
              exists i :: (0 <= i < |vehicles| && vehicles[i] == found.value &&
                           found.value.driverId == userId &&
                           forall j :: 0 <= j < i ==> vehicles[j].driverId != userId)
  {
    if vehicles == [] then None
    else if vehicles[0].driverId == userId then Some(vehicles[0])
    else
      var rest := FindVehicle(vehicles[1..], userId);
      assert rest.Some? ==>
               exists i :: (1 <= i < |vehicles| && vehicles[i] == rest.value &&
                            rest.value.driverId == userId &&
                            forall j :: 0 <= j < i ==> vehicles[j].driverId != userId)
      by {
        if rest.Some? {
          var k :| 0 <= k < |vehicles[1..]| && vehicles[1..][k] == rest.value &&
                   rest.value.driverId == userId &&
                   forall j :: 0 <= j < k ==> vehicles[1..][j].driverId != userId;
          assert vehicles[k + 1] == rest.value;
          forall j | 0 <= j < k + 1 ensures vehicles[j].driverId != userId {
            if j > 0 { assert vehicles[j] == vehicles[1..][j - 1]; }
          }
        }
      }
      assert rest.None? ==> forall i :: 0 <= i < |vehicles| ==> vehicles[i].driverId != userId
      by {
        if rest.None? {
          forall i | 0 <= i < |vehicles| ensures vehicles[i].driverId != userId {
            if i > 0 { assert vehicles[i] == vehicles[1..][i - 1]; }
          }
        }
      }
      rest
  }

  /** What pressing a button leads to: accepting without a registered
      vehicle sends the driver to register one; otherwise the page asks the
      API to set these fields of the ride (`None`: left as it is). */
  datatype Outcome =
    | RegisterVehicleFirst
    | Patch(driverId: Option<Value>, vehicleId: Option<string>, status: string)

  function ActionOutcome(a: Action, userId: Value, vehicles: seq<Vehicle>): (o: Outcome)
    ensures o == RegisterVehicleFirst <==> a == Accept && FindVehicle(vehicles, userId).None?
    ensures o.Patch? && a == Accept ==>
              o.driverId == Some(userId) && o.status == "accepted" &&
              exists i :: 0 <= i < |vehicles| && vehicles[i].driverId == userId && o.vehicleId == Some(vehicles[i].id)
    ensures a != Accept ==> o.Patch? && o.driverId.None? && o.vehicleId.None?
  {
    match a
    case Accept =>
      (match FindVehicle(vehicles, userId)
       case None => RegisterVehicleFirst
       case Some(v) => Patch(Some(userId), Some(v.id), "accepted"))
    case Start => Patch(None, None, "ongoing")
    case Complete => Patch(None, None, "completed")
  }

  /** The ride once the API has applied a patch field by field: the status
      and, when sent, the driver change, and every other field is kept. */
  function ApplyPatch(r: Ride, o: Outcome): (r2: Ride)
    ensures r2.id == r.id && r2.userId == r.userId && r2.pickup == r.pickup && r2.destination == r.destination
    ensures o.Patch? ==> r2.status == Str(o.status)
    ensures o.Patch? && o.driverId.Some? ==> r2.driverId == o.driverId.value
    ensures o.Patch? && o.driverId.None? ==> r2.driverId == r.driverId
    ensures o == RegisterVehicleFirst ==> r2 == r
  {
    match o
    case RegisterVehicleFirst => r
    case Patch(driverId, _, status) =>
      r.(driverId := if driverId.Some? then driverId.value else r.driverId, status := Str(status))
  }

  /** The buttons walk the status sequence: start and complete move a ride
      to its next status, and accept does too from `requested` (from an
      `accepted` ride that lost its driver it keeps the status). */
  lemma {:induction false} ActionsFollowSequence(r: Ride, userId: Value, a: Action, vehicles: seq<Vehicle>)
    requires a in OfferedActions(r, userId)
    requires ActionOutcome(a, userId, vehicles).Patch?
    ensures r.status.Str?
    ensures ActionOutcome(a, userId, vehicles).status == NextStatus(r.status.s) ||
            (a == Accept && Is(r.status, "accepted") && ActionOutcome(a, userId, vehicles).status == "accepted")
  {
    var o := ActionOutcome(a, userId, vehicles);
    match a
    case Accept =>
      if Is(r.status, "requested") { assert StatusSequence[0] == "requested"; }
    case Start =>
      assert Is(r.status, "accepted") && StatusSequence[1] == "accepted";
    case Complete =>
      assert Is(r.status, "ongoing") && StatusSequence[2] == "ongoing";
  }

  /** A driver with an id and a registered vehicle who accepts a requested
      ride is offered exactly "start" next, then exactly "complete", then
      nothing, and the ride passes through the statuses in order. */
  lemma DriverFlow(r: Ride, userId: Value, vehicles: seq<Vehicle>)
    requires Truthy(userId)
    requires !Truthy(r.driverId) && Is(r.status, "requested")
    requires FindVehicle(vehicles, userId).Some?
    ensures OfferedActions(r, userId) == [Accept]
    ensures var r1 := ApplyPatch(r, ActionOutcome(Accept, userId, vehicles));
            var r2 := ApplyPatch(r1, ActionOutcome(Start, userId, vehicles));
            var r3 := ApplyPatch(r2, ActionOutcome(Complete, userId, vehicles));
            OfferedActions(r1, userId) == [Start] && Is(r1.status, "accepted") &&
            OfferedActions(r2, userId) == [Complete] && Is(r2.status, "ongoing") &&
            OfferedActions(r3, userId) == [] && Is(r3.status, Completed)
  {
    var r1 := r.(driverId := userId, status := Str("accepted"));
    assert ApplyPatch(r, ActionOutcome(Accept, userId, vehicles)) == r1;
    assert IsMyRide(r1, userId);
    assert OfferedActions(r1, userId) == [Start];
    var r2 := r1.(status := Str("ongoing"));
    assert ApplyPatch(r1, ActionOutcome(Start, userId, vehicles)) == r2;
    assert OfferedActions(r2, userId) == [Complete];
    var r3 := r2.(status := Str(Completed));
    assert ApplyPatch(r2, ActionOutcome(Complete, userId, vehicles)) == r3;
    assert OfferedActions(r3, userId) == [];
  }

  /** The passenger's cancel button: offered while the ride is requested or
      accepted. */
  predicate CanCancel(r: Ride) {
    Is(r.status, "requested") || Is(r.status, "accepted")
  }

  /** A ride the passenger can still cancel is not one the driver can
      complete, and one the driver can complete is no longer cancellable. */
  lemma CancelExcludesComplete(r: Ride, userId: Value)
    ensures CanCancel(r) ==> Complete !in OfferedActions(r, userId)
    ensures Complete in OfferedActions(r, userId) ==> !CanCancel(r)
  {
  }
}
