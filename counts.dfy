/** The numbers on the dashboards and the analytics charts: rides per
    status, drivers available, busy or neither, transactions per status,
    and the driver's and passenger's personal counters. */
module Counts {
  import opened JsValues
  import opened Rides
  import opened Seqs

  // ---- the analytics charts ----

  datatype RideStatusCounts = RideStatusCounts(requested: nat, accepted: nat, ongoing: nat, completed: nat)

  /** The ride-status chart: the four counts never add up to more than the
      number of rides (rides of any other status, `cancelled` among them,
      are in no slice), and each count is at most the total. */
  function RideStatusCountsOf(rides: seq<Ride>): (c: RideStatusCounts)
    ensures c.requested + c.accepted + c.ongoing + c.completed <= |rides|
    ensures c.requested + c.accepted + c.ongoing + c.completed + Count(rides, (r: Ride) => !InStatusChart(r)) == |rides|
  {
    FourStatusesPartition(rides);
    RideStatusCounts(
      Count(rides, (r: Ride) => Is(r.status, "requested")),
      Count(rides, (r: Ride) => Is(r.status, "accepted")),
      Count(rides, (r: Ride) => Is(r.status, "ongoing")),
      Count(rides, (r: Ride) => Is(r.status, "completed")))
  }

  predicate InStatusChart(r: Ride) {
    Is(r.status, "requested") || Is(r.status, "accepted") || Is(r.status, "ongoing") || Is(r.status, "completed")
  }

  lemma {:induction false} FourStatusesPartition(rides: seq<Ride>)
    ensures Count(rides, (r: Ride) => Is(r.status, "requested")) + Count(rides, (r: Ride) => Is(r.status, "accepted")) +
            Count(rides, (r: Ride) => Is(r.status, "ongoing")) + Count(rides, (r: Ride) => Is(r.status, "completed")) +
            Count(rides, (r: Ride) => !InStatusChart(r)) == |rides|
  {
    if rides != [] {
      FourStatusesPartition(rides[1..]);
    }
  }

  /** The availability rule: status `available`, or no status and the
      `isAvailable` flag set. */
  predicate AvailableDriver(d: Driver) {
    Is(d.status, "available") || (!Truthy(d.status) && d.isAvailable)
  }

  predicate BusyDriver(d: Driver) {
    Is(d.status, "busy")
  }

  /** No driver is both available and busy: a busy driver's status is the
      present text "busy", which is neither "available" nor falsy. */
  lemma AvailableAndBusyDisjoint(d: Driver)
    ensures !(AvailableDriver(d) && BusyDriver(d))
  {
  }

  datatype Availability = Availability(available: nat, busy: nat, unavailable: int)

  /** The driver-availability chart: no driver is both available and busy,
      so the remainder is never negative, it counts exactly the drivers
      that are neither, and the three slices add up to the drivers. */
  function AvailabilityOf(drivers: seq<Driver>): (a: Availability)
    ensures a.unavailable >= 0
    ensures a.available + a.busy + a.unavailable == |drivers|
    ensures a.unavailable == Count(drivers, UnavailableDriver)
  {
    var available := Count(drivers, AvailableDriver);
    var busy := Count(drivers, BusyDriver);
    AvailabilityPartition(drivers);
    Availability(available, busy, |drivers| - available - busy)
  }

  predicate UnavailableDriver(d: Driver) {
    !AvailableDriver(d) && !BusyDriver(d)
  }

  lemma {:induction false} AvailabilityPartition(drivers: seq<Driver>)
    ensures Count(drivers, AvailableDriver) + Count(drivers, BusyDriver) + Count(drivers, UnavailableDriver) == |drivers|
  {
    if drivers != [] {
      AvailabilityPartition(drivers[1..]);
    }
  }

  /** The administrator's dashboard counts a driver as available by the flag
      alone, so it and the chart can disagree either way. */
  lemma DashboardAndChartDisagree()
    ensures var d := Driver(Str("busy"), true); d.isAvailable && !AvailableDriver(d) && BusyDriver(d)
    ensures var d := Driver(Str("available"), false); !d.isAvailable && AvailableDriver(d)
  {
  }

  datatype TransactionCounts = TransactionCounts(pending: nat, completed: nat, failed: nat)

  /** The transaction chart: the three counts add up to at most the number
      of transactions. */
  function TransactionCountsOf(ts: seq<Transaction>): (c: TransactionCounts)
    ensures c.pending + c.completed + c.failed <= |ts|
  {
    ThreeStatusesBound(ts);
    TransactionCounts(
      Count(ts, (t: Transaction) => Is(t.status, "pending")),
      Count(ts, (t: Transaction) => Is(t.status, "completed")),
      Count(ts, (t: Transaction) => Is(t.status, "failed")))
  }

  lemma {:induction false} ThreeStatusesBound(ts: seq<Transaction>)
    ensures Count(ts, (t: Transaction) => Is(t.status, "pending")) + Count(ts, (t: Transaction) => Is(t.status, "completed")) +
            Count(ts, (t: Transaction) => Is(t.status, "failed")) <= |ts|
  {
    if ts != [] {
      ThreeStatusesBound(ts[1..]);
    }
  }

  // ---- the personal dashboards ----

  /** The driver's "accepted rides": those whose driver id strictly equals
      the visitor's. */
  predicate AcceptedBy(r: Ride, userId: Value) {
    r.driverId == userId
  }

  /** The driver's "available rides": no driver yet and still requested. */
  predicate OpenRide(r: Ride) {
    !Truthy(r.driverId) && Is(r.status, "requested")
  }

  /** For a driver with a non-empty id the two counters never count the
      same ride, so together they are at most the number of rides; the
      in-progress and completed counters are parts of the accepted one. */
  lemma DriverCountersDisjoint(rides: seq<Ride>, userId: Value)
    requires Truthy(userId)
    ensures Count(rides, (r: Ride) => AcceptedBy(r, userId)) + Count(rides, OpenRide) <= |rides|
    ensures var mine := Filter(rides, r => AcceptedBy(r, userId));
            Count(mine, (r: Ride) => Is(r.status, "ongoing")) + Count(mine, (r: Ride) => Is(r.status, "completed")) <= |mine|
  {
    var mine := Filter(rides, r => AcceptedBy(r, userId));
    CountDisjoint(rides, r => AcceptedBy(r, userId), OpenRide);
    CountDisjoint(mine, (r: Ride) => Is(r.status, "ongoing"), (r: Ride) => Is(r.status, "completed"));
  }

  /** A driver whose stored id is `null` has every open ride whose driver
      field is `null` counted twice, as open and as accepted. */
  lemma NullDriverCountsOpenRideTwice(r: Ride)
    requires r.driverId == Null && Is(r.status, "requested")
    ensures AcceptedBy(r, Null) && OpenRide(r)
  {
  }

  /** The passenger's counters: their rides by strict id equality, and the
      requested, in-progress and completed ones among them, which add up to
      at most their total. */
  lemma PassengerCountersBound(rides: seq<Ride>, userId: Value)
    ensures var mine := Filter(rides, (r: Ride) => r.userId == userId);
            Count(mine, (r: Ride) => Is(r.status, "requested")) + Count(mine, (r: Ride) => Is(r.status, "ongoing")) +
            Count(mine, (r: Ride) => Is(r.status, "completed")) <= |mine| <= |rides|
  {
    var mine := Filter(rides, (r: Ride) => r.userId == userId);
    FilterLength(rides, (r: Ride) => r.userId == userId);
    CountDisjoint(mine, (r: Ride) => Is(r.status, "requested"), (r: Ride) => Is(r.status, "ongoing"));
    CountDisjoint(mine, (r: Ride) => Is(r.status, "requested") || Is(r.status, "ongoing"), (r: Ride) => Is(r.status, "completed"));
    PassengerCountersSplit(mine);
  }

  lemma {:induction false} PassengerCountersSplit(mine: seq<Ride>)
    ensures Count(mine, (r: Ride) => Is(r.status, "requested")) + Count(mine, (r: Ride) => Is(r.status, "ongoing")) ==
            Count(mine, (r: Ride) => Is(r.status, "requested") || Is(r.status, "ongoing"))
  {
    if mine != [] {
      PassengerCountersSplit(mine[1..]);
    }
  }
}
