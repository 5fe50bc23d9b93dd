/** The documents the front end receives from the API, reduced to the fields
    its decision rules read. Every field may be missing or `null` in the
    JSON, so each is a `Value`; document ids (`_id`) are always present. */
module Rides {
  import opened JsValues

  datatype Ride = Ride(
    id: string,
    userId: Value,       // `user_id`: the passenger who requested the ride
    driverId: Value,     // `driverID`: set when a driver accepts
    status: Value,
    pickup: Value,
    destination: Value
  )

  datatype User = User(id: string, name: Value, email: Value)

  datatype Vehicle = Vehicle(id: string, driverId: Value)

  datatype Driver = Driver(status: Value, isAvailable: bool)

  datatype Transaction = Transaction(status: Value)

  /** `field === 'text'` for a string literal. */
  predicate Is(v: Value, text: string) {
    v == Str(text)
  }
}
