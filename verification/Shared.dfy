/** Value objects, identifiers and error results common to every aggregate. */
module Shared {
  /** A count of units; never negative by construction. */
  type Quantity = nat
  /** The serial number behind a generated id such as "su-7". */
  type UnitId = nat
  /** The serial number behind a generated id such as "res-7". */
  type ResId = nat
  type Sku = string
  type BinId = string
  type Time = int

  datatype Option<+T> = None | Some(value: T)

  datatype Error =
    | ZeroQuantity | EmptyBinId
    | StowRequiresItemAndLocation | UnitInsufficientUsable | UnitUnlocated | InsufficientReserved
    | BinFull | InvalidCapacity | ReleaseExceedsOccupancy | CapacityBelowOccupancy
    | AlreadyResolved | Expired | NoAllocations
    | StockUnitNotFound | BinNotFound | ReservationNotFound | InsufficientUsable
    | HazmatZoneRequired | TemperatureClassMismatch | LocationClassificationUnavailable
    | HazmatClassIncompatible | ConcurrentModification

  datatype Result<+T> = Ok(value: T) | Err(error: Error)

  datatype Outcome = Pass | Fail(error: Error)

  /** What a state-changing operation leaves behind: the specified new value, or the old value and the error. */
  ghost predicate Performs<T>(before: T, after: T, spec: Result<T>, r: Outcome) {
    match spec
    case Ok(v) => r == Pass && after == v
    case Err(e) => r == Fail(e) && after == before
  }

  /** An order in which a repository may return the keys of a selection: each exactly once, in any sequence. */
  ghost predicate OrderOf<K(!new)>(order: seq<K>, keys: set<K>) {
    && (forall k :: k in keys <==> k in order)
    && forall i, j :: 0 <= i < j < |order| ==> order[i] != order[j]
  }
}
