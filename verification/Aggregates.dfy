/** The StockUnit aggregate: a quantity of a SKU at one bin. */
module Stock {
  import opened Shared

  datatype State = AVAILABLE | RESERVED | PICKED | REMOVED | UNLOCATED

  /** The value of a stock unit at one moment. */
  datatype UnitData = UnitData(sku: Sku, bin: BinId, quantity: Quantity, reserved: Quantity, state: State) {
    predicate Locatable() {
      state != UNLOCATED && state != REMOVED
    }

    function Usable(): Quantity {
      if !Locatable() || reserved > quantity then 0 else quantity - reserved
    }

    function Reserve(qty: Quantity): Result<UnitData> {
      if !Locatable() then Err(UnitUnlocated)
      else if qty > Usable() then Err(UnitInsufficientUsable)
      else Ok(this.(reserved := reserved + qty, state := RESERVED))
    }

    function ReleaseReservation(qty: Quantity): Result<UnitData> {
      if qty > reserved then Err(InsufficientReserved)
      else Ok(this.(reserved := reserved - qty,
                    state := if reserved == qty && state == RESERVED then AVAILABLE else state))
    }

    function Pick(qty: Quantity): Result<UnitData> {
      if qty > reserved || qty > quantity then Err(InsufficientReserved)
      else Ok(this.(reserved := reserved - qty, quantity := quantity - qty,
                    state := if quantity == qty then REMOVED else PICKED))
    }

    function MarkUnlocated(): UnitData {
      this.(state := UNLOCATED)
    }

    /** The lifecycle rules, with the reserved part never above the quantity on hand. */
    predicate Sound() {
      && reserved <= quantity
      && (state == AVAILABLE ==> reserved == 0)
      && (state == RESERVED ==> reserved > 0)
      && (state == REMOVED <==> quantity == 0)
    }
  }

  function NewUnit(sku: Sku, bin: BinId, qty: Quantity): Result<UnitData> {
    if sku == "" || bin == "" then Err(StowRequiresItemAndLocation)
    else if qty == 0 then Err(ZeroQuantity)
    else Ok(UnitData(sku, bin, qty, 0, AVAILABLE))
  }

  /** The aggregate root whose fields the use cases change in place. */
  class StockUnit {
    const id: UnitId
    const sku: Sku
    const bin: BinId
    var quantity: Quantity
    var reserved: Quantity
    var state: State

    function Value(): UnitData
      reads this
    {
      UnitData(sku, bin, quantity, reserved, state)
    }

    constructor (id: UnitId, data: UnitData)
      ensures this.id == id && Value() == data
    {
      this.id, sku, bin := id, data.sku, data.bin;
      quantity, reserved, state := data.quantity, data.reserved, data.state;
    }

    method Reserve(qty: Quantity) returns (r: Outcome)
      modifies this
      ensures Performs(old(Value()), Value(), old(Value()).Reserve(qty), r)
      ensures r == Fail(UnitUnlocated) <==> old(state) == UNLOCATED || old(state) == REMOVED
      ensures r == Pass ==> quantity == old(quantity) && reserved == old(reserved) + qty && state == RESERVED
      ensures r == Pass && qty > 0 ==> reserved <= quantity
      ensures r == Fail(UnitInsufficientUsable) ==> qty > 0 && reserved + qty > quantity
    {
      if state == UNLOCATED || state == REMOVED {
        return Fail(UnitUnlocated);
      }
      if qty > Value().Usable() {
        return Fail(UnitInsufficientUsable);
      }
      reserved := reserved + qty;
      state := RESERVED;
      return Pass;
    }

    method ReleaseReservation(qty: Quantity) returns (r: Outcome)
      modifies this
      ensures Performs(old(Value()), Value(), old(Value()).ReleaseReservation(qty), r)
      ensures r == Pass <==> qty <= old(reserved)
      ensures r == Pass ==> quantity == old(quantity) && reserved + qty == old(reserved)
      ensures state != old(state) <==> r == Pass && old(state) == RESERVED && reserved == 0
      ensures state != old(state) ==> state == AVAILABLE
    {
      if qty > reserved {
        return Fail(InsufficientReserved);
      }
      reserved := reserved - qty;
      if reserved == 0 && state == RESERVED {
        state := AVAILABLE;
      }
      return Pass;
    }

    method Pick(qty: Quantity) returns (r: Outcome)
      modifies this
      ensures Performs(old(Value()), Value(), old(Value()).Pick(qty), r)
      ensures r == Pass <==> qty <= old(reserved) && qty <= old(quantity)
      ensures r == Pass ==> quantity + qty == old(quantity) && reserved + qty == old(reserved)
      ensures r == Pass ==> (state == REMOVED <==> quantity == 0) && (state == PICKED <==> quantity > 0)
    {
      if qty > reserved {
        return Fail(InsufficientReserved);
      }
      if qty > quantity {
        return Fail(InsufficientReserved);
      }
      reserved := reserved - qty;
      quantity := quantity - qty;
      if quantity == 0 {
        state := REMOVED;
      } else {
        state := PICKED;
      }
      return Pass;
    }

    method MarkUnlocated()
      modifies this
      ensures Value() == old(Value()).MarkUnlocated()
      ensures state == UNLOCATED && quantity == old(quantity) && reserved == old(reserved)
    {
      state := UNLOCATED;
    }
  }
}

/** The Bin aggregate: a coded slot whose content never exceeds its capacity. */
module Location {
  import opened Shared

  datatype BinData = BinData(capacity: Quantity, occupied: Quantity) {
    function Occupy(qty: Quantity): Result<BinData> {
      if qty == 0 then Err(ZeroQuantity)
      else if occupied + qty > capacity then Err(BinFull)
      else Ok(this.(occupied := occupied + qty))
    }

    function Release(qty: Quantity): Result<BinData> {
      if qty == 0 then Err(ZeroQuantity)
      else if qty > occupied then Err(ReleaseExceedsOccupancy)
      else Ok(this.(occupied := occupied - qty))
    }

    function Resize(newCapacity: Quantity): Result<BinData> {
      if newCapacity == 0 then Err(InvalidCapacity)
      else if occupied > newCapacity then Err(CapacityBelowOccupancy)
      else Ok(this.(capacity := newCapacity))
    }
  }

  function NewBin(id: BinId, capacity: Quantity): Result<BinData> {
    if id == "" then Err(EmptyBinId)
    else if capacity == 0 then Err(InvalidCapacity)
    else Ok(BinData(capacity, 0))
  }

  class Bin {
    const id: BinId
    var capacity: Quantity
    var occupied: Quantity

    function Value(): BinData
      reads this
    {
      BinData(capacity, occupied)
    }

    constructor (id: BinId, data: BinData)
      ensures this.id == id && Value() == data
    {
      this.id := id;
      capacity, occupied := data.capacity, data.occupied;
    }

    method Occupy(qty: Quantity) returns (r: Outcome)
      modifies this
      ensures Performs(old(Value()), Value(), old(Value()).Occupy(qty), r)
      ensures r == Pass <==> qty > 0 && old(occupied) + qty <= capacity
      ensures r == Pass ==> occupied == old(occupied) + qty
      ensures r == Fail(ZeroQuantity) <==> qty == 0
    {
      if qty == 0 {
        return Fail(ZeroQuantity);
      }
      if occupied + qty > capacity {
        return Fail(BinFull);
      }
      occupied := occupied + qty;
      return Pass;
    }

    method Release(qty: Quantity) returns (r: Outcome)
      modifies this
      ensures Performs(old(Value()), Value(), old(Value()).Release(qty), r)
      ensures r == Pass <==> 0 < qty <= old(occupied)
      ensures r == Pass ==> occupied + qty == old(occupied) && capacity == old(capacity)
      ensures r == Fail(ZeroQuantity) <==> qty == 0
    {
      if qty == 0 {
        return Fail(ZeroQuantity);
      }
      if qty > occupied {
        return Fail(ReleaseExceedsOccupancy);
      }
      occupied := occupied - qty;
      return Pass;
    }

    method Resize(newCapacity: Quantity) returns (r: Outcome)
      modifies this
      ensures Performs(old(Value()), Value(), old(Value()).Resize(newCapacity), r)
      ensures r == Pass <==> newCapacity > 0 && occupied <= newCapacity
      ensures r == Pass ==> capacity == newCapacity && occupied == old(occupied)
      ensures r == Fail(InvalidCapacity) <==> newCapacity == 0
    {
      if newCapacity == 0 {
        return Fail(InvalidCapacity);
      }
      if occupied > newCapacity {
        return Fail(CapacityBelowOccupancy);
      }
      capacity := newCapacity;
      return Pass;
    }
  }
}

/** The Reservation aggregate: a revocable claim of a quantity, and the units it was drawn from. */
module Claims {
  import opened Shared

  datatype Status = ACTIVE | CONFIRMED | REVOKED | EXPIRED

  datatype Allocation = Allocation(unit: UnitId, bin: BinId, quantity: Quantity)

  datatype ResWith<A> = ResData(sku: Sku, quantity: Quantity, demandRef: string, allocations: A,
                                status: Status, createdAt: Time, expiresAt: Time)
  {
    predicate IsExpired(now: Time) {
      now > expiresAt
    }

    /** Leaving ACTIVE: Revoke, Confirm and Expire differ only in the status they leave behind. */
    function Resolve(to: Status): Result<ResWith<A>> {
      if status != ACTIVE then Err(AlreadyResolved) else Ok(this.(status := to))
    }

    function Confirm(now: Time): Result<ResWith<A>> {
      if status == ACTIVE && IsExpired(now) then Err(Expired) else Resolve(CONFIRMED)
    }
  }

  /** The list is kept as a type argument: it spares the solver the structural order on sequences. */
  type ResData = ResWith<seq<Allocation>>

  function NewReservation(sku: Sku, quantity: Quantity, demandRef: string, allocations: seq<Allocation>,
                          createdAt: Time, timeout: int): Result<ResData>
  {
    if allocations == [] then Err(NoAllocations)
    else Ok(ResData(sku, quantity, demandRef, allocations, ACTIVE, createdAt, createdAt + timeout))
  }

  class Reservation {
    const id: ResId
    const sku: Sku
    const quantity: Quantity
    const demandRef: string
    const allocations: seq<Allocation>
    var status: Status
    const createdAt: Time
    const expiresAt: Time

    function Value(): ResData
      reads this
    {
      ResData(sku, quantity, demandRef, allocations, status, createdAt, expiresAt)
    }

    constructor (id: ResId, data: ResData)
      ensures this.id == id && Value() == data
    {
      this.id, sku, quantity, demandRef := id, data.sku, data.quantity, data.demandRef;
      allocations, status := data.allocations, data.status;
      createdAt, expiresAt := data.createdAt, data.expiresAt;
    }

    method Revoke() returns (r: Outcome)
      modifies this
      ensures Performs(old(Value()), Value(), old(Value()).Resolve(REVOKED), r)
      ensures if old(status) == ACTIVE then r == Pass && status == REVOKED else r == Fail(AlreadyResolved) && status == old(status)
    {
      if status != ACTIVE {
        return Fail(AlreadyResolved);
      }
      status := REVOKED;
      return Pass;
    }

    method Confirm(now: Time) returns (r: Outcome)
      modifies this
      ensures Performs(old(Value()), Value(), old(Value()).Confirm(now), r)
      ensures r == Pass <==> old(status) == ACTIVE && now <= expiresAt
      ensures r == Pass ==> status == CONFIRMED
      ensures r == Fail(Expired) <==> old(status) == ACTIVE && now > expiresAt
    {
      if status != ACTIVE {
        return Fail(AlreadyResolved);
      }
      if Value().IsExpired(now) {
        return Fail(Expired);
      }
      status := CONFIRMED;
      return Pass;
    }

    method Expire() returns (r: Outcome)
      modifies this
      ensures Performs(old(Value()), Value(), old(Value()).Resolve(EXPIRED), r)
      ensures if old(status) == ACTIVE then r == Pass && status == EXPIRED else r == Fail(AlreadyResolved) && status == old(status)
    {
      if status != ACTIVE {
        return Fail(AlreadyResolved);
      }
      status := EXPIRED;
      return Pass;
    }
  }
}
