/** The use cases over the in-memory repositories: objects changed in place, then saved, one call at a time. */
module Warehouses {
  import opened Shared
  import opened Stock
  import opened Location
  import opened Claims
  import opened Sums
  import opened Ledger
  import opened Transitions
  import opened GreedyAllocation
  import opened CycleCounting
  import opened Product
  import opened Segregation
  import opened UseCases
  import opened Sequential
  import opened CallPromises
  import opened Sweeps
  import opened Repositories
  import opened AllocationLoop
  import opened CountLoop

  /** The application wired to its in-memory adapters. */
  class Warehouse {
    const stock: StockRepo
    const locations: LocationRepo
    const reservations: ReservationRepo
    const classes: Classes
    const matrix: array2<bool>
    var log: seq<Event>

    ghost function Footprint(): set<object>
      reads this, stock, locations, reservations
    {
      {this, stock, locations, reservations} + stock.units.Values + locations.bins.Values + reservations.items.Values
    }

    ghost function TheBooks(): Books
      reads this, stock, locations, reservations, Footprint()
    {
      Books(stock.View(), locations.View(), reservations.View(), log)
    }

    /** The repositories are well formed. */
    ghost predicate Shaped()
      reads this, stock, locations, reservations
    {
      stock.Valid() && locations.Valid() && reservations.Valid()
    }

    /** What holds between calls: every law of the books, exactly. */
    ghost predicate Valid()
      reads this, stock, locations, reservations, matrix, Footprint()
    {
      Shaped() && IsMatrix(matrix) && Sequential.Orderly(TheBooks(), ApartBy(classes))
    }

    constructor (classes: Classes)
      ensures Valid() && TheBooks() == NO_BOOKS && fresh(Footprint()) && this.classes == classes
    {
      this.classes := classes;
      stock := new StockRepo();
      locations := new LocationRepo();
      reservations := new ReservationRepo();
      var built := BuildMatrix();
      matrix := built;
      log := [];
      new;
      assert TheBooks() == NO_BOOKS;
      NothingIsOrderly(ApartBy(classes));
    }

    // ---- resolving

    /** Give one allocation back to its unit and save the unit. */
    method ReleaseOne(a: Allocation) returns (out: Outcome)
      requires Shaped()
      modifies stock`units, stock.units.Values
      ensures Shaped() && stock.units == old(stock.units)
      ensures SweepOne(old(stock.View()), map[], a, REVOKED) == Swept(stock.View(), map[], out)
    {
      var unit := stock.FindById(a.unit);
      if unit == null {
        return Fail(StockUnitNotFound);
      }
      ghost var before := stock.View();
      out := unit.ReleaseReservation(a.quantity);
      assert stock.View() == before[unit.id := unit.Value()];
      if out.Fail? {
        assert stock.View() == before;
        return;
      }
      stock.Save(unit);
    }

    /** Give every allocation back to its unit, stopping at the first error. */
    method ReleaseAllocations(res: Reservation) returns (out: Outcome)
      requires Shaped()
      modifies stock`units, stock.units.Values
      ensures Shaped() && stock.units == old(stock.units)
      ensures Sweep(old(stock.View()), map[], res.allocations, REVOKED) == Swept(stock.View(), map[], out)
    {
      hide Sweep, SweepOne;
      var allocs := res.allocations;
      ghost var units := stock.View();
      SweepNothing(units, map[], allocs, REVOKED);
      var i := 0;
      while i < |allocs|
        invariant 0 <= i <= |allocs|
        invariant Shaped() && stock.units == old(stock.units)
        invariant Sweep(units, map[], allocs[..i], REVOKED) == Swept(stock.View(), map[], Pass)
      {
        SweepNext(units, map[], allocs, i, REVOKED);
        out := ReleaseOne(allocs[i]);
        if out.Fail? {
          SweepStops(units, map[], allocs, i + 1, REVOKED);
          return;
        }
        i := i + 1;
      }
      assert allocs[..i] == allocs;
      return Pass;
    }

    /** Pick from a unit and save it. */
    method PickUnit(id: UnitId, qty: Quantity) returns (out: Outcome, bin: BinId)
      requires Shaped()
      modifies stock`units, stock.units.Values
      ensures Shaped() && stock.units == old(stock.units)
      ensures var units := old(stock.View());
        if id !in units then out == Fail(StockUnitNotFound) && stock.View() == units
        else match units[id].Pick(qty)
          case Err(e) => out == Fail(e) && stock.View() == units
          case Ok(unit) => out == Pass && stock.View() == units[id := unit] && bin == unit.bin
    {
      bin := "";
      var unit := stock.FindById(id);
      if unit == null {
        return Fail(StockUnitNotFound), bin;
      }
      bin := unit.bin;
      ghost var before := stock.View();
      out := unit.Pick(qty);
      assert stock.View() == before[unit.id := unit.Value()];
      if out.Fail? {
        assert stock.View() == before;
        return;
      }
      stock.Save(unit);
    }

    /** Free capacity in a bin and save it. */
    method FreeBin(id: BinId, qty: Quantity) returns (out: Outcome)
      requires Shaped()
      modifies locations`bins, locations.bins.Values
      ensures Shaped() && locations.bins == old(locations.bins)
      ensures var bins := old(locations.View());
        if id !in bins then out == Fail(BinNotFound) && locations.View() == bins
        else match bins[id].Release(qty)
          case Err(e) => out == Fail(e) && locations.View() == bins
          case Ok(bin) => out == Pass && locations.View() == bins[id := bin]
    {
      var bin := locations.FindById(id);
      if bin == null {
        return Fail(BinNotFound);
      }
      ghost var before := locations.View();
      out := bin.Release(qty);
      assert locations.View() == before[bin.id := bin.Value()];
      if out.Fail? {
        assert locations.View() == before;
        return;
      }
      locations.Save(bin);
    }

    /** Pick one allocation from its unit and free as much in the unit's bin. */
    method PickFromBin(id: UnitId, qty: Quantity, ghost a: Allocation) returns (out: Outcome)
      requires Shaped() && a.unit == id && a.quantity == qty
      modifies stock`units, stock.units.Values, locations`bins, locations.bins.Values
      ensures Shaped() && stock.units == old(stock.units) && locations.bins == old(locations.bins)
      ensures SweepOne(old(stock.View()), old(locations.View()), a, CONFIRMED) == Swept(stock.View(), locations.View(), out)
    {
      hide StockRepo.View, LocationRepo.View;
      var bin: BinId;
      out, bin := PickUnit(id, qty);
      if out.Pass? {
        out := FreeBin(bin, qty);
      }
    }

    /** Pick every allocation, stopping at the first error. */
    method PickAll(res: Reservation) returns (out: Outcome)
      requires Shaped()
      modifies stock`units, stock.units.Values, locations`bins, locations.bins.Values
      ensures Shaped() && stock.units == old(stock.units) && locations.bins == old(locations.bins)
      ensures Sweep(old(stock.View()), old(locations.View()), res.allocations, CONFIRMED) ==
              Swept(stock.View(), locations.View(), out)
    {
      hide Sweep, SweepOne;
      var allocs := res.allocations;
      ghost var units, bins := stock.View(), locations.View();
      SweepNothing(units, bins, allocs, CONFIRMED);
      var i := 0;
      while i < |allocs|
        invariant 0 <= i <= |allocs|
        invariant Shaped() && stock.units == old(stock.units) && locations.bins == old(locations.bins)
        invariant Sweep(units, bins, allocs[..i], CONFIRMED) == Swept(stock.View(), locations.View(), Pass)
      {
        SweepNext(units, bins, allocs, i, CONFIRMED);
        out := PickFromBin(allocs[i].unit, allocs[i].quantity, allocs[i]);
        if out.Fail? {
          SweepStops(units, bins, allocs, i + 1, CONFIRMED);
          return;
        }
        i := i + 1;
      }
      assert allocs[..i] == allocs;
      return Pass;
    }

    /** The reservation is the stored object of its id. */
    ghost predicate Has(res: Reservation)
      reads reservations
    {
      res.id in reservations.items && reservations.items[res.id] == res
    }

    /** Only what a resolution touches has changed: the same objects are stored. */
    twostate predicate SameObjects()
      reads stock, locations, reservations
    {
      && stock.units == old(stock.units) && stock.nextId == old(stock.nextId)
      && locations.bins == old(locations.bins)
      && reservations.items == old(reservations.items) && reservations.nextId == old(reservations.nextId)
    }

    lemma ReservationAt(res: Reservation)
      requires Shaped() && Has(res)
      ensures res.id in TheBooks().reservations && TheBooks().reservations[res.id] == res.Value()
    {
    }

    /** Change a stored reservation's status, as its aggregate allows. */
    method MarkExpired(res: Reservation) returns (out: Outcome)
      requires Shaped() && Has(res)
      modifies res
      ensures Performs(old(res.Value()), res.Value(), old(res.Value()).Resolve(EXPIRED), out)
      ensures reservations.View() == old(reservations.View())[res.id := res.Value()]
    {
      out := res.Expire();
    }

    /** Save a reservation changed in place and publish its event. */
    method SaveAndPublish(res: Reservation, e: Event)
      requires Shaped() && Has(res)
      modifies reservations`items, this`log
      ensures Shaped() && reservations.items == old(reservations.items)
      ensures TheBooks() == old(TheBooks()).(log := old(log) + [e])
    {
      hide StockRepo.View, LocationRepo.View, ReservationRepo.View;
      reservations.Save(res);
      log := log + [e];
    }

    /** The atomic part of an expiry: give back, change the status, save, publish; a failed release stops it. */
    method Expire(res: Reservation) returns (out: Outcome)
      requires Shaped() && Has(res) && res.status == ACTIVE
      modifies Footprint()
      ensures Shaped() && SameObjects()
      ensures var b := old(TheBooks());
        var s := Sweep(b.units, map[], res.allocations, REVOKED);
        && out == s.out
        && TheBooks() == if out.Fail? then b.(units := s.units)
                         else Books(s.units, b.bins, b.reservations[res.id := b.reservations[res.id].(status := EXPIRED)],
                                    b.log + [ReservationExpired(res.id, res.sku)])
    {
      hide Sweep, StockRepo.View, LocationRepo.View, ReservationRepo.View;
      ReservationAt(res);
      out := ReleaseAllocations(res);
      if out.Fail? {
        return;
      }
      out := MarkExpired(res);
      if out.Fail? {
        return;
      }
      SaveAndPublish(res, ReservationExpired(res.id, res.sku));
    }

    /** Resolve a timed-out ACTIVE reservation the moment it is looked up; leave any other as it is. */
    method ExpireIfDue(res: Reservation, now: Time) returns (out: Outcome)
      requires Valid() && Has(res)
      modifies Footprint()
      ensures Valid() && SameObjects() && out == Pass
      ensures if old(res.Value()).status == ACTIVE && old(res.Value()).IsExpired(now)
              then Resolves(old(TheBooks()), res.id, EXPIRED, TheBooks())
              else TheBooks() == old(TheBooks())
    {
      hide Sequential.Orderly, Sweep, StockRepo.View, LocationRepo.View, ReservationRepo.View, Resolves;
      ReservationAt(res);
      if res.status != ACTIVE {
        return Pass;
      }
      if !res.Value().IsExpired(now) {
        return Pass;
      }
      GivesBack(TheBooks(), res.id, EXPIRED, ApartBy(classes));
      out := Expire(res);
    }

    method MarkRevoked(res: Reservation) returns (out: Outcome)
      requires Shaped() && Has(res)
      modifies res
      ensures Performs(old(res.Value()), res.Value(), old(res.Value()).Resolve(REVOKED), out)
      ensures reservations.View() == old(reservations.View())[res.id := res.Value()]
    {
      out := res.Revoke();
    }

    method MarkConfirmed(res: Reservation, now: Time) returns (out: Outcome)
      requires Shaped() && Has(res)
      modifies res
      ensures Performs(old(res.Value()), res.Value(), old(res.Value()).Confirm(now), out)
      ensures reservations.View() == old(reservations.View())[res.id := res.Value()]
    {
      out := res.Confirm(now);
    }

    /** The atomic part of a revocation, whose status has already changed in memory. */
    method GiveBackRevoked(res: Reservation) returns (out: Outcome)
      requires Shaped() && Has(res)
      modifies Footprint()
      ensures Shaped() && SameObjects()
      ensures var b := old(TheBooks());
        var s := Sweep(b.units, map[], res.allocations, REVOKED);
        && out == s.out
        && TheBooks() == if out.Fail? then b.(units := s.units)
                         else b.(units := s.units, log := b.log + [ReservationRevoked(res.id, res.sku)])
    {
      hide Sweep, StockRepo.View, LocationRepo.View, ReservationRepo.View;
      out := ReleaseAllocations(res);
      if out.Fail? {
        return;
      }
      SaveAndPublish(res, ReservationRevoked(res.id, res.sku));
    }

    /** Cancel a reservation and give its quantity back. */
    method Revoke(id: ResId, now: Time) returns (out: Outcome)
      requires Valid()
      modifies Footprint()
      ensures Valid() && SameObjects()
      ensures Revoked(old(TheBooks()), id, now, TheBooks(), out)
    {
      hide Sequential.Orderly, Sweep, StockRepo.View, LocationRepo.View, ReservationRepo.View, Resolves;
      StoredIds();
      var res := reservations.FindById(id);
      if res == null {
        return Fail(ReservationNotFound);
      }
      ReservationAt(res);
      out := ExpireIfDue(res, now);
      if out.Fail? {
        return;
      }
      ResolvedStatus(old(TheBooks()), TheBooks(), id, EXPIRED);
      out := RevokeLive(res);
    }

    /** Revocation once expiry has had its turn: only a reservation still ACTIVE is revoked. */
    method RevokeLive(res: Reservation) returns (out: Outcome)
      requires Valid() && Has(res)
      modifies Footprint()
      ensures Valid() && SameObjects()
      ensures var b := old(TheBooks());
        if res.id in b.reservations && b.reservations[res.id].status == ACTIVE
        then Resolves(b, res.id, REVOKED, TheBooks()) && out == Pass
        else TheBooks() == b && out == Fail(AlreadyResolved)
    {
      hide Sequential.Orderly, Sweep, StockRepo.View, LocationRepo.View, ReservationRepo.View, Resolves;
      ReservationAt(res);
      ghost var b := TheBooks();
      out := MarkRevoked(res);
      if out.Fail? {
        assert TheBooks() == b;
        return;
      }
      GivesBack(b, res.id, REVOKED, ApartBy(classes));
      out := GiveBackRevoked(res);
    }

    /** What the repository stores is what the books show. */
    lemma StoredIds()
      requires Shaped()
      ensures TheBooks().reservations.Keys == reservations.items.Keys
      ensures forall r :: r in reservations.items ==> Has(reservations.items[r])
    {
    }

    /** Consume a reservation: pick its units and free their bins. */
    method Confirm(id: ResId, first: Time, second: Time) returns (out: Outcome)
      requires Valid()
      modifies Footprint()
      ensures Valid() && SameObjects()
      ensures Confirmed(old(TheBooks()), id, first, second, TheBooks(), out)
    {
      hide Sequential.Orderly, Sweep, StockRepo.View, LocationRepo.View, ReservationRepo.View, Resolves;
      StoredIds();
      var res := reservations.FindById(id);
      if res == null {
        return Fail(ReservationNotFound);
      }
      ReservationAt(res);
      out := ExpireIfDue(res, first);
      if out.Fail? {
        return;
      }
      ResolvedStatus(old(TheBooks()), TheBooks(), id, EXPIRED);
      out := ConfirmLive(res, second);
    }

    /** Confirmation once expiry has had its turn: only an ACTIVE reservation not yet run out is picked. */
    method ConfirmLive(res: Reservation, now: Time) returns (out: Outcome)
      requires Valid() && Has(res)
      modifies Footprint()
      ensures Valid() && SameObjects()
      ensures var b := old(TheBooks());
        if res.id !in b.reservations || b.reservations[res.id].status != ACTIVE
        then TheBooks() == b && out == Fail(AlreadyResolved)
        else if b.reservations[res.id].IsExpired(now) then TheBooks() == b && out == Fail(Expired)
        else Resolves(b, res.id, CONFIRMED, TheBooks()) && out == Pass
    {
      hide Sequential.Orderly, Sweep, StockRepo.View, LocationRepo.View, ReservationRepo.View, Resolves;
      ReservationAt(res);
      ghost var b := TheBooks();
      out := MarkConfirmed(res, now);
      if out.Fail? {
        assert TheBooks() == b;
        return;
      }
      Picks(b, res.id, ApartBy(classes));
      out := PickConfirmed(res);
    }

    /** The atomic part of a confirmation, whose status has already changed in memory. */
    method PickConfirmed(res: Reservation) returns (out: Outcome)
      requires Shaped() && Has(res)
      modifies Footprint()
      ensures Shaped() && SameObjects()
      ensures var b := old(TheBooks());
        var s := Sweep(b.units, b.bins, res.allocations, CONFIRMED);
        && out == s.out
        && TheBooks() == if out.Fail? then b.(units := s.units, bins := s.bins)
                         else b.(units := s.units, bins := s.bins, log := b.log + [StockPicked(res.id, res.sku, res.quantity)])
    {
      hide Sweep, StockRepo.View, LocationRepo.View, ReservationRepo.View, StockRepo.Valid, LocationRepo.Valid,
        ReservationRepo.Valid;
      out := PickAll(res);
      if out.Fail? {
        return;
      }
      SaveAndPublish(res, StockPicked(res.id, res.sku, res.quantity));
    }

    // ---- reserving

    /** Expire every listed reservation that is due, in the order listed, each in an atomic scope of its own. */
    method ExpireAllIfDue(found: seq<Reservation>, ref: string, clock: Clock) returns (out: Outcome)
      requires Valid() && reservations.Holds(found) && OrderOf(ResIds(found), MadeFor(TheBooks(), ref))
      modifies Footprint()
      ensures Valid() && SameObjects() && out == Pass
      ensures ExpiresDue(old(TheBooks()), ref, clock, TheBooks())
    {
      hide Sequential.Orderly, StockRepo.View, LocationRepo.View, ReservationRepo.View, Resolves, Expires;
      ghost var b, ids := TheBooks(), ResIds(found);
      ghost var done: seq<ResId> := [];
      NothingExpired(b, ids, ref, clock);
      var i := 0;
      while i < |found|
        invariant 0 <= i <= |found|
        invariant Valid() && SameObjects()
        invariant ExpiredSoFar(b, ids[..i], done, ref, clock, TheBooks())
      {
        ghost var m := TheBooks();
        ReservationAt(found[i]);
        out := ExpireIfDue(found[i], clock(found[i].id));
        if out.Fail? {
          return;
        }
        ExpiryStep(b, ids, i, done, ref, clock, m, TheBooks());
        if IsDue(m.reservations[ids[i]], ref, clock(ids[i])) {
          done := done + [ids[i]];
        }
        i := i + 1;
      }
      assert ids[..i] == ids;
      AllExpired(b, ids, done, ref, clock, TheBooks());
      return Pass;
    }

    /** The first listed reservation that a repeated request would have made. */
    method OpenAmong(found: seq<Reservation>, ref: string, sku: Sku, qty: Quantity) returns (open: Reservation?)
      requires Valid() && reservations.Holds(found) && OrderOf(ResIds(found), MadeFor(TheBooks(), ref))
      ensures if open != null
              then Has(open) && open.id in TheBooks().reservations && IsReplay(TheBooks().reservations[open.id], sku, qty, ref)
              else NoReplay(TheBooks(), sku, qty, ref)
    {
      hide Sequential.Orderly, StockRepo.View, LocationRepo.View;
      var i := 0;
      while i < |found|
        invariant 0 <= i <= |found|
        invariant forall k :: 0 <= k < i ==> !IsReplay(found[k].Value(), sku, qty, ref)
      {
        ReservationAt(found[i]);
        if found[i].status == ACTIVE && found[i].sku == sku && found[i].quantity == qty {
          assert ResIds(found)[i] in MadeFor(TheBooks(), ref);
          return found[i];
        }
        i := i + 1;
      }
      forall r | r in TheBooks().reservations ensures !IsReplay(TheBooks().reservations[r], sku, qty, ref) {
        if r in MadeFor(TheBooks(), ref) {
          var k :| 0 <= k < |found| && ResIds(found)[k] == r;
          ReservationAt(found[k]);
        }
      }
      return null;
    }

    /** The open reservation a repeated request would have made, once expiry has had its turn. */
    method ActiveReservationFor(ref: string, sku: Sku, qty: Quantity, clock: Clock) returns (open: Reservation?)
      requires Valid()
      modifies Footprint()
      ensures Valid() && SameObjects()
      ensures ExpiresDue(old(TheBooks()), ref, clock, TheBooks())
      ensures if open != null
              then Has(open) && open.id in TheBooks().reservations && IsReplay(TheBooks().reservations[open.id], sku, qty, ref)
              else NoReplay(TheBooks(), sku, qty, ref)
    {
      hide Sequential.Orderly, StockRepo.View, LocationRepo.View, ReservationRepo.View, ExpiresDue, NoReplay;
      var found := reservations.FindByDemandRef(ref);
      FoundForDemand(ref, found);
      ghost var b := TheBooks();
      var expired := ExpireAllIfDue(found, ref, clock);
      StillMadeFor(b, TheBooks(), ref, clock);
      open := OpenAmong(found, ref, sku, qty);
    }

    /** Draw the quantity from the SKU's units and save each one drawn on, in statements of their own. */
    method DrawUnits(sku: Sku, qty: Quantity) returns (r: Result<seq<Allocation>>, ghost order: seq<UnitId>)
      requires Shaped()
      modifies stock`units, stock.units.Values
      ensures Shaped() && stock.units == old(stock.units)
      ensures var b := old(TheBooks());
        && OrderOf(order, UnitsOf(b.units, sku))
        && if qty > TotalUsable(order, b.units) then r == Err(InsufficientUsable) && TheBooks() == b
           else
             && r == Ok(Greedy(order, b.units, qty))
             && UnitsDrawn(b.units, Greedy(order, b.units, qty), TheBooks().units)
             && TheBooks() == b.(units := TheBooks().units)
    {
      hide Greedy, TotalUsable, UnitsDrawn, StockRepo.View, LocationRepo.View, ReservationRepo.View, OrderOf, UnitsOf, Distinct;
      var found := stock.FindBySku(sku);
      order := UnitIds(found);
      SkuOrder(order, TheBooks().units, sku);
      var touched;
      r, touched := Allocate(stock, found, qty);
      if r.Err? {
        return;
      }
      SaveAll(touched);
    }

    /** Save units one by one, each in a statement of its own. */
    method SaveAll(touched: seq<StockUnit>)
      requires stock.Valid() && stock.Holds(touched)
      modifies stock`units
      ensures stock.Valid() && stock.units == old(stock.units) && stock.View() == old(stock.View())
    {
      hide StockRepo.View;
      var i := 0;
      while i < |touched|
        invariant 0 <= i <= |touched|
        invariant stock.Valid() && stock.units == old(stock.units) && stock.Holds(touched)
        invariant stock.View() == old(stock.View())
      {
        stock.Save(touched[i]);
        i := i + 1;
      }
    }

    method StoreNew(id: ResId, data: ResData)
      requires reservations.Valid() && id !in reservations.items && id <= reservations.nextId
      modifies reservations`items
      ensures reservations.Valid() && reservations.items.Keys == old(reservations.items).Keys + {id}
      ensures fresh(reservations.items.Values - old(reservations.items.Values))
      ensures reservations.View() == old(reservations.View())[id := data]
    {
      var res := new Reservation(id, data);
      ghost var before := reservations.View();
      reservations.Save(res);
      assert reservations.View() == before[id := data];
    }

    /** Store a new reservation under a fresh id and publish its event. */
    method File(data: ResData) returns (id: ResId)
      requires Shaped()
      modifies reservations, this`log
      ensures Shaped() && fresh(reservations.items.Values - old(reservations.items.Values))
      ensures var b := old(TheBooks());
        && id !in b.reservations
        && TheBooks() == b.(reservations := b.reservations[id := data],
                            log := b.log + [StockReserved(id, data.sku, data.quantity)])
    {
      hide StockRepo.View, LocationRepo.View, ReservationRepo.View;
      id := reservations.NextId();
      StoreNew(id, data);
      log := log + [StockReserved(id, data.sku, data.quantity)];
    }

    /** Draw, then record what was drawn; nothing is recorded when stock is short. */
    method DrawAndFile(sku: Sku, qty: Quantity, ref: string, now: Time, timeout: int)
      returns (out: Result<ResId>, ghost order: seq<UnitId>)
      requires Shaped() && qty > 0
      modifies Footprint()
      ensures Shaped() && fresh(Footprint() - old(Footprint()))
      ensures var b := old(TheBooks());
        && OrderOf(order, UnitsOf(b.units, sku))
        && if qty > TotalUsable(order, b.units) then out == Err(InsufficientUsable) && TheBooks() == b
           else
             var data := ResData(sku, qty, ref, Greedy(order, b.units, qty), ACTIVE, now, now + TimeoutOr(timeout));
             && out.Ok? && out.value !in b.reservations
             && UnitsDrawn(b.units, data.allocations, TheBooks().units)
             && TheBooks() == Books(TheBooks().units, b.bins, b.reservations[out.value := data],
                                    b.log + [StockReserved(out.value, sku, qty)])
    {
      hide StockRepo.View, LocationRepo.View, ReservationRepo.View, Greedy, TotalUsable, UnitsDrawn, TheBooks;
      ghost var b := TheBooks();
      var r;
      r, order := DrawUnits(sku, qty);
      if r.Err? {
        return Err(r.error), order;
      }
      DrawnSomething(order, b.units, qty);
      var made := NewReservation(sku, qty, ref, r.value, now, TimeoutOr(timeout));
      var id := File(made.value);
      return Ok(id), order;
    }

    /** Allocate stock for a demand that has no open reservation of this SKU and quantity. */
    method ReserveNew(sku: Sku, qty: Quantity, ref: string, now: Time, timeout: int) returns (out: Result<ResId>)
      requires Valid() && qty > 0 && NoReplay(TheBooks(), sku, qty, ref)
      modifies Footprint()
      ensures Valid() && fresh(Footprint() - old(Footprint()))
      ensures ReservesOrReplays(old(TheBooks()), sku, qty, ref, now, timeout, TheBooks(), out)
    {
      hide Sequential.Orderly, StockRepo.View, LocationRepo.View, ReservationRepo.View, Allocates, Greedy, TotalUsable,
        UsableOf, UnitsDrawn;
      ghost var b := TheBooks();
      ghost var order;
      out, order := DrawAndFile(sku, qty, ref, now, timeout);
      UsableInAnyOrder(order, b.units, sku);
      if out.Ok? {
        ghost var data := ResData(sku, qty, ref, Greedy(order, b.units, qty), ACTIVE, now, now + TimeoutOr(timeout));
        ReservedAsSpecified(b, sku, qty, ref, now, timeout, out.value, data, order, TheBooks());
        AllocatedOrderly(b, out.value, data, order, TheBooks(), ApartBy(classes));
      }
    }

    /** Bind a quantity of a SKU to a demand, or hand back the reservation that already does. */
    method Reserve(sku: Sku, qty: Quantity, ref: string, clock: Clock, now: Time, timeout: int) returns (out: Result<ResId>)
      requires Valid()
      modifies Footprint()
      ensures Valid() && fresh(Footprint() - old(Footprint()))
      ensures Reserved(old(TheBooks()), sku, qty, ref, clock, now, timeout, TheBooks(), out)
    {
      hide Sequential.Orderly, StockRepo.View, LocationRepo.View, ReservationRepo.View, ExpiresDue, Allocates, NoReplay;
      if qty == 0 {
        return Err(ZeroQuantity);
      }
      var open := ActiveReservationFor(ref, sku, qty, clock);
      if open != null {
        return Ok(open.id);
      }
      out := ReserveNew(sku, qty, ref, now, timeout);
    }

    lemma FoundForDemand(ref: string, found: seq<Reservation>)
      requires Shaped() && reservations.Holds(found)
      requires OrderOf(ResIds(found), set r | r in reservations.items && reservations.items[r].demandRef == ref)
      ensures OrderOf(ResIds(found), MadeFor(TheBooks(), ref))
    {
      assert MadeFor(TheBooks(), ref) == set r | r in reservations.items && reservations.items[r].demandRef == ref;
    }

    // ---- stowing

    /** Occupy a stored bin. */
    method OccupyBin(bin: Bin, qty: Quantity) returns (out: Outcome)
      requires locations.Valid() && bin.id in locations.bins && locations.bins[bin.id] == bin
      modifies bin
      ensures bin.id in old(locations.View())
      ensures match old(locations.View())[bin.id].Occupy(qty)
              case Ok(data) => out == Pass && locations.View() == old(locations.View())[bin.id := data]
              case Err(e) => out == Fail(e) && locations.View() == old(locations.View())
    {
      ghost var before := locations.View();
      out := bin.Occupy(qty);
      assert locations.View() == before[bin.id := bin.Value()];
      assert out.Fail? ==> locations.View() == before;
    }

    /** Store a new unit. */
    method StoreUnit(id: UnitId, data: UnitData)
      requires stock.Valid() && id !in stock.units && id <= stock.nextId
      modifies stock`units
      ensures stock.Valid() && fresh(stock.units.Values - old(stock.units.Values))
      ensures stock.View() == old(stock.View())[id := data]
    {
      var unit := new StockUnit(id, data);
      ghost var before := stock.View();
      stock.Save(unit);
      assert stock.View() == before[id := data];
    }

    /** The atomic part of a stow whose bin has been occupied in memory. */
    method StoreStowed(bin: Bin, id: UnitId, unit: UnitData)
      requires Shaped() && bin.id in locations.bins && locations.bins[bin.id] == bin
      requires id !in stock.units && id <= stock.nextId
      modifies locations`bins, stock`units, this`log
      ensures Shaped() && locations.bins == old(locations.bins) && fresh(stock.units.Values - old(stock.units.Values))
      ensures var b := old(TheBooks());
        TheBooks() == b.(units := b.units[id := unit],
                         log := b.log + [ItemStowed(unit.sku, unit.bin, unit.quantity), LocationRecorded(id, unit.bin)])
    {
      hide StockRepo.View, LocationRepo.View, ReservationRepo.View;
      locations.Save(bin);
      StoreUnit(id, unit);
      log := log + [ItemStowed(unit.sku, unit.bin, unit.quantity), LocationRecorded(id, unit.bin)];
    }

    /** The segregation check against whatever the bin holds now. */
    method CheckBin(sku: Sku, bin: BinId) returns (out: Outcome)
      requires Shaped() && IsMatrix(matrix)
      ensures out == SegregationOf(classes, stock.View(), sku, bin)
    {
      var occupants := stock.FindByBin(bin);
      var skus := seq(|occupants|, i requires 0 <= i < |occupants| => occupants[i].sku);
      out := CheckSegregation(classes, matrix, sku, skus);
      forall u | u in UnitsIn(stock.View(), bin) ensures stock.View()[u].sku in skus {
        var i :| 0 <= i < |occupants| && UnitIds(occupants)[i] == u;
        assert skus[i] == stock.View()[u].sku;
      }
      forall t | t in skus ensures exists u :: u in UnitsIn(stock.View(), bin) && stock.View()[u].sku == t {
        var i :| 0 <= i < |skus| && skus[i] == t;
        assert UnitIds(occupants)[i] in UnitsIn(stock.View(), bin);
      }
    }

    /** The placement check, then the segregation check. */
    method CheckStow(sku: Sku, bin: BinId, lookup: Option<Result<SlotAttributes>>) returns (out: Outcome)
      requires Shaped() && IsMatrix(matrix)
      ensures out == StowCheck(classes, lookup, stock.View(), sku, bin)
      ensures out.Pass? ==> SegregationOf(classes, stock.View(), sku, bin) == Pass
    {
      hide StockRepo.View, SegregationOf;
      out := Placement(classes, lookup, sku);
      if out.Fail? {
        return;
      }
      out := CheckBin(sku, bin);
    }

    /** Place received stock into a bin: the bin is read first, then everything is checked, then both are changed. */
    method Stow(sku: Sku, qty: Quantity, binId: BinId, lookup: Option<Result<SlotAttributes>>) returns (out: Result<UnitId>)
      requires Valid()
      modifies Footprint()
      ensures Valid() && fresh(Footprint() - old(Footprint()))
      ensures Stowed(old(TheBooks()), sku, qty, binId, StowCheck(classes, lookup, old(TheBooks()).units, sku, binId),
                     TheBooks(), out)
    {
      hide Sequential.Orderly, StockRepo.View, LocationRepo.View, ReservationRepo.View, SegregationOf, StowCheck, Stowed, Placed,
        NoClash;
      ghost var b := TheBooks();
      StowRefused(b, sku, qty, binId, StowCheck(classes, lookup, b.units, sku, binId));
      BinsShown();
      var bin := locations.FindById(binId);
      if bin == null {
        return Err(BinNotFound);
      }
      var checked := CheckStow(sku, binId, lookup);
      if checked.Fail? {
        return Err(checked.error);
      }
      NoClashAfterCheck(classes, b.units, sku, binId);
      BinShown(bin);
      out := PlaceChecked(bin, sku, qty);
      PlacedIsStowed(b, sku, qty, binId, TheBooks(), out);
    }

    /** The rest of a stow whose checks have passed. */
    method PlaceChecked(bin: Bin, sku: Sku, qty: Quantity) returns (out: Result<UnitId>)
      requires Valid() && bin.id in locations.bins && locations.bins[bin.id] == bin && bin.id in TheBooks().bins
      requires NoClash(TheBooks().units, sku, bin.id, ApartBy(classes))
      modifies Footprint()
      ensures Valid() && fresh(Footprint() - old(Footprint()))
      ensures Placed(old(TheBooks()), bin.id, sku, qty, TheBooks(), out)
    {
      hide Sequential.Orderly, StockRepo.View, LocationRepo.View, ReservationRepo.View, Placed;
      ghost var b := TheBooks();
      out := PlaceUnit(bin, sku, qty);
      PlacedInOrder(b, bin.id, sku, qty, TheBooks(), out, classes);
    }

    /** Make the unit, occupy the bin, store both and publish; stop at the first error with nothing changed. */
    method PlaceUnit(bin: Bin, sku: Sku, qty: Quantity) returns (out: Result<UnitId>)
      requires Shaped() && bin.id in locations.bins && locations.bins[bin.id] == bin && bin.id in TheBooks().bins
      modifies stock, locations`bins, bin, this`log
      ensures Shaped() && locations.bins == old(locations.bins) && fresh(stock.units.Values - old(stock.units.Values))
      ensures Placed(old(TheBooks()), bin.id, sku, qty, TheBooks(), out)
    {
      hide StockRepo.View, LocationRepo.View, ReservationRepo.View;
      var id := stock.NextId();
      var made := NewUnit(sku, bin.id, qty);
      if made.Err? {
        return Err(made.error);
      }
      var occupied := OccupyBin(bin, qty);
      if occupied.Fail? {
        return Err(occupied.error);
      }
      StoreStowed(bin, id, made.value);
      return Ok(id);
    }

    lemma BinsShown()
      requires Shaped()
      ensures TheBooks().bins.Keys == locations.bins.Keys
    {
    }

    // ---- cycle counts

    /** Publish the outcome of a count, flagging what is missing. */
    method Reconcile(bin: BinId, counted: Quantity, systemQty: Quantity, located: seq<StockUnit>)
      requires Shaped() && stock.Holds(located) && Distinct(UnitIds(located))
      modifies this`log, stock`units, located
      ensures Shaped() && SameObjects()
      ensures forall u :: u in UnitIds(located) ==> u in old(TheBooks()).units
      ensures var b := old(TheBooks());
        var c := CountFrom(bin, counted, systemQty, UnitIds(located), b.units);
        TheBooks() == b.(units := Flagged(b.units, LostUnits(c.lost)), log := b.log + c.events)
    {
      hide StockRepo.View, LocationRepo.View, ReservationRepo.View, Losses, LossEvents, LostUnits, Flagged;
      AllStored(stock, located);
      NothingFlagged(TheBooks().units);
      if counted == systemQty {
        log := log + [CycleCountCompleted(bin, counted, systemQty, false)];
      } else if counted > systemQty {
        log := log + [DiscrepancyDetected(bin, counted, systemQty), CycleCountCompleted(bin, counted, systemQty, true)];
      } else {
        var lost := MarkShortfall(stock, located, systemQty - counted, bin);
        log := log + ([DiscrepancyDetected(bin, counted, systemQty)] + lost
                      + [CycleCountCompleted(bin, counted, systemQty, true)]);
      }
    }

    /** Compare a bin with what was counted in it; flag what is missing. */
    method RunCount(bin: BinId, counted: Quantity) returns (out: CountReport)
      requires Valid()
      modifies Footprint()
      ensures Valid() && SameObjects()
      ensures Counted(old(TheBooks()), bin, counted, TheBooks(), out)
    {
      hide Sequential.Orderly, StockRepo.View, LocationRepo.View, ReservationRepo.View, Losses, LossEvents, LostUnits,
        Locatables, SystemQty, Flagged, Counted, CountFrom;
      ghost var b := TheBooks();
      var found := stock.FindByBin(bin);
      ghost var order := UnitIds(found);
      var systemQty, located := LocatableUnits(stock, found);
      LocatablesOf(order, b.units, bin);
      Reconcile(bin, counted, systemQty, located);
      out := CountReport(systemQty, counted != systemQty);
      CountedAsSpecified(b, bin, counted, order, TheBooks(), out);
      CountedOrderly(b, bin, counted, TheBooks(), out, ApartBy(classes));
    }

    // ---- registering bins

    /** Store a new bin. */
    method StoreBin(id: BinId, data: BinData)
      requires locations.Valid() && id !in locations.bins
      modifies locations`bins
      ensures locations.Valid() && fresh(locations.bins.Values - old(locations.bins.Values))
      ensures locations.View() == old(locations.View())[id := data]
    {
      var bin := new Bin(id, data);
      ghost var before := locations.View();
      locations.Save(bin);
      assert locations.View() == before[id := data];
    }

    /** Resize a stored bin and save it. */
    method ResizeBin(bin: Bin, capacity: Quantity) returns (out: Outcome)
      requires locations.Valid() && bin.id in locations.bins && locations.bins[bin.id] == bin
      modifies bin, locations`bins
      ensures locations.Valid() && locations.bins == old(locations.bins) && bin.id in old(locations.View())
      ensures match old(locations.View())[bin.id].Resize(capacity)
              case Ok(data) => out == Pass && locations.View() == old(locations.View())[bin.id := data]
              case Err(e) => out == Fail(e) && locations.View() == old(locations.View())
    {
      ghost var before := locations.View();
      out := bin.Resize(capacity);
      assert locations.View() == before[bin.id := bin.Value()];
      if out.Fail? {
        assert locations.View() == before;
        return;
      }
      locations.Save(bin);
    }

    /** Create the bin, leave it, or resize it. */
    method Converge(id: BinId, capacity: Quantity) returns (out: Result<BinOutcome>)
      requires Shaped() && id != "" && capacity > 0
      requires forall k :: k in TheBooks().bins ==> TheBooks().bins[k].occupied <= TheBooks().bins[k].capacity
      modifies locations`bins, locations.bins.Values
      ensures Shaped() && fresh(locations.bins.Values - old(locations.bins.Values))
      ensures Registered(old(TheBooks()), id, capacity, TheBooks(), out)
    {
      hide StockRepo.View, LocationRepo.View, ReservationRepo.View;
      BinsShown();
      var existing := locations.FindById(id);
      if existing == null {
        var made := NewBin(id, capacity);
        StoreBin(id, made.value);
        return Ok(BinCreated);
      }
      BinShown(existing);
      if existing.capacity == capacity {
        return Ok(BinUnchanged);
      }
      var resized := ResizeBin(existing, capacity);
      if resized.Fail? {
        return Err(resized.error);
      }
      return Ok(BinResized);
    }

    /** Bring a bin to the stated capacity. */
    method RegisterBin(id: BinId, capacity: Quantity) returns (out: Result<BinOutcome>)
      requires Valid()
      modifies Footprint()
      ensures Valid() && fresh(Footprint() - old(Footprint()))
      ensures Registered(old(TheBooks()), id, capacity, TheBooks(), out)
    {
      hide Sequential.Orderly, StockRepo.View, LocationRepo.View, ReservationRepo.View, Registered;
      RefusedUnchanged(TheBooks(), id, capacity);
      if id == "" {
        return Err(EmptyBinId);
      }
      if capacity == 0 {
        return Err(InvalidCapacity);
      }
      ghost var b := TheBooks();
      WithinCapacity(b, ApartBy(classes));
      out := Converge(id, capacity);
      RegisteredInOrder(b, id, capacity, TheBooks(), out, ApartBy(classes));
    }

    lemma BinShown(bin: Bin)
      requires Shaped() && bin.id in locations.bins && locations.bins[bin.id] == bin
      ensures bin.id in TheBooks().bins && TheBooks().bins[bin.id] == bin.Value()
    {
    }

    // ---- reading

    /** Usable stock of a SKU, added up over its units in whatever order they come. */
    method GetUsable(sku: Sku) returns (total: Quantity)
      requires Valid()
      ensures total == UsableOf(TheBooks().units, sku)
    {
      var found := stock.FindBySku(sku);
      total := SumUsable(stock, found);
      UsableInAnyOrder(UnitIds(found), stock.View(), sku);
    }
  }

  /** What a stow makes of the books once its checks have passed. */
  ghost predicate Placed(b: Books, bin: BinId, sku: Sku, qty: Quantity, b': Books, out: Result<UnitId>)
    requires bin in b.bins
  {
    match NewUnit(sku, bin, qty)
    case Err(e) => b' == b && out == Err(e)
    case Ok(unit) =>
      match b.bins[bin].Occupy(qty)
      case Err(e) => b' == b && out == Err(e)
      case Ok(_) => out.Ok? && Stows(b, out.value, unit, b')
  }

  lemma StowRefused(b: Books, sku: Sku, qty: Quantity, bin: BinId, placement: Outcome)
    ensures bin !in b.bins ==> Stowed(b, sku, qty, bin, placement, b, Err(BinNotFound))
    ensures bin in b.bins && placement.Fail? ==> Stowed(b, sku, qty, bin, placement, b, Err(placement.error))
  {
  }

  lemma PlacedIsStowed(b: Books, sku: Sku, qty: Quantity, bin: BinId, b': Books, out: Result<UnitId>)
    requires bin in b.bins && Placed(b, bin, sku, qty, b', out)
    ensures Stowed(b, sku, qty, bin, Pass, b', out)
  {
    hide Stows;
  }

  /** The segregation check against the units of a bin. */
  ghost function SegregationOf(classes: Classes, units: Units, sku: Sku, bin: BinId): Outcome {
    if exists u :: u in UnitsIn(units, bin) && units[u].sku != sku && KeptApart(classes, sku, units[u].sku)
    then Fail(HazmatClassIncompatible) else Pass
  }

  /** Both checks a stow makes, in order. */
  ghost function StowCheck(classes: Classes, lookup: Option<Result<SlotAttributes>>, units: Units, sku: Sku, bin: BinId)
    : Outcome
  {
    if Placement(classes, lookup, sku).Fail? then Placement(classes, lookup, sku) else SegregationOf(classes, units, sku, bin)
  }

  lemma NoClashAfterCheck(classes: Classes, units: Units, sku: Sku, bin: BinId)
    requires SegregationOf(classes, units, sku, bin) == Pass
    ensures NoClash(units, sku, bin, ApartBy(classes))
  {
    forall u | u in units && units[u].bin == bin && units[u].sku != sku ensures !ApartBy(classes)(sku, units[u].sku) {
      assert u in UnitsIn(units, bin);
    }
  }

  lemma StowedInOrder(b: Books, id: UnitId, unit: UnitData, b': Books, classes: Classes)
    requires Sequential.Orderly(b, ApartBy(classes)) && Stows(b, id, unit, b')
    requires NoClash(b.units, unit.sku, unit.bin, ApartBy(classes))
    ensures Sequential.Orderly(b', ApartBy(classes))
  {
    hide Sequential.Orderly, Stows, NoClash;
    forall s, t ensures ApartBy(classes)(s, t) == ApartBy(classes)(t, s) {
      ApartIsSymmetric(classes, s, t);
    }
    StowedOrderly(b, id, unit, b', ApartBy(classes));
  }

  lemma RefusedUnchanged(b: Books, id: BinId, capacity: Quantity)
    ensures id == "" ==> Registered(b, id, capacity, b, Err(EmptyBinId))
    ensures id != "" && capacity == 0 ==> Registered(b, id, capacity, b, Err(InvalidCapacity))
  {
  }

  lemma WithinCapacity(b: Books, apart: (Sku, Sku) -> bool)
    requires Sequential.Orderly(b, apart)
    ensures forall k :: k in b.bins ==> b.bins[k].occupied <= b.bins[k].capacity
  {
  }

  lemma RegisteredInOrder(b: Books, id: BinId, capacity: Quantity, b': Books, out: Result<BinOutcome>,
                          apart: (Sku, Sku) -> bool)
    requires Sequential.Orderly(b, apart) && Registered(b, id, capacity, b', out)
    ensures Sequential.Orderly(b', apart)
  {
    hide Sequential.Orderly;
    if b' != b {
      BinSetOrderly(b, id, BinData(capacity, if id in b.bins then b.bins[id].occupied else 0), b', apart);
    }
  }

  lemma PlacedInOrder(b: Books, bin: BinId, sku: Sku, qty: Quantity, b': Books, out: Result<UnitId>, classes: Classes)
    requires bin in b.bins && Placed(b, bin, sku, qty, b', out)
    requires Sequential.Orderly(b, ApartBy(classes)) && NoClash(b.units, sku, bin, ApartBy(classes))
    ensures Sequential.Orderly(b', ApartBy(classes))
  {
    hide Sequential.Orderly, Stows, NoClash;
    if NewUnit(sku, bin, qty).Ok? && b.bins[bin].Occupy(qty).Ok? {
      StowedInOrder(b, out.value, NewUnit(sku, bin, qty).value, b', classes);
    }
  }

  /** The books after a count made in this order are as the count decides. */
  lemma CountedAsSpecified(b: Books, bin: BinId, counted: Quantity, order: seq<UnitId>, b': Books, out: CountReport)
    requires OrderOf(order, UnitsIn(b.units, bin))
    requires var c := Count(bin, counted, order, b.units);
      && b' == b.(units := Flagged(b.units, LostUnits(c.lost)), log := b.log + c.events)
      && out == CountReport(c.systemQty, counted != c.systemQty)
    ensures Counted(b, bin, counted, b', out)
  {
    LostAreLocatable(bin, counted, order, b.units);
    hide Count, LostUnits, Flagged, Flags;
    var c := Count(bin, counted, order, b.units);
    FlaggedIsFlags(b, LostUnits(c.lost), c.events, b');
    assert CountedInOrder(b, bin, counted, order, b', out);
  }

  lemma FlaggedIsFlags(b: Books, lost: set<UnitId>, events: seq<Event>, b': Books)
    requires forall u :: u in lost ==> u in b.units && b.units[u].Locatable()
    requires forall i :: 0 <= i < |events| ==> Quiet(events[i])
    requires b' == b.(units := Flagged(b.units, lost), log := b.log + events)
    ensures Flags(b, lost, b', events)
  {
  }

  lemma LostAreLocatable(bin: BinId, counted: Quantity, order: seq<UnitId>, units: Units)
    requires OrderOf(order, UnitsIn(units, bin))
    ensures forall u :: u in LostUnits(Count(bin, counted, order, units).lost) ==> u in units && units[u].Locatable()
  {
    hide Locatables, Losses, SystemQty;
    var ids := Locatables(order, units);
    if counted < SystemQty(ids, units) {
      LossesFollow(ids, units, SystemQty(ids, units) - counted);
    }
  }

  /** Every reservation ever made for a demand. */
  ghost function MadeFor(b: Books, ref: string): set<ResId> {
    set r | r in b.reservations && b.reservations[r].demandRef == ref
  }

  lemma SkuOrder(order: seq<UnitId>, units: Units, sku: Sku)
    requires OrderOf(order, UnitsOf(units, sku))
    ensures Distinct(order) && forall u :: u in order ==> u in units
  {
  }

  /** A positive quantity that is covered was drawn from something. */
  lemma DrawnSomething(order: seq<UnitId>, units: Units, want: Quantity)
    requires (forall u :: u in order ==> u in units) && 0 < want <= TotalUsable(order, units)
    ensures Greedy(order, units, want) != []
  {
    GreedyCovers(order, units, want);
  }

  lemma ReservedAsSpecified(b: Books, sku: Sku, qty: Quantity, ref: string, now: Time, timeout: int, id: ResId, data: ResData,
                            order: seq<UnitId>, b': Books)
    requires NoReplay(b, sku, qty, ref) && id !in b.reservations
    requires OrderOf(order, UnitsOf(b.units, sku)) && qty <= UsableOf(b.units, sku)
    requires data == ResData(sku, qty, ref, Greedy(order, b.units, qty), ACTIVE, now, now + TimeoutOr(timeout))
    requires UnitsDrawn(b.units, data.allocations, b'.units)
    requires b' == Books(b'.units, b.bins, b.reservations[id := data], b.log + [StockReserved(id, sku, qty)])
    ensures Allocates(b, id, data, order, b') && ReservesOrReplays(b, sku, qty, ref, now, timeout, b', Ok(id))
  {
    hide Greedy, UsableOf, UnitsDrawn;
  }

  lemma StillMadeFor(b: Books, m: Books, ref: string, clock: Clock)
    requires ExpiresDue(b, ref, clock, m)
    ensures MadeFor(m, ref) == MadeFor(b, ref)
  {
    AfterExpiry(b, ref, clock, m);
    hide ExpiresDue;
  }

  /** Of the listed reservations, those due have been expired, and nothing else has happened. */
  ghost predicate ExpiredSoFar(b: Books, ids: seq<ResId>, done: seq<ResId>, ref: string, clock: Clock, m: Books) {
    && Expires(b, done, m) && Distinct(done)
    && (forall r :: r in ids ==> r in b.reservations && (r in done <==> IsDue(b.reservations[r], ref, clock(r))))
    && (forall r :: r in done ==> r in ids)
  }

  lemma NothingExpired(b: Books, ids: seq<ResId>, ref: string, clock: Clock)
    ensures ExpiredSoFar(b, ids[..0], [], ref, clock, b)
  {
  }

  /** One listed reservation more: it is due now exactly if it was due at the start. */
  lemma ExpiryStep(b: Books, ids: seq<ResId>, n: nat, done: seq<ResId>, ref: string, clock: Clock, m: Books, m': Books)
    requires OrderOf(ids, MadeFor(b, ref)) && n < |ids| && ExpiredSoFar(b, ids[..n], done, ref, clock, m)
    requires ids[n] in m.reservations
    requires if m.reservations[ids[n]].status == ACTIVE && m.reservations[ids[n]].IsExpired(clock(ids[n]))
             then Resolves(m, ids[n], EXPIRED, m') else m' == m
    ensures var more := if IsDue(m.reservations[ids[n]], ref, clock(ids[n])) then done + [ids[n]] else done;
      ExpiredSoFar(b, ids[..n + 1], more, ref, clock, m')
  {
    hide Expires, Resolves;
    ExpiredStatuses(b, done, m);
    ExpiresOneMore(b, done, ids[n], m, m');
    assert ids[n] in MadeFor(b, ref);
    assert ids[..n + 1] == ids[..n] + [ids[n]];
    assert ids[n] !in ids[..n];
  }

  lemma ExpiresOneMore(b: Books, done: seq<ResId>, r: ResId, m: Books, m': Books)
    requires Expires(b, done, m)
    ensures Resolves(m, r, EXPIRED, m') ==> Expires(b, done + [r], m')
  {
    assert (done + [r])[..|done|] == done;
    hide Resolves;
  }

  lemma AllExpired(b: Books, ids: seq<ResId>, done: seq<ResId>, ref: string, clock: Clock, m: Books)
    requires OrderOf(ids, MadeFor(b, ref)) && ExpiredSoFar(b, ids, done, ref, clock, m)
    ensures ExpiresDue(b, ref, clock, m)
  {
    hide Expires;
    forall r ensures r in DueOf(b, ref, clock) <==> r in done {
      assert r in DueOf(b, ref, clock) ==> r in MadeFor(b, ref);
    }
  }

  /** On orderly books an ACTIVE reservation is given back without error, and that is its whole resolution. */
  lemma GivesBack(b: Books, r: ResId, to: Status, apart: (Sku, Sku) -> bool)
    requires Sequential.Orderly(b, apart) && r in b.reservations && b.reservations[r].status == ACTIVE
    requires to == EXPIRED || to == REVOKED
    ensures var s := Sweep(b.units, map[], b.reservations[r].allocations, REVOKED);
      var b' := Books(s.units, b.bins, b.reservations[r := b.reservations[r].(status := to)],
                      b.log + [ResolutionEvent(r, b.reservations[r], to)]);
      s.out == Pass && Resolves(b, r, to, b') && Sequential.Orderly(b', apart)
  {
    LawfulNow(b, apart);
    hide Sequential.Orderly, Sweep, Resolves;
    ActiveResolves(b, r, to);
    SweepNeedsNoBins(b.units, b.bins, b.reservations[r].allocations);
    var s := Sweep(b.units, map[], b.reservations[r].allocations, REVOKED);
    ResolvedOrderly(b, r, to, Books(s.units, b.bins, b.reservations[r := b.reservations[r].(status := to)],
                                    b.log + [ResolutionEvent(r, b.reservations[r], to)]), apart);
  }

  /** On orderly books an ACTIVE reservation is picked without error, and that is its whole resolution. */
  lemma Picks(b: Books, r: ResId, apart: (Sku, Sku) -> bool)
    requires Sequential.Orderly(b, apart) && r in b.reservations && b.reservations[r].status == ACTIVE
    ensures var s := Sweep(b.units, b.bins, b.reservations[r].allocations, CONFIRMED);
      var b' := Books(s.units, s.bins, b.reservations[r := b.reservations[r].(status := CONFIRMED)],
                      b.log + [ResolutionEvent(r, b.reservations[r], CONFIRMED)]);
      s.out == Pass && Resolves(b, r, CONFIRMED, b') && Sequential.Orderly(b', apart)
  {
    LawfulNow(b, apart);
    hide Sequential.Orderly, Sweep, Resolves;
    ActiveResolves(b, r, CONFIRMED);
    var s := Sweep(b.units, b.bins, b.reservations[r].allocations, CONFIRMED);
    ResolvedOrderly(b, r, CONFIRMED, Books(s.units, s.bins, b.reservations[r := b.reservations[r].(status := CONFIRMED)],
                                           b.log + [ResolutionEvent(r, b.reservations[r], CONFIRMED)]), apart);
  }

  lemma ResolvedStatus(b: Books, b': Books, r: ResId, to: Status)
    ensures Resolves(b, r, to, b') ==>
      r in b.reservations && r in b'.reservations && b'.reservations[r] == b.reservations[r].(status := to)
  {
    hide UnitsSettled, BinsSettled;
  }

  lemma LawfulNow(b: Books, apart: (Sku, Sku) -> bool)
    requires Sequential.Orderly(b, apart)
    ensures Lawful(b, NoGap())
  {
  }

  /** Giving back looks at no bin. */
  lemma {:induction false} SweepNeedsNoBins(units: Units, bins: Bins, allocs: seq<Allocation>)
    ensures Sweep(units, bins, allocs, REVOKED) == Sweep(units, map[], allocs, REVOKED).(bins := bins)
    ensures Sweep(units, bins, allocs, EXPIRED) == Sweep(units, bins, allocs, REVOKED)
  {
    if allocs != [] {
      SweepNeedsNoBins(units, bins, allocs[..|allocs| - 1]);
    }
  }
}
