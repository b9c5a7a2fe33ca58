/**
 A request that runs alone completes, and does what the sequential use case does: the statements of the interleaving
 machine, taken one after the other from an idle system, refine the relations that the use cases are proved against.
 */
module LoneUseCases {
  import opened Shared
  import opened Sums
  import opened Stock
  import opened Location
  import opened Claims
  import opened Ledger
  import opened Transitions
  import opened Evolution
  import opened Sweeps
  import opened GreedyAllocation
  import opened CycleCounting
  import opened UseCases
  import opened Rows
  import opened Requests
  import opened Invariants
  import opened CountSteps
  import opened ResolveSteps
  import opened Interleavings
  import opened Theorems
  import opened LoneRuns
  import Sequential

  /** With no request about, every law holds exactly, and the next id is unused. */
  lemma IdleFacts(trace: seq<System>, apart: (Sku, Sku) -> bool, db: Db, p: nat)
    requires Run(trace, apart) && Symmetric(apart) && Last(trace) == Idle(db, p)
    ensures Lawful(BooksOf(db), NoGap()) && p !in db.units && p !in db.reservations
  {
    RunKeepsInv(trace, apart, |trace| - 1);
    hide Run, Lawful, BooksOf, Segregated;
    forall u ensures Gap(Last(trace).requests)(u) == NoGap()(u) {
    }
    Sequential.SameGap(BooksOf(db), Gap(Last(trace).requests), NoGap());
  }

  // ---- resolving

  lemma AmidResolution(trace: seq<System>, apart: (Sku, Sku) -> bool, db: Db, p: nat, job: Job, w: Writes)
    requires Run(trace, apart) && Symmetric(apart) && Last(trace) == Alone(db, p, job, w) && job.Resolving?
    ensures ResolveInv(db, Request(job, w))
  {
    RunKeepsInv(trace, apart, |trace| - 1);
    hide Run, Lawful, BooksOf, Segregated;
    RequestOf(Last(trace), p, apart);
  }

  /** The next unit is still as it was read, and holds what was drawn from it. */
  lemma NextUnitReady(db: Db, job: Job, w: Writes)
    requires job.Resolving? && ResolveInv(db, Request(job, w)) && job.at == AtUnit && job.done < |job.row.content.allocations|
    requires Holds(BooksOf(db).units, job.row.content.allocations)
    ensures var a := job.row.content.allocations[job.done];
      && a.unit in db.units && a.unit !in w.units && a.quantity > 0 && db.units[a.unit].content.bin == a.bin
      && a.quantity <= db.units[a.unit].content.reserved <= db.units[a.unit].content.quantity
  {
    hide DrawnOn;
    var allocs := job.row.content.allocations;
    DrawnOnAt(allocs, job.done);
    ContentAt(db);
  }

  /** The next bin, as far as this transaction has saved it, holds what is to be freed in it. */
  lemma NextBinReady(db: Db, job: Job, w: Writes)
    requires job.Resolving? && ResolveInv(db, Request(job, w)) && job.at == AtUnit && job.done < |job.row.content.allocations|
    requires job.to == CONFIRMED && BinsHold(BooksOf(db).bins, job.row.content.allocations)
    ensures var a := job.row.content.allocations[job.done];
      a.bin in db.bins + w.bins && a.quantity <= (db.bins + w.bins)[a.bin].content.occupied
  {
    hide DrawnFrom, SavesOf, UnitsStaged;
    var allocs, n := job.row.content.allocations, job.done;
    var k := allocs[n].bin;
    ContentAt(db);
    DrawnFromGrows(allocs, n, k);
    DrawnFromGrowsTo(allocs, n + 1, k);
    assert DrawnFrom(allocs, k) <= db.bins[k].content.occupied;
  }

  lemma {:induction false} ResolvesOn(trace: seq<System>, apart: (Sku, Sku) -> bool, db: Db, p: nat, job: Job, w: Writes)
    returns (longer: seq<System>)
    requires Run(trace, apart) && Symmetric(apart) && Last(trace) == Alone(db, p, job, w)
    requires job.Resolving? && !job.recorded && job.at == AtUnit && job.done <= |job.row.content.allocations|
    requires job.res in db.reservations && db.reservations[job.res] == job.row
    requires Holds(BooksOf(db).units, job.row.content.allocations)
    requires job.to == CONFIRMED ==> BinsHold(BooksOf(db).bins, job.row.content.allocations)
    ensures Run(longer, apart) && trace <= longer && |longer| >= 2 && longer[|longer| - 2].db == db
    ensures Last(longer).db.reservations ==
            db.reservations[job.res := Row(job.row.content.(status := job.to), job.row.version + 1)]
    ensures Last(longer) == Idle(Last(longer).db, p + 1)
    decreases |job.row.content.allocations| - job.done
  {
    hide Run, ResolveInv, Holds, BinsHold, BooksOf, PickBoth, ReleaseUnit;
    AmidResolution(trace, apart, db, p, job, w);
    if job.done == |job.row.content.allocations| {
      NothingRecorded(db, job, w);
      longer := ResolvedNext(trace, apart, db, p, job, w);
    } else {
      var a := job.row.content.allocations[job.done];
      NextUnitReady(db, job, w);
      if job.to == CONFIRMED {
        NextBinReady(db, job, w);
        longer := PicksNext(trace, apart, db, p, job, w, a);
        longer := ResolvesOn(longer, apart, db, p, job.(done := job.done + 1), PickBoth(db, w, a));
      } else {
        longer := ReleasesNext(trace, apart, db, p, job, w, a);
        longer := ResolvesOn(longer, apart, db, p, job.(done := job.done + 1), ReleaseUnit(db, w, a));
      }
    }
  }

  lemma NothingRecorded(db: Db, job: Job, w: Writes)
    requires job.Resolving? && ResolveInv(db, Request(job, w)) && !job.recorded
    ensures w.reservations == map[]
  {
    hide UnitsStaged, BinsStaged;
  }

  /** A resolution of an ACTIVE reservation, alone from its first statement to its commit, is that resolution. */
  lemma LoneResolution(trace: seq<System>, apart: (Sku, Sku) -> bool, db: Db, p: nat, r: ResId, to: Status)
    returns (longer: seq<System>)
    requires Run(trace, apart) && Symmetric(apart) && Last(trace) == Idle(db, p)
    requires r in db.reservations && db.reservations[r].content.status == ACTIVE && to != ACTIVE
    ensures Run(longer, apart) && trace <= longer && Last(longer) == Idle(Last(longer).db, p + 1)
    ensures Resolves(BooksOf(db), r, to, BooksOf(Last(longer).db))
  {
    hide Run, Lawful, BooksOf, Resolves, Holds, BinsHold, Evolves;
    IdleFacts(trace, apart, db, p);
    ContentAt(db);
    HeldByLaw(BooksOf(db), r);
    longer := ResolveBegins(trace, apart, db, p, r, to);
    longer := ResolvesOn(longer, apart, db, p, Resolving(r, db.reservations[r], to, 0, AtUnit, false), NOTHING);
    var k := |longer| - 2;
    RunEvolves(longer, apart, k);
    ContentAt(Last(longer).db);
    ResolutionIsWhole(BooksAt(longer, k), BooksAt(longer, k + 1), r);
  }

  lemma HeldByLaw(b: Books, r: ResId)
    requires Lawful(b, NoGap()) && r in b.reservations && b.reservations[r].status == ACTIVE
    ensures Holds(b.units, b.reservations[r].allocations) && BinsHold(b.bins, b.reservations[r].allocations)
  {
    ActiveBinsHold(b, r);
    hide ClaimsSound, BinsBalanced, Audited, BinsHold;
    ActiveIsHeld(b, r, NoGap());
  }

  // ---- reserving

  /** The units once the first n draws are saved. */
  function DrawnRows(units: Table<UnitId, UnitData>, allocs: seq<Allocation>): Table<UnitId, UnitData>
    requires forall i :: 0 <= i < |allocs| ==> allocs[i].unit in units
    ensures DrawnRows(units, allocs).Keys == units.Keys
  {
    if allocs == [] then units
    else
      var a, before := allocs[|allocs| - 1], DrawnRows(units, allocs[..|allocs| - 1]);
      before[a.unit := Row(DrawnUnit(units[a.unit].content, a.quantity), units[a.unit].version + 1)]
  }

  lemma {:induction false} DrawnRowsAre(units: Table<UnitId, UnitData>, allocs: seq<Allocation>)
    requires DistinctUnits(allocs) && forall i :: 0 <= i < |allocs| ==> allocs[i].unit in units
    ensures forall u :: u in units ==>
      var row := DrawnRows(units, allocs)[u];
      row.content == DrawnUnit(units[u].content, DrawnOn(allocs, u)) && (DrawnOn(allocs, u) == 0 && NotIn(allocs, u) ==> row == units[u])
  {
    if allocs != [] {
      var n := |allocs| - 1;
      DrawnRowsAre(units, allocs[..n]);
      DrawnOnButLast(allocs);
      hide DrawnOn;
    }
  }

  predicate NotIn(allocs: seq<Allocation>, u: UnitId) {
    forall i :: 0 <= i < |allocs| ==> allocs[i].unit != u
  }

  /** Each draw is one that its unit can still give. */
  ghost predicate CanDraw(units: Table<UnitId, UnitData>, allocs: seq<Allocation>) {
    && DistinctUnits(allocs)
    && forall i :: 0 <= i < |allocs| ==>
         allocs[i].unit in units && units[allocs[i].unit].content.Reserve(allocs[i].quantity).Ok? && allocs[i].quantity > 0
  }

  lemma DrawnRowsNext(units: Table<UnitId, UnitData>, front: seq<Allocation>, a: Allocation)
    requires a.unit in units && forall i :: 0 <= i < |front| ==> front[i].unit in units
    ensures DrawnRows(units, front + [a]) ==
            DrawnRows(units, front)[a.unit := Row(DrawnUnit(units[a.unit].content, a.quantity), units[a.unit].version + 1)]
    ensures DrawnRows(units, []) == units
  {
    assert (front + [a])[..|front|] == front;
  }

  lemma NextDraw(units: Table<UnitId, UnitData>, allocs: seq<Allocation>, n: nat)
    requires CanDraw(units, allocs) && n < |allocs|
    ensures var a, rows := allocs[n], DrawnRows(units, allocs[..n]);
      && a.unit in rows && rows[a.unit] == units[a.unit] && units[a.unit].content.Reserve(a.quantity).Ok?
      && DrawnRows(units, allocs[..n + 1]) ==
         rows[a.unit := Row(units[a.unit].content.Reserve(a.quantity).value, units[a.unit].version + 1)]
  {
    hide DrawnRows, DrawnOn;
    var front, u := allocs[..n], allocs[n].unit;
    DrawnRowsAre(units, front);
    DrawnOnAbsent(front, u);
    assert NotIn(front, u);
    DrawnRowsNext(units, front, allocs[n]);
    assert allocs[..n + 1] == front + [allocs[n]];
  }

  /** The system once the first n draws are saved. */
  function AfterDraws(db: Db, p: nat, job: Job, n: nat): System
    requires job.Reserving? && n <= |job.data.allocations|
    requires forall i :: 0 <= i < |job.data.allocations| ==> job.data.allocations[i].unit in db.units
  {
    Alone(db.(units := DrawnRows(db.units, job.data.allocations[..n])), p, job.(saved := n), NOTHING)
  }

  lemma OneMoreDraw(trace: seq<System>, apart: (Sku, Sku) -> bool, db: Db, p: nat, job: Job, n: nat)
    returns (longer: seq<System>)
    requires Run(trace, apart) && job.Reserving? && job.live && !job.filed && job.base == db.units
    requires CanDraw(db.units, job.data.allocations) && n < |job.data.allocations|
    requires Last(trace) == AfterDraws(db, p, job, n)
    ensures Run(longer, apart) && trace <= longer && Last(longer) == AfterDraws(db, p, job, n + 1)
  {
    hide Run, DrawnRows;
    NextDraw(db.units, job.data.allocations, n);
    longer := DrawsNext(trace, apart, db.(units := DrawnRows(db.units, job.data.allocations[..n])), p, job.(saved := n),
                        job.data.allocations[n].unit);
  }

  lemma {:induction false} DrawsInTurn(trace: seq<System>, apart: (Sku, Sku) -> bool, db: Db, p: nat, job: Job, n: nat)
    returns (longer: seq<System>)
    requires Run(trace, apart) && job.Reserving? && job.live && !job.filed && job.saved == 0 && job.base == db.units
    requires CanDraw(db.units, job.data.allocations) && n <= |job.data.allocations|
    requires Last(trace) == Alone(db, p, job, NOTHING)
    ensures Run(longer, apart) && trace <= longer && Last(longer) == AfterDraws(db, p, job, n)
  {
    assert forall i :: 0 <= i < |job.data.allocations| ==> job.data.allocations[i].unit in db.units;
    if n == 0 {
      longer := trace;
      NothingDrawnYet(db.units, job.data.allocations);
    } else {
      hide Run, AfterDraws, CanDraw, Alone;
      longer := DrawsInTurn(trace, apart, db, p, job, n - 1);
      longer := OneMoreDraw(longer, apart, db, p, job, n - 1);
    }
  }

  lemma NothingDrawnYet(units: Table<UnitId, UnitData>, allocs: seq<Allocation>)
    requires forall i :: 0 <= i < |allocs| ==> allocs[i].unit in units
    ensures DrawnRows(units, allocs[..0]) == units
  {
    assert allocs[..0] == [];
  }

  /** A fair draw is one the units can give. */
  lemma FairCanDraw(db: Db, allocs: seq<Allocation>, order: seq<UnitId>)
    requires (forall u :: u in order ==> u in BooksOf(db).units) && FairDraw(allocs, order, BooksOf(db).units)
    ensures CanDraw(db.units, allocs)
  {
    ContentAt(db);
    hide BooksOf;
  }

  lemma OrderDistinct(order: seq<UnitId>, units: Units, sku: Sku)
    requires OrderOf(order, UnitsOf(units, sku))
    ensures Distinct(order) && forall u :: u in order ==> u in units && units[u].sku == sku
  {
  }

  function ReservedDb(db: Db, p: nat, data: ResData): Db
    requires forall i :: 0 <= i < |data.allocations| ==> data.allocations[i].unit in db.units
  {
    db.(units := DrawnRows(db.units, data.allocations), reservations := db.reservations[p := Row(data, 1)],
        outbox := db.outbox + [StockReserved(p, data.sku, data.quantity)])
  }

  lemma ReservedUnits(db: Db, p: nat, data: ResData)
    requires CanDraw(db.units, data.allocations)
    ensures UnitsDrawn(BooksOf(db).units, data.allocations, BooksOf(ReservedDb(db, p, data)).units)
  {
    DrawnRowsAre(db.units, data.allocations);
    hide DrawnRows, DrawnOn, DrawnUnit, CanDraw;
    ContentAt(db);
    ContentAt(ReservedDb(db, p, data));
    hide BooksOf;
  }

  lemma ReservedBooks(db: Db, p: nat, data: ResData)
    requires CanDraw(db.units, data.allocations)
    ensures var b, b' := BooksOf(db), BooksOf(ReservedDb(db, p, data));
      && b'.bins == b.bins
      && b'.reservations == b.reservations[p := data] && b'.log == b.log + [StockReserved(p, data.sku, data.quantity)]
  {
    hide DrawnRows;
    ContentsWritten(db.reservations, p, Row(data, 1));
    hide Contents;
    assert db.reservations[p := Row(data, 1)] == db.reservations + map[p := Row(data, 1)];
  }

  lemma SomethingDrawn(order: seq<UnitId>, units: Units, qty: Quantity)
    requires (forall u :: u in order ==> u in units) && 0 < qty <= TotalUsable(order, units)
    ensures Greedy(order, units, qty) != []
  {
    hide Greedy;
    GreedyCovers(order, units, qty);
  }

  lemma LoneClaim(trace: seq<System>, apart: (Sku, Sku) -> bool, db: Db, p: nat, order: seq<UnitId>, data: ResData, timeout: int)
    returns (longer: seq<System>)
    requires Run(trace, apart) && Last(trace) == Idle(db, p) && p !in db.reservations
    requires CanDraw(db.units, data.allocations) && data.status == ACTIVE && data.expiresAt == data.createdAt + timeout
    requires OrderOf(order, UnitsOf(BooksOf(db).units, data.sku))
    requires var units := BooksOf(db).units;
      0 < data.quantity <= TotalUsable(order, units) && data.allocations == Greedy(order, units, data.quantity) != []
    ensures Run(longer, apart) && trace <= longer && Last(longer) == Idle(ReservedDb(db, p, data), p + 1)
  {
    hide Run, StartReserve, CanDraw, DrawnRows, Greedy, TotalUsable;
    ContentAt(db);
    LoneReserveStarts(db, p, order, data, timeout);
    hide Contents, OrderOf, BooksOf;
    var job := Reserving(data, db.units, 0, false, true);
    longer := Extend(trace, apart, BeginReserve(data.sku, data.quantity, data.demandRef, order, data.createdAt, timeout),
                     Alone(db, p, job, NOTHING));
    longer := DrawsInTurn(longer, apart, db, p, job, |data.allocations|);
    longer := RecordsDrawn(longer, apart, db, p, job);
  }

  lemma RecordsDrawn(trace: seq<System>, apart: (Sku, Sku) -> bool, db: Db, p: nat, job: Job) returns (longer: seq<System>)
    requires job.Reserving? && job.live && !job.filed && p !in db.reservations && CanDraw(db.units, job.data.allocations)
    requires Run(trace, apart) && Last(trace) == AfterDraws(db, p, job, |job.data.allocations|)
    ensures Run(longer, apart) && trace <= longer && Last(longer) == Idle(ReservedDb(db, p, job.data), p + 1)
  {
    hide Run, DrawnRows;
    var allocs := job.data.allocations;
    assert allocs[..|allocs|] == allocs;
    longer := RecordsNext(trace, apart, db.(units := DrawnRows(db.units, allocs)), p, job.(saved := |allocs|));
  }

  /** A reserve for which enough is free, alone from its first statement to its commit, is the new reservation. */
  lemma LoneReserve(trace: seq<System>, apart: (Sku, Sku) -> bool, db: Db, p: nat, order: seq<UnitId>, data: ResData,
                    timeout: int) returns (longer: seq<System>)
    requires Run(trace, apart) && Symmetric(apart) && Last(trace) == Idle(db, p)
    requires OrderOf(order, UnitsOf(BooksOf(db).units, data.sku)) && 0 < data.quantity <= UsableOf(BooksOf(db).units, data.sku)
    requires data.allocations == ListedDraw(order, BooksOf(db).units, data.sku, data.quantity)
    requires data.status == ACTIVE && data.expiresAt == data.createdAt + timeout
    ensures Run(longer, apart) && trace <= longer && Last(longer) == Idle(Last(longer).db, p + 1)
    ensures Allocates(BooksOf(db), p, data, order, BooksOf(Last(longer).db))
  {
    IdleFacts(trace, apart, db, p);
    hide Run, Lawful, UsableOf, DrawnRows, Greedy, CanDraw, TotalUsable, BooksOf, OrderOf, Allocates, ReservedDb, ListedDraw;
    DrawFacts(db, order, data);
    ReservedAllocates(db, p, data, order);
    longer := LoneClaim(trace, apart, db, p, order, data, timeout);
  }

  /** The greedy draw on a listing of the SKU's units. */
  ghost function ListedDraw(order: seq<UnitId>, units: Units, sku: Sku, qty: Quantity): seq<Allocation>
    requires OrderOf(order, UnitsOf(units, sku))
  {
    OrderDistinct(order, units, sku);
    Greedy(order, units, qty)
  }

  lemma DrawFacts(db: Db, order: seq<UnitId>, data: ResData)
    requires OrderOf(order, UnitsOf(BooksOf(db).units, data.sku)) && 0 < data.quantity <= UsableOf(BooksOf(db).units, data.sku)
    requires data.allocations == ListedDraw(order, BooksOf(db).units, data.sku, data.quantity)
    ensures CanDraw(db.units, data.allocations) && forall u :: u in order ==> u in BooksOf(db).units
    ensures 0 < data.quantity <= TotalUsable(order, BooksOf(db).units)
    ensures data.allocations == Greedy(order, BooksOf(db).units, data.quantity) != []
  {
    hide UsableOf, Greedy, CanDraw, TotalUsable, BooksOf, OrderOf, FairDraw;
    var units := BooksOf(db).units;
    OrderDistinct(order, units, data.sku);
    UsableInAnyOrder(order, units, data.sku);
    SomethingDrawn(order, units, data.quantity);
    GreedyIsFair(order, units, data.quantity);
    FairCanDraw(db, data.allocations, order);
  }

  lemma ReservedAllocates(db: Db, p: nat, data: ResData, order: seq<UnitId>)
    requires OrderOf(order, UnitsOf(BooksOf(db).units, data.sku)) && data.quantity <= UsableOf(BooksOf(db).units, data.sku)
    requires data.allocations == ListedDraw(order, BooksOf(db).units, data.sku, data.quantity)
    requires CanDraw(db.units, data.allocations) && p !in db.reservations && data.status == ACTIVE
    ensures Allocates(BooksOf(db), p, data, order, BooksOf(ReservedDb(db, p, data)))
  {
    hide UsableOf, Greedy, CanDraw, UnitsDrawn, DrawnRows;
    ReservedUnits(db, p, data);
    ReservedBooks(db, p, data);
    ContentAt(db);
    hide BooksOf;
  }

  // ---- stowing and registering

  /** A stow that passes its checks and fits, alone from its first statement to its commit, is that stow. */
  lemma LoneStow(trace: seq<System>, apart: (Sku, Sku) -> bool, db: Db, p: nat, sku: Sku, qty: Quantity, bin: BinId)
    returns (longer: seq<System>)
    requires Run(trace, apart) && Symmetric(apart) && Last(trace) == Idle(db, p)
    requires bin in db.bins && NoClash(BooksOf(db).units, sku, bin, apart)
    requires sku != "" && bin != "" && 0 < qty && db.bins[bin].content.occupied + qty <= db.bins[bin].content.capacity
    ensures Run(longer, apart) && trace <= longer && Last(longer) == Idle(Last(longer).db, p + 1)
    ensures Stowed(BooksOf(db), sku, qty, bin, Pass, BooksOf(Last(longer).db), Ok(p))
  {
    IdleFacts(trace, apart, db, p);
    ClearByBooks(db, sku, bin, apart);
    hide Run, Lawful, Clear, NoClash, BooksOf;
    longer := StowsAlone(trace, apart, db, p, UnitData(sku, bin, qty, 0, AVAILABLE));
    StowedBooks(db, p, sku, qty, bin, Last(longer).db);
  }

  lemma StowedBooks(db: Db, p: nat, sku: Sku, qty: Quantity, bin: BinId, db': Db)
    requires bin in db.bins && p !in db.units && sku != "" && bin != "" && 0 < qty && db.bins[bin].content.Occupy(qty).Ok?
    requires var unit, row := UnitData(sku, bin, qty, 0, AVAILABLE), db.bins[bin];
      db' == Db(db.units[p := Row(unit, 1)], db.bins[bin := Row(row.content.Occupy(qty).value, row.version + 1)], db.reservations,
                db.outbox + [ItemStowed(sku, bin, qty), LocationRecorded(p, bin)])
    ensures Stowed(BooksOf(db), sku, qty, bin, Pass, BooksOf(db'), Ok(p))
  {
    var unit, bins := Row(UnitData(sku, bin, qty, 0, AVAILABLE), 1), db.bins;
    var row := Row(bins[bin].content.Occupy(qty).value, bins[bin].version + 1);
    ContentAt(db);
    RowWritten(db.units, p, unit);
    RowWritten(bins, bin, row);
    hide Contents;
  }

  lemma RowWritten<K, V>(t: Table<K, V>, k: K, row: Row<V>)
    ensures Contents(t[k := row]) == Contents(t)[k := row.content]
  {
  }

  lemma ClearByBooks(db: Db, sku: Sku, bin: BinId, apart: (Sku, Sku) -> bool)
    requires NoClash(BooksOf(db).units, sku, bin, apart)
    ensures Clear(db.units, sku, bin, apart)
  {
    ContentAt(db);
    hide BooksOf;
    forall u | u in db.units && db.units[u].content.bin == bin && db.units[u].content.sku != sku
      ensures !apart(sku, db.units[u].content.sku)
    {
      assert u in BooksOf(db).units && BooksOf(db).units[u].bin == bin;
    }
  }

  /** A registration, alone from its first statement to its commit, is that registration; it has nothing to do for a bin as wanted. */
  lemma LoneRegistration(trace: seq<System>, apart: (Sku, Sku) -> bool, db: Db, p: nat, bin: BinId, capacity: Quantity)
    returns (longer: seq<System>, out: BinOutcome)
    requires Run(trace, apart) && Last(trace) == Idle(db, p)
    requires bin != "" && capacity > 0 && (bin in db.bins ==> db.bins[bin].content.occupied <= capacity)
    ensures Run(longer, apart) && trace <= longer && Last(longer).requests == map[]
    ensures Registered(BooksOf(db), bin, capacity, BooksOf(Last(longer).db), Ok(out))
  {
    hide Run;
    ContentAt(db);
    if bin !in db.bins {
      longer := RegistersAlone(trace, apart, db, p, bin, capacity);
      RowWritten(db.bins, bin, Row(BinData(capacity, 0), 1));
      out := BinCreated;
    } else if db.bins[bin].content.capacity == capacity {
      longer, out := trace, BinUnchanged;
    } else {
      longer := ResizesAlone(trace, apart, db, p, bin, capacity);
      RowWritten(db.bins, bin, Row(db.bins[bin].content.(capacity := capacity), db.bins[bin].version + 1));
      out := BinResized;
    }
  }

  lemma ResizesAlone(trace: seq<System>, apart: (Sku, Sku) -> bool, db: Db, p: nat, k: BinId, capacity: Quantity)
    returns (longer: seq<System>)
    requires Run(trace, apart) && Last(trace) == Idle(db, p) && k in db.bins
    requires 0 < capacity != db.bins[k].content.capacity && db.bins[k].content.occupied <= capacity
    ensures Run(longer, apart) && trace <= longer
    ensures Last(longer) ==
            Idle(db.(bins := db.bins[k := Row(db.bins[k].content.(capacity := capacity), db.bins[k].version + 1)]), p + 1)
  {
    hide Run, StepRegister, Commit;
    var data := db.bins[k].content.(capacity := capacity);
    var row := Row(data, db.bins[k].version + 1);
    var job := Registering(k, Some(db.bins[k]), data, false);
    var w := Writes(map[], map[k := row], map[]);
    AloneSteps(db, p, job, NOTHING, job, NOTHING);
    longer := Extend(trace, apart, BeginRegister(k, capacity), Alone(db, p, job, NOTHING));
    LoneResizes(db, p, job);
    longer := Extend(longer, apart, Advance(p), Alone(db, p, job.(binStaged := true), w));
    longer := Extend(longer, apart, Advance(p), Idle(Commit(db, w, []), p + 1));
    Committed(db, w, []);
    assert db.bins + w.bins == db.bins[k := row] && db.outbox + [] == db.outbox;
  }

  lemma LoneResizes(db: Db, p: nat, job: Job)
    requires job.Registering? && !job.binStaged && job.binId in db.bins && job.found == Some(db.bins[job.binId])
    ensures var w := Writes(map[], map[job.binId := Row(job.next, db.bins[job.binId].version + 1)], map[]);
      && StepRegister(Alone(db, p, job, NOTHING), p) == Some(Alone(db, p, job.(binStaged := true), w))
      && StepRegister(Alone(db, p, job.(binStaged := true), w), p) == Some(Idle(Commit(db, w, []), p + 1))
  {
    hide Abort, Commit;
    var w := Writes(map[], map[job.binId := Row(job.next, db.bins[job.binId].version + 1)], map[]);
    AloneSteps(db, p, job, NOTHING, job.(binStaged := true), w);
    AloneSteps(db, p, job.(binStaged := true), w, job, w);
    assert db.bins + NOTHING.bins == db.bins;
  }

  // ---- counting

  lemma AmidCount(trace: seq<System>, apart: (Sku, Sku) -> bool, db: Db, p: nat, job: Job, w: Writes)
    requires Run(trace, apart) && Symmetric(apart) && Last(trace) == Alone(db, p, job, w) && job.Counting?
    ensures CountInv(db, Request(job, w))
  {
    RunKeepsInv(trace, apart, |trace| - 1);
    hide Run, Lawful, BooksOf, Segregated;
    RequestOf(Last(trace), p, apart);
  }

  lemma LoneFlags(db: Db, p: nat, job: Job, w: Writes)
    requires job.Counting? && CountInv(db, Request(job, w)) && job.read == db.units && job.staged < |job.lost.items|
    ensures var u := job.lost.items[job.staged].unit;
      && u in db.units
      && var row := Row(db.units[u].content.MarkUnlocated(), db.units[u].version + 1);
      StepCount(Alone(db, p, job, w), p) ==
      Some(Alone(db, p, job.(staged := job.staged + 1), w.(units := w.units[u := row])))
  {
    hide Abort;
    var u := job.lost.items[job.staged].unit;
    var row := Row(db.units[u].content.MarkUnlocated(), db.units[u].version + 1);
    AloneSteps(db, p, job, w, job.(staged := job.staged + 1), w.(units := w.units[u := row]));
    assert u !in w.units;
  }

  lemma LoneCountEnds(db: Db, p: nat, job: Job, w: Writes)
    requires job.Counting? && job.staged == |job.lost.items|
    ensures StepCount(Alone(db, p, job, w), p) == Some(Idle(Commit(db, w, job.events.items), p + 1))
  {
    hide Abort, Commit;
    AloneSteps(db, p, job, w, job, w);
  }

  lemma CountGoesOn(trace: seq<System>, apart: (Sku, Sku) -> bool, p: nat, next: System) returns (longer: seq<System>)
    requires Run(trace, apart) && p in Last(trace).requests && Last(trace).requests[p].job.Counting?
    requires StepCount(Last(trace), p) == Some(next)
    ensures Run(longer, apart) && longer == trace + [next]
  {
    hide Run, StepCount;
    longer := Extend(trace, apart, Advance(p), next);
  }

  lemma {:induction false} CountsOn(trace: seq<System>, apart: (Sku, Sku) -> bool, db: Db, p: nat, job: Job, w: Writes)
    returns (longer: seq<System>, w': Writes)
    requires Run(trace, apart) && Symmetric(apart) && Last(trace) == Alone(db, p, job, w)
    requires job.Counting? && job.read == db.units && job.staged <= |job.lost.items|
    ensures Run(longer, apart) && trace <= longer
    ensures CountInv(db, Request(job.(staged := |job.lost.items|), w'))
    ensures Last(longer) == Idle(Commit(db, w', job.events.items), p + 1)
    decreases |job.lost.items| - job.staged
  {
    hide Run, CountInv, StepCount, Commit;
    AmidCount(trace, apart, db, p, job, w);
    if job.staged == |job.lost.items| {
      LoneCountEnds(db, p, job, w);
      longer := CountGoesOn(trace, apart, p, Idle(Commit(db, w, job.events.items), p + 1));
      w' := w;
    } else {
      LoneFlags(db, p, job, w);
      var u := job.lost.items[job.staged].unit;
      var row := Row(db.units[u].content.MarkUnlocated(), db.units[u].version + 1);
      var more := w.(units := w.units[u := row]);
      longer := CountGoesOn(trace, apart, p, Alone(db, p, job.(staged := job.staged + 1), more));
      longer, w' := CountsOn(longer, apart, db, p, job.(staged := job.staged + 1), more);
    }
  }

  /** A cycle count, alone from its first statement to its commit, is that count, on any listing of the bin's units. */
  lemma LoneCount(trace: seq<System>, apart: (Sku, Sku) -> bool, db: Db, p: nat, bin: BinId, counted: Quantity,
                  order: seq<UnitId>) returns (longer: seq<System>, out: CountReport)
    requires Run(trace, apart) && Symmetric(apart) && Last(trace) == Idle(db, p)
    requires OrderOf(order, UnitsIn(BooksOf(db).units, bin))
    ensures Run(longer, apart) && trace <= longer && Last(longer).requests == map[]
    ensures (forall u :: u in order ==> u in BooksOf(db).units)
            && CountedInOrder(BooksOf(db), bin, counted, order, BooksOf(Last(longer).db), out)
  {
    hide Run, Count, CountInv, Flags, Commit;
    ContentAt(db);
    var c := Count(bin, counted, order, BooksOf(db).units);
    var job := Counting(Held(c.lost), Held(c.events), db.units, 0);
    AloneSteps(db, p, job, NOTHING, job, NOTHING);
    longer := Extend(trace, apart, BeginCount(bin, counted, order), Alone(db, p, job, NOTHING));
    var w;
    longer, w := CountsOn(longer, apart, db, p, job, NOTHING);
    var q := Request(job.(staged := |c.lost|), w);
    CountCommits(db, p, q);
    FlagsAreLost(db, q);
    out := CountReport(c.systemQty, counted != c.systemQty);
  }

  lemma FlagsAreLost(db: Db, q: Request)
    requires q.job.Counting? && CountInv(db, q) && q.job.staged == |q.job.lost.items|
    ensures q.writes.units.Keys == LostUnits(q.job.lost.items)
  {
  }
}
