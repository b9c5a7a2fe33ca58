/** Requests that run from start to end with no other request in between, as extensions of a run. */
module LoneRuns {
  import opened Shared
  import opened Stock
  import opened Location
  import opened Claims
  import opened Ledger
  import opened Transitions
  import opened GreedyAllocation
  import opened Rows
  import opened Requests

  function Last(trace: seq<System>): System
    requires trace != []
  {
    trace[|trace| - 1]
  }

  lemma Extend(trace: seq<System>, apart: (Sku, Sku) -> bool, a: Action, next: System) returns (longer: seq<System>)
    requires Run(trace, apart) && Act(Last(trace), a, apart) == Some(next)
    ensures Run(longer, apart) && longer == trace + [next]
  {
    hide Act;
    longer := trace + [next];
    forall i | 0 <= i < |longer| - 1 ensures Step(longer[i], longer[i + 1], apart) {
      if i < |trace| - 1 {
        assert Step(trace[i], trace[i + 1], apart);
      }
    }
  }

  /** A request at some point of its life, in a system where it is alone. */
  function Alone(db: Db, p: nat, job: Job, writes: Writes): System {
    System(db, map[p := Request(job, writes)], p + 1)
  }

  function Idle(db: Db, next: nat): System {
    System(db, map[], next)
  }

  lemma AloneSteps(db: Db, p: nat, job: Job, w: Writes, job': Job, w': Writes)
    ensures Begin(Idle(db, p), job) == Alone(db, p, job, NOTHING)
    ensures Continue(Alone(db, p, job, w), p, job', w') == Alone(db, p, job', w')
    ensures Finish(Alone(db, p, job, w), p) == Idle(Commit(db, w, Published(p, job)), p + 1)
    ensures UnitFree(Alone(db, p, job, w), p, p) && ReservationFree(Alone(db, p, job, w), p, p)
  {
    assert map[p := Request(job, w)][p := Request(job', w')] == map[p := Request(job', w')];
    assert (map[p := Request(job, w)] - {p}) == map[];
  }

  lemma RegistersAlone(trace: seq<System>, apart: (Sku, Sku) -> bool, db: Db, p: nat, k: BinId, capacity: Quantity)
    returns (longer: seq<System>)
    requires Run(trace, apart) && Last(trace) == Idle(db, p)
    requires k !in db.bins && k != "" && capacity > 0
    ensures Run(longer, apart) && trace <= longer
    ensures Last(longer) == Idle(db.(bins := db.bins[k := Row(BinData(capacity, 0), 1)]), p + 1)
  {
    hide Run, StepRegister, Commit;
    var row := Row(BinData(capacity, 0), 1);
    var job := Registering(k, None, BinData(capacity, 0), false);
    var w := Writes(map[], map[k := row], map[]);
    AloneSteps(db, p, job, NOTHING, job, NOTHING);
    longer := Extend(trace, apart, BeginRegister(k, capacity), Alone(db, p, job, NOTHING));
    LoneRegisters(db, p, job);
    longer := Extend(longer, apart, Advance(p), Alone(db, p, job.(binStaged := true), w));
    longer := Extend(longer, apart, Advance(p), Idle(Commit(db, w, []), p + 1));
    Committed(db, w, []);
    assert db.bins + w.bins == db.bins[k := row] && db.outbox + [] == db.outbox;
  }

  lemma LoneRegisters(db: Db, p: nat, job: Job)
    requires job.Registering? && !job.binStaged && job.found.None? && job.binId !in db.bins
    ensures var w := Writes(map[], map[job.binId := Row(job.next, 1)], map[]);
      && StepRegister(Alone(db, p, job, NOTHING), p) == Some(Alone(db, p, job.(binStaged := true), w))
      && StepRegister(Alone(db, p, job.(binStaged := true), w), p) == Some(Idle(Commit(db, w, []), p + 1))
  {
    hide Abort, Commit;
    var w := Writes(map[], map[job.binId := Row(job.next, 1)], map[]);
    AloneSteps(db, p, job, NOTHING, job.(binStaged := true), w);
    AloneSteps(db, p, job.(binStaged := true), w, job, w);
    assert db.bins + NOTHING.bins == db.bins;
  }

  lemma StowsAlone(trace: seq<System>, apart: (Sku, Sku) -> bool, db: Db, p: nat, unit: UnitData) returns (longer: seq<System>)
    requires Run(trace, apart) && Last(trace) == Idle(db, p) && p !in db.units
    requires NewUnit(unit.sku, unit.bin, unit.quantity) == Ok(unit) && unit.bin in db.bins
    requires Clear(db.units, unit.sku, unit.bin, apart) && db.bins[unit.bin].content.Occupy(unit.quantity).Ok?
    ensures Run(longer, apart) && trace <= longer
    ensures var bin := db.bins[unit.bin];
      Last(longer) == Idle(Db(db.units[p := Row(unit, 1)],
                              db.bins[unit.bin := Row(bin.content.Occupy(unit.quantity).value, bin.version + 1)],
                              db.reservations,
                              db.outbox + [ItemStowed(unit.sku, unit.bin, unit.quantity), LocationRecorded(p, unit.bin)]), p + 1)
  {
    hide StepStow, StepReserve, StepResolve, StepCount, StepRegister, StartReserve, StartRegister, Commit, Run;
    var k, bin := unit.bin, db.bins[unit.bin];
    var job := Stowing(unit, bin, Opened);
    var occupied := Row(bin.content.Occupy(unit.quantity).value, bin.version + 1);
    var w := Writes(map[p := Row(unit, 1)], map[k := occupied], map[]);
    AloneSteps(db, p, job, NOTHING, job, NOTHING);
    longer := Extend(trace, apart, BeginStow(unit.sku, unit.quantity, k), Alone(db, p, job, NOTHING));
    LoneStowSteps(db, p, job, apart);
    longer := Extend(longer, apart, Advance(p), Alone(db, p, job.(stage := Checked), NOTHING));
    longer := Extend(longer, apart, Advance(p), Alone(db, p, job.(stage := BinSaved), w.(units := map[])));
    longer := Extend(longer, apart, Advance(p), Alone(db, p, job.(stage := UnitSaved), w));
    longer := Extend(longer, apart, Advance(p), Idle(Commit(db, w, Published(p, job)), p + 1));
    Committed(db, w, Published(p, job));
    assert db.units + w.units == db.units[p := Row(unit, 1)] && db.bins + w.bins == db.bins[k := occupied];
  }

  lemma Committed(db: Db, w: Writes, events: seq<Event>)
    ensures Commit(db, w, events) == Db(db.units + w.units, db.bins + w.bins, db.reservations + w.reservations, db.outbox + events)
    ensures w.units == map[] ==> db.units + w.units == db.units
    ensures w.bins == map[] ==> db.bins + w.bins == db.bins
    ensures w.reservations == map[] ==> db.reservations + w.reservations == db.reservations
  {
  }

  lemma LoneStowSteps(db: Db, p: nat, job: Job, apart: (Sku, Sku) -> bool)
    requires job.Stowing? && job.stage == Opened && job.unit.bin in db.bins && job.bin == db.bins[job.unit.bin] && p !in db.units
    requires Clear(db.units, job.unit.sku, job.unit.bin, apart) && job.bin.content.Occupy(job.unit.quantity).Ok?
    ensures var occupied := Row(job.bin.content.Occupy(job.unit.quantity).value, job.bin.version + 1);
      var w := Writes(map[p := Row(job.unit, 1)], map[job.unit.bin := occupied], map[]);
      && StepStow(Alone(db, p, job, NOTHING), p, apart) == Some(Alone(db, p, job.(stage := Checked), NOTHING))
      && StepStow(Alone(db, p, job.(stage := Checked), NOTHING), p, apart) ==
         Some(Alone(db, p, job.(stage := BinSaved), w.(units := map[])))
      && StepStow(Alone(db, p, job.(stage := BinSaved), w.(units := map[])), p, apart) ==
         Some(Alone(db, p, job.(stage := UnitSaved), w))
      && StepStow(Alone(db, p, job.(stage := UnitSaved), w), p, apart) == Some(Idle(Commit(db, w, Published(p, job)), p + 1))
  {
    hide Commit, Clear, Abort;
    var occupied := Row(job.bin.content.Occupy(job.unit.quantity).value, job.bin.version + 1);
    var w := Writes(map[p := Row(job.unit, 1)], map[job.unit.bin := occupied], map[]);
    var binOnly := w.(units := map[]);
    AloneSteps(db, p, job, NOTHING, job.(stage := Checked), NOTHING);
    AloneSteps(db, p, job.(stage := Checked), NOTHING, job.(stage := BinSaved), binOnly);
    AloneSteps(db, p, job.(stage := BinSaved), binOnly, job.(stage := UnitSaved), w);
    AloneSteps(db, p, job.(stage := UnitSaved), w, job, w);
    assert db.bins + NOTHING.bins == db.bins && db.units + binOnly.units == db.units;
    assert NOTHING.bins[job.unit.bin := occupied] == binOnly.bins && binOnly.units[p := Row(job.unit, 1)] == w.units;
  }

  // ---- a reserve

  lemma ReserveGoesOn(trace: seq<System>, apart: (Sku, Sku) -> bool, p: nat, next: System) returns (longer: seq<System>)
    requires Run(trace, apart) && p in Last(trace).requests && Last(trace).requests[p].job.Reserving?
    requires StepReserve(Last(trace), p) == Some(next)
    ensures Run(longer, apart) && longer == trace + [next]
  {
    hide Run, StepReserve;
    longer := Extend(trace, apart, Advance(p), next);
  }

  /** A reserve that finds all it needs on the one unit of its SKU. */
  lemma ReservesAlone(trace: seq<System>, apart: (Sku, Sku) -> bool, db: Db, p: nat, u: UnitId, qty: Quantity, ref: string,
                 now: Time, timeout: int) returns (longer: seq<System>)
    requires Run(trace, apart) && Last(trace) == Idle(db, p) && p !in db.reservations
    requires u in db.units && 0 < qty <= db.units[u].content.Usable()
    requires forall x :: x in db.units && db.units[x].content.sku == db.units[u].content.sku ==> x == u
    ensures Run(longer, apart) && trace <= longer
    ensures var unit := db.units[u].content;
      var data := ResData(unit.sku, qty, ref, [Allocation(u, unit.bin, qty)], ACTIVE, now, now + timeout);
      Last(longer) == Idle(Db(db.units[u := Row(unit.Reserve(qty).value, db.units[u].version + 1)], db.bins,
                              db.reservations[p := Row(data, 1)], db.outbox + [StockReserved(p, unit.sku, qty)]), p + 1)
  {
    hide StartReserve, Run;
    var unit := db.units[u].content;
    var data := ResData(unit.sku, qty, ref, [Allocation(u, unit.bin, qty)], ACTIVE, now, now + timeout);
    var job := Reserving(data, db.units, 0, false, true);
    LoneReserveBegins(db, p, u, qty, ref, now, timeout);
    longer := Extend(trace, apart, BeginReserve(unit.sku, qty, ref, [u], now, timeout), Alone(db, p, job, NOTHING));
    longer := DrawsNext(longer, apart, db, p, job, u);
    var db1 := db.(units := db.units[u := Row(unit.Reserve(qty).value, db.units[u].version + 1)]);
    longer := RecordsNext(longer, apart, db1, p, job.(saved := 1));
  }

  lemma LoneReserveStarts(db: Db, p: nat, order: seq<UnitId>, data: ResData, timeout: int)
    requires OrderOf(order, set u | u in db.units && db.units[u].content.sku == data.sku)
    requires var units := Contents(db.units);
      0 < data.quantity <= TotalUsable(order, units) && data.allocations == Greedy(order, units, data.quantity) != []
    requires data.status == ACTIVE && data.expiresAt == data.createdAt + timeout
    ensures StartReserve(Idle(db, p), data.sku, data.quantity, data.demandRef, order, data.createdAt, timeout) ==
            Some(Alone(db, p, Reserving(data, db.units, 0, false, true), NOTHING))
  {
    var job := Reserving(data, db.units, 0, false, true);
    AloneSteps(db, p, job, NOTHING, job, NOTHING);
  }

  lemma LoneReserveBegins(db: Db, p: nat, u: UnitId, qty: Quantity, ref: string, now: Time, timeout: int)
    requires u in db.units && 0 < qty <= db.units[u].content.Usable()
    requires forall x :: x in db.units && db.units[x].content.sku == db.units[u].content.sku ==> x == u
    ensures var unit := db.units[u].content;
      var data := ResData(unit.sku, qty, ref, [Allocation(u, unit.bin, qty)], ACTIVE, now, now + timeout);
      StartReserve(Idle(db, p), unit.sku, qty, ref, [u], now, timeout) ==
      Some(Alone(db, p, Reserving(data, db.units, 0, false, true), NOTHING))
  {
    var unit := db.units[u].content;
    var data := ResData(unit.sku, qty, ref, [Allocation(u, unit.bin, qty)], ACTIVE, now, now + timeout);
    assert (set x | x in db.units && db.units[x].content.sku == unit.sku) == {u};
    assert [u][..0] == [];
    assert Greedy([u], Contents(db.units), qty) == [Allocation(u, unit.bin, qty)];
    AloneSteps(db, p, Reserving(data, db.units, 0, false, true), NOTHING, Reserving(data, db.units, 0, false, true), NOTHING);
  }

  lemma LoneDraws(db: Db, p: nat, job: Job, u: UnitId)
    requires job.Reserving? && job.live && !job.filed && job.saved < |job.data.allocations|
    requires job.data.allocations[job.saved].unit == u && u in db.units && u in job.base && job.base[u] == db.units[u]
    requires db.units[u].content.Reserve(job.data.allocations[job.saved].quantity).Ok?
    ensures var drawn := db.units[u].content.Reserve(job.data.allocations[job.saved].quantity).value;
      StepReserve(Alone(db, p, job, NOTHING), p) ==
      Some(Alone(Commit(db, Writes(map[u := Row(drawn, db.units[u].version + 1)], map[], map[]), []), p,
                 job.(saved := job.saved + 1), NOTHING))
  {
    hide Abort, Commit;
    AloneSteps(db, p, job, NOTHING, job.(saved := job.saved + 1), NOTHING);
  }

  /** One draw of a reserve, saved and committed at once. */
  lemma DrawsNext(trace: seq<System>, apart: (Sku, Sku) -> bool, db: Db, p: nat, job: Job, u: UnitId)
    returns (longer: seq<System>)
    requires Run(trace, apart) && Last(trace) == Alone(db, p, job, NOTHING)
    requires job.Reserving? && job.live && !job.filed && job.saved < |job.data.allocations|
    requires job.data.allocations[job.saved].unit == u && u in db.units && u in job.base && job.base[u] == db.units[u]
    requires db.units[u].content.Reserve(job.data.allocations[job.saved].quantity).Ok?
    ensures Run(longer, apart) && trace <= longer
    ensures var drawn := db.units[u].content.Reserve(job.data.allocations[job.saved].quantity).value;
      Last(longer) == Alone(db.(units := db.units[u := Row(drawn, db.units[u].version + 1)]), p,
                            job.(saved := job.saved + 1), NOTHING)
  {
    hide Run, StepReserve, Commit;
    var row := Row(db.units[u].content.Reserve(job.data.allocations[job.saved].quantity).value, db.units[u].version + 1);
    var w := Writes(map[u := row], map[], map[]);
    LoneDraws(db, p, job, u);
    longer := ReserveGoesOn(trace, apart, p, Alone(Commit(db, w, []), p, job.(saved := job.saved + 1), NOTHING));
    Committed(db, w, []);
    assert db.units + w.units == db.units[u := row] && db.outbox + [] == db.outbox;
  }

  /** With every unit saved, the reservation is recorded and the reserve is over. */
  lemma RecordsNext(trace: seq<System>, apart: (Sku, Sku) -> bool, db: Db, p: nat, job: Job) returns (longer: seq<System>)
    requires Run(trace, apart) && Last(trace) == Alone(db, p, job, NOTHING)
    requires job.Reserving? && job.live && !job.filed && job.saved == |job.data.allocations| && p !in db.reservations
    ensures Run(longer, apart) && trace <= longer
    ensures Last(longer) == Idle(db.(reservations := db.reservations[p := Row(job.data, 1)],
                                     outbox := db.outbox + [StockReserved(p, job.data.sku, job.data.quantity)]), p + 1)
  {
    hide Run, StepReserve, Commit;
    var filed := NOTHING.(reservations := map[p := Row(job.data, 1)]);
    LoneFiles(db, p, job);
    longer := ReserveGoesOn(trace, apart, p, Alone(db, p, job.(filed := true), filed));
    LoneFinishes(db, p, job.(filed := true), filed);
    longer := ReserveGoesOn(longer, apart, p, Idle(Commit(db, filed, Published(p, job)), p + 1));
    Committed(db, filed, Published(p, job));
    assert db.reservations + filed.reservations == db.reservations[p := Row(job.data, 1)];
  }

  lemma LoneFiles(db: Db, p: nat, job: Job)
    requires job.Reserving? && job.live && !job.filed && job.saved == |job.data.allocations| && p !in db.reservations
    ensures StepReserve(Alone(db, p, job, NOTHING), p) ==
            Some(Alone(db, p, job.(filed := true), NOTHING.(reservations := map[p := Row(job.data, 1)])))
  {
    hide Abort;
    AloneSteps(db, p, job, NOTHING, job.(filed := true), NOTHING.(reservations := map[p := Row(job.data, 1)]));
    assert db.reservations + NOTHING.reservations == db.reservations;
  }

  lemma LoneFinishes(db: Db, p: nat, job: Job, w: Writes)
    requires job.Reserving? && job.live && job.filed && job.saved <= |job.data.allocations|
    ensures StepReserve(Alone(db, p, job, w), p) == Some(Idle(Commit(db, w, Published(p, job)), p + 1))
  {
    hide Abort, Commit;
    AloneSteps(db, p, job, w, job, w);
  }

  // ---- a resolution

  lemma ResolveGoesOn(trace: seq<System>, apart: (Sku, Sku) -> bool, p: nat, next: System) returns (longer: seq<System>)
    requires Run(trace, apart) && p in Last(trace).requests && Last(trace).requests[p].job.Resolving?
    requires StepResolve(Last(trace), p) == Some(next)
    ensures Run(longer, apart) && longer == trace + [next]
  {
    hide Run, StepResolve;
    longer := Extend(trace, apart, Advance(p), next);
  }

  lemma ResolveBegins(trace: seq<System>, apart: (Sku, Sku) -> bool, db: Db, p: nat, r: ResId, to: Status)
    returns (longer: seq<System>)
    requires Run(trace, apart) && Last(trace) == Idle(db, p)
    requires r in db.reservations && db.reservations[r].content.status == ACTIVE && to != ACTIVE
    ensures Run(longer, apart) && trace <= longer
    ensures Last(longer) == Alone(db, p, Resolving(r, db.reservations[r], to, 0, AtUnit, false), NOTHING)
  {
    hide Run;
    var job := Resolving(r, db.reservations[r], to, 0, AtUnit, false);
    AloneSteps(db, p, job, NOTHING, job, NOTHING);
    longer := Extend(trace, apart, BeginResolve(r, to), Alone(db, p, job, NOTHING));
  }

  /** An expiry of a reservation drawn on one unit. */
  lemma ExpiresAlone(trace: seq<System>, apart: (Sku, Sku) -> bool, db: Db, p: nat, r: ResId) returns (longer: seq<System>)
    requires Run(trace, apart) && Last(trace) == Idle(db, p)
    requires r in db.reservations && db.reservations[r].content.status == ACTIVE && |db.reservations[r].content.allocations| == 1
    requires var a := db.reservations[r].content.allocations[0];
      a.unit in db.units && a.quantity <= db.units[a.unit].content.reserved
    ensures Run(longer, apart) && trace <= longer
    ensures var row := db.reservations[r];
      var a := row.content.allocations[0];
      Last(longer) == Idle(Db(db.units[a.unit := Row(db.units[a.unit].content.ReleaseReservation(a.quantity).value,
                                                     db.units[a.unit].version + 1)], db.bins,
                              db.reservations[r := Row(row.content.(status := EXPIRED), row.version + 1)],
                              db.outbox + [ReservationExpired(r, row.content.sku)]), p + 1)
  {
    hide StepResolve, Commit, Run;
    var a := db.reservations[r].content.allocations[0];
    var job := Resolving(r, db.reservations[r], EXPIRED, 0, AtUnit, false);
    var released := NOTHING.(units := map[a.unit := Row(db.units[a.unit].content.ReleaseReservation(a.quantity).value,
                                                        db.units[a.unit].version + 1)]);
    longer := ResolveBegins(trace, apart, db, p, r, EXPIRED);
    longer := ReleasesNext(longer, apart, db, p, job, NOTHING, a);
    assert ReleaseUnit(db, NOTHING, a) == released;
    longer := ResolvedNext(longer, apart, db, p, job.(done := 1), released);
    assert db.units + released.units == db.units[a.unit := released.units[a.unit]] && db.bins + released.bins == db.bins;
  }

  /** With every allocation done, the reservation is saved and the transaction commits. */
  lemma ResolvedNext(trace: seq<System>, apart: (Sku, Sku) -> bool, db: Db, p: nat, job: Job, w: Writes)
    returns (longer: seq<System>)
    requires Run(trace, apart) && Last(trace) == Alone(db, p, job, w)
    requires job.Resolving? && !job.recorded && job.done == |job.row.content.allocations| && w.reservations == map[]
    requires job.res in db.reservations && db.reservations[job.res] == job.row
    ensures Run(longer, apart) && trace <= longer && |longer| >= 2 && longer[|longer| - 2].db == db
    ensures var row := Row(job.row.content.(status := job.to), job.row.version + 1);
      Last(longer) == Idle(Db(db.units + w.units, db.bins + w.bins, db.reservations[job.res := row],
                              db.outbox + [ResolutionEvent(job.res, job.row.content, job.to)]), p + 1)
  {
    hide Run, StepResolve, Commit;
    var w' := w.(reservations := map[job.res := Row(job.row.content.(status := job.to), job.row.version + 1)]);
    LoneRecord(db, p, job, w);
    longer := ResolveGoesOn(trace, apart, p, Alone(db, p, job.(recorded := true), w'));
    longer := ResolveGoesOn(longer, apart, p, Idle(Commit(db, w', Published(p, job)), p + 1));
    Committed(db, w', Published(p, job));
    assert db.reservations + w'.reservations == db.reservations[job.res := w'.reservations[job.res]];
  }

  /** One allocation's slice of a release: the unit read and saved. */
  lemma LoneRelease(db: Db, p: nat, job: Job, w: Writes, a: Allocation)
    requires job.Resolving? && job.to != CONFIRMED && !job.recorded && job.at == AtUnit
    requires job.done < |job.row.content.allocations| && job.row.content.allocations[job.done] == a
    requires a.unit in db.units && a.unit !in w.units && a.quantity <= db.units[a.unit].content.reserved
    ensures var reading := job.(at := UnitRead(db.units[a.unit]));
      && StepResolve(Alone(db, p, job, w), p) == Some(Alone(db, p, reading, w))
      && StepResolve(Alone(db, p, reading, w), p) == Some(Alone(db, p, job.(done := job.done + 1), ReleaseUnit(db, w, a)))
  {
    hide Abort;
    var reading := job.(at := UnitRead(db.units[a.unit]));
    AloneSteps(db, p, job, w, reading, w);
    AloneSteps(db, p, reading, w, job.(done := job.done + 1), ReleaseUnit(db, w, a));
  }

  function ReleaseUnit(db: Db, w: Writes, a: Allocation): Writes
    requires a.unit in db.units && a.quantity <= db.units[a.unit].content.reserved
  {
    var row := db.units[a.unit];
    w.(units := w.units[a.unit := Row(row.content.ReleaseReservation(a.quantity).value, row.version + 1)])
  }

  lemma ReleasesNext(trace: seq<System>, apart: (Sku, Sku) -> bool, db: Db, p: nat, job: Job, w: Writes, a: Allocation)
    returns (longer: seq<System>)
    requires Run(trace, apart) && Last(trace) == Alone(db, p, job, w)
    requires job.Resolving? && job.to != CONFIRMED && !job.recorded && job.at == AtUnit
    requires job.done < |job.row.content.allocations| && job.row.content.allocations[job.done] == a
    requires a.unit in db.units && a.unit !in w.units && a.quantity <= db.units[a.unit].content.reserved
    ensures Run(longer, apart) && trace <= longer
    ensures Last(longer) == Alone(db, p, job.(done := job.done + 1), ReleaseUnit(db, w, a))
  {
    hide Run, StepResolve, ReleaseUnit;
    LoneRelease(db, p, job, w, a);
    longer := ResolveGoesOn(trace, apart, p, Alone(db, p, job.(at := UnitRead(db.units[a.unit])), w));
    longer := ResolveGoesOn(longer, apart, p, Alone(db, p, job.(done := job.done + 1), ReleaseUnit(db, w, a)));
  }

  lemma LoneRecord(db: Db, p: nat, job: Job, w: Writes)
    requires job.Resolving? && !job.recorded && job.done == |job.row.content.allocations| && w.reservations == map[]
    requires job.res in db.reservations && db.reservations[job.res] == job.row
    ensures var row := Row(job.row.content.(status := job.to), job.row.version + 1);
      var w' := w.(reservations := map[job.res := row]);
      && StepResolve(Alone(db, p, job, w), p) == Some(Alone(db, p, job.(recorded := true), w'))
      && StepResolve(Alone(db, p, job.(recorded := true), w'), p) == Some(Idle(Commit(db, w', Published(p, job)), p + 1))
  {
    hide Abort, Commit, StepAllocation;
    var w' := w.(reservations := map[job.res := Row(job.row.content.(status := job.to), job.row.version + 1)]);
    assert db.reservations + w.reservations == db.reservations;
    assert w.reservations[job.res := w'.reservations[job.res]] == w'.reservations;
    AloneSteps(db, p, job, w, job.(recorded := true), w');
    AloneSteps(db, p, job.(recorded := true), w', job, w);
  }

  predicate Picks(db: Db, w: Writes, a: Allocation) {
    && a.unit in db.units + w.units
    && (db.units + w.units)[a.unit].content.Pick(a.quantity).Ok?
    && (db.units + w.units)[a.unit].content.bin == a.bin
    && a.bin in db.bins + w.bins
    && (db.bins + w.bins)[a.bin].content.Release(a.quantity).Ok?
  }

  function PickUnit(db: Db, w: Writes, a: Allocation): Writes
    requires Picks(db, w, a)
  {
    var row := (db.units + w.units)[a.unit];
    w.(units := w.units[a.unit := Row(row.content.Pick(a.quantity).value, row.version + 1)])
  }

  /** What one allocation's slice of a pick stages. */
  function PickBoth(db: Db, w: Writes, a: Allocation): Writes
    requires Picks(db, w, a)
  {
    var row := (db.bins + w.bins)[a.bin];
    PickUnit(db, w, a).(bins := w.bins[a.bin := Row(row.content.Release(a.quantity).value, row.version + 1)])
  }

  lemma LonePicksUnit(db: Db, p: nat, job: Job, w: Writes, a: Allocation)
    requires job.Resolving? && job.to == CONFIRMED && !job.recorded && job.at == AtUnit
    requires job.done < |job.row.content.allocations| && job.row.content.allocations[job.done] == a && Picks(db, w, a)
    ensures var reading := job.(at := UnitRead((db.units + w.units)[a.unit]));
      && StepResolve(Alone(db, p, job, w), p) == Some(Alone(db, p, reading, w))
      && StepResolve(Alone(db, p, reading, w), p) == Some(Alone(db, p, job.(at := UnitStaged), PickUnit(db, w, a)))
  {
    hide Abort;
    var reading := job.(at := UnitRead((db.units + w.units)[a.unit]));
    AloneSteps(db, p, job, w, reading, w);
    AloneSteps(db, p, reading, w, job.(at := UnitStaged), PickUnit(db, w, a));
  }

  lemma LoneReadsBin(db: Db, p: nat, job: Job, w: Writes, a: Allocation)
    requires job.Resolving? && !job.recorded && job.at == UnitStaged
    requires job.done < |job.row.content.allocations| && job.row.content.allocations[job.done] == a && Picks(db, w, a)
    ensures var w1 := PickUnit(db, w, a);
      StepResolve(Alone(db, p, job, w1), p) == Some(Alone(db, p, job.(at := BinRead((db.bins + w.bins)[a.bin])), w1))
  {
    hide Abort;
    AloneSteps(db, p, job, PickUnit(db, w, a), job.(at := BinRead((db.bins + w.bins)[a.bin])), PickUnit(db, w, a));
  }

  lemma LonePicksBin(db: Db, p: nat, job: Job, w: Writes, a: Allocation)
    requires job.Resolving? && !job.recorded && Picks(db, w, a) && job.at == BinRead((db.bins + w.bins)[a.bin])
    requires job.done < |job.row.content.allocations| && job.row.content.allocations[job.done] == a
    ensures StepResolve(Alone(db, p, job, PickUnit(db, w, a)), p) ==
            Some(Alone(db, p, job.(done := job.done + 1, at := AtUnit), PickBoth(db, w, a)))
  {
    hide Abort;
    AloneSteps(db, p, job, PickUnit(db, w, a), job.(done := job.done + 1, at := AtUnit), PickBoth(db, w, a));
  }

  /** One allocation's slice of a pick: the unit read and saved, then its bin. */
  lemma PicksNext(trace: seq<System>, apart: (Sku, Sku) -> bool, db: Db, p: nat, job: Job, w: Writes, a: Allocation)
    returns (longer: seq<System>)
    requires Run(trace, apart) && Last(trace) == Alone(db, p, job, w)
    requires job.Resolving? && job.to == CONFIRMED && !job.recorded && job.at == AtUnit
    requires job.done < |job.row.content.allocations| && job.row.content.allocations[job.done] == a && Picks(db, w, a)
    ensures Run(longer, apart) && trace <= longer
    ensures Last(longer) == Alone(db, p, job.(done := job.done + 1), PickBoth(db, w, a))
  {
    hide Run, StepResolve, PickUnit, PickBoth;
    LonePicksUnit(db, p, job, w, a);
    var w1, reading := PickUnit(db, w, a), job.(at := BinRead((db.bins + w.bins)[a.bin]));
    LoneReadsBin(db, p, job.(at := UnitStaged), w, a);
    LonePicksBin(db, p, reading, w, a);
    longer := ResolveGoesOn(trace, apart, p, Alone(db, p, job.(at := UnitRead((db.units + w.units)[a.unit])), w));
    longer := ResolveGoesOn(longer, apart, p, Alone(db, p, job.(at := UnitStaged), w1));
    longer := ResolveGoesOn(longer, apart, p, Alone(db, p, reading, w1));
    longer := ResolveGoesOn(longer, apart, p, Alone(db, p, job.(done := job.done + 1), PickBoth(db, w, a)));
  }

  /** One bin with ten units stowed in it. */
  const STOWED := Db(map[1 := Row(UnitData("sku", "bin", 10, 0, AVAILABLE), 1)], map["bin" := Row(BinData(10, 10), 2)], map[],
                     [ItemStowed("sku", "bin", 10), LocationRecorded(1, "bin")])

  lemma StowsTen(apart: (Sku, Sku) -> bool) returns (trace: seq<System>)
    ensures Run(trace, apart) && Last(trace) == Idle(STOWED, 2)
  {
    var none := Db(map[], map[], map[], []);
    trace := [EMPTY];
    trace := RegistersAlone(trace, apart, none, 0, "bin", 10);
    var db := none.(bins := none.bins["bin" := Row(BinData(10, 0), 1)]);
    var unit := UnitData("sku", "bin", 10, 0, AVAILABLE);
    trace := StowsAlone(trace, apart, db, 1, unit);
    db := Db(db.units[1 := Row(unit, 1)], db.bins["bin" := Row(BinData(10, 10), 2)], db.reservations,
             db.outbox + [ItemStowed("sku", "bin", 10), LocationRecorded(1, "bin")]);
    assert db.units == STOWED.units && db.bins == STOWED.bins && db.outbox == STOWED.outbox;
  }
}
