/** Runs from the empty warehouse in which what the theorems allow for does happen. */
module Exhibits {
  import opened Shared
  import opened Stock
  import opened Location
  import opened Claims
  import opened Ledger
  import opened GreedyAllocation
  import opened Rows
  import opened Requests
  import opened Invariants
  import opened Theorems
  import opened BinVersions
  import opened LoneRuns

  // ---- a reserve that fails leaves its draws behind

  const DRAW := ResData("sku", 5, "order", [Allocation(1, "bin", 5)], ACTIVE, 0, 30)

  const DRAWN_ONLY := Db(map[1 := Row(UnitData("sku", "bin", 10, 5, RESERVED), 2)], map["bin" := Row(BinData(10, 10), 2)], map[],
                         [ItemStowed("sku", "bin", 10), LocationRecorded(1, "bin")])

  /**
   A reserve saves its draw and then fails: there is no reservation, five of the ten stay reserved, and the request
   that drew them is over.
   */
  lemma FailedReserveLeavesDraw(apart: (Sku, Sku) -> bool) returns (trace: seq<System>)
    ensures Run(trace, apart)
    ensures var s := Last(trace);
      && s.db == DRAWN_ONLY && s.db.units[1].content.reserved == 5 && Active(BooksOf(s.db).reservations, 1) == 0
      && s.requests.Keys == {2} && s.requests[2].job.Reserving? && !s.requests[2].job.live && DrewOn(s.requests[2].job, 1)
  {
    hide Run, StartReserve;
    trace := StowsTen(apart);
    var job := Reserving(DRAW, STOWED.units, 0, false, true);
    LoneReserveBegins(STOWED, 2, 1, 5, "order", 0, 30);
    trace := Extend(trace, apart, BeginReserve("sku", 5, "order", [1], 0, 30), Alone(STOWED, 2, job, NOTHING));
    trace := DrawsNext(trace, apart, STOWED, 2, job, 1);
    assert STOWED.units[1 := Row(UnitData("sku", "bin", 10, 5, RESERVED), 2)] == DRAWN_ONLY.units;
    trace := FailsNext(trace, apart, DRAWN_ONLY, 2, job.(saved := 1));
    assert job.data.allocations[0].unit == 1;
    assert BooksOf(DRAWN_ONLY).reservations == map[];
  }

  lemma FailsNext(trace: seq<System>, apart: (Sku, Sku) -> bool, db: Db, p: nat, job: Job) returns (longer: seq<System>)
    requires Run(trace, apart) && Last(trace) == Alone(db, p, job, NOTHING) && job.Reserving? && !job.filed
    ensures Run(longer, apart) && trace <= longer && Last(longer) == Alone(db, p, job.(live := false), NOTHING)
  {
    hide Run;
    AloneSteps(db, p, job, NOTHING, job.(live := false), NOTHING);
    longer := Extend(trace, apart, Action.Fail(p), Alone(db, p, job.(live := false), NOTHING));
  }

  // ---- a confirmation that skips a version of a bin

  const UNIT := UnitData("sku", "bin", 5, 0, AVAILABLE)

  const BOTH := ResData("sku", 10, "order", [Allocation(1, "bin", 5), Allocation(2, "bin", 5)], ACTIVE, 0, 30)

  const TWO_STOWED := Db(map[1 := Row(UNIT, 1), 2 := Row(UNIT, 1)], map["bin" := Row(BinData(10, 10), 3)], map[],
                         [ItemStowed("sku", "bin", 5), LocationRecorded(1, "bin"),
                          ItemStowed("sku", "bin", 5), LocationRecorded(2, "bin")])

  const HELD := Row(UnitData("sku", "bin", 5, 5, RESERVED), 2)
  const TAKEN := Row(UnitData("sku", "bin", 0, 0, REMOVED), 3)

  const ONE_DRAWN := TWO_STOWED.(units := map[1 := HELD, 2 := Row(UNIT, 1)])
  const BOTH_DRAWN := TWO_STOWED.(units := map[1 := HELD, 2 := HELD])

  const BOTH_CLAIMED := BOTH_DRAWN.(reservations := map[3 := Row(BOTH, 1)],
                                    outbox := BOTH_DRAWN.outbox + [StockReserved(3, "sku", 10)])

  const BOTH_PICKED := Db(map[1 := TAKEN, 2 := TAKEN], map["bin" := Row(BinData(10, 0), 5)],
                          map[3 := Row(BOTH.(status := CONFIRMED), 2)],
                          BOTH_CLAIMED.outbox + [StockPicked(3, "sku", 10)])

  lemma StowsTwo(apart: (Sku, Sku) -> bool) returns (trace: seq<System>)
    ensures Run(trace, apart) && Last(trace) == Idle(TWO_STOWED, 3)
  {
    hide Run;
    trace := [EMPTY];
    assert Run(trace, apart) by { Starts(apart); }
    var db := EMPTY.db;
    trace := RegistersAlone(trace, apart, db, 0, "bin", 10);
    db := db.(bins := db.bins["bin" := Row(BinData(10, 0), 1)]);
    trace := StowsAlone(trace, apart, db, 1, UNIT);
    db := Db(db.units[1 := Row(UNIT, 1)], db.bins["bin" := Row(BinData(10, 5), 2)], db.reservations,
             db.outbox + [ItemStowed("sku", "bin", 5), LocationRecorded(1, "bin")]);
    trace := StowsAlone(trace, apart, db, 2, UNIT);
    db := Db(db.units[2 := Row(UNIT, 1)], db.bins["bin" := Row(BinData(10, 10), 3)], db.reservations,
             db.outbox + [ItemStowed("sku", "bin", 5), LocationRecorded(2, "bin")]);
    assert db.units == TWO_STOWED.units && db.bins == TWO_STOWED.bins && db.outbox == TWO_STOWED.outbox;
  }

  lemma Starts(apart: (Sku, Sku) -> bool)
    ensures Run([EMPTY], apart)
  {
  }

  lemma BothAllocated()
    ensures var units := Contents(TWO_STOWED.units);
      TotalUsable([1, 2], units) == 10 && Greedy([1, 2], units, 10) == BOTH.allocations
  {
    var units := Contents(TWO_STOWED.units);
    assert [1, 2][..1] == [1] && [1][..0] == [];
    assert units[1] == UNIT && units[2] == UNIT && UNIT.Usable() == 5;
    assert TotalUsable([1], units) == 5;
    assert Greedy([1], units, 10) == [Allocation(1, "bin", 5)];
    assert Total([Allocation(1, "bin", 5)]) == 5;
  }

  lemma BothBegin(apart: (Sku, Sku) -> bool) returns (trace: seq<System>)
    ensures Run(trace, apart)
    ensures Last(trace) == Alone(TWO_STOWED, 3, Reserving(BOTH, TWO_STOWED.units, 0, false, true), NOTHING)
  {
    hide Run, StartReserve, Greedy, TotalUsable;
    trace := StowsTwo(apart);
    BothAllocated();
    LoneReserveStarts(TWO_STOWED, 3, [1, 2], BOTH, 30);
    trace := Extend(trace, apart, BeginReserve("sku", 10, "order", [1, 2], 0, 30),
                    Alone(TWO_STOWED, 3, Reserving(BOTH, TWO_STOWED.units, 0, false, true), NOTHING));
  }

  lemma BothDraw(apart: (Sku, Sku) -> bool) returns (trace: seq<System>)
    ensures Run(trace, apart)
    ensures Last(trace) == Alone(BOTH_DRAWN, 3, Reserving(BOTH, TWO_STOWED.units, 2, false, true), NOTHING)
  {
    hide Run;
    var job := Reserving(BOTH, TWO_STOWED.units, 0, false, true);
    trace := BothBegin(apart);
    trace := DrawsNext(trace, apart, TWO_STOWED, 3, job, 1);
    assert TWO_STOWED.units[1 := HELD] == ONE_DRAWN.units;
    trace := DrawsNext(trace, apart, ONE_DRAWN, 3, job.(saved := 1), 2);
    assert ONE_DRAWN.units[2 := HELD] == BOTH_DRAWN.units;
  }

  lemma ReservesBoth(apart: (Sku, Sku) -> bool) returns (trace: seq<System>)
    ensures Run(trace, apart) && Last(trace) == Idle(BOTH_CLAIMED, 4)
  {
    hide Run;
    trace := BothDraw(apart);
    trace := RecordsNext(trace, apart, BOTH_DRAWN, 3, Reserving(BOTH, TWO_STOWED.units, 2, false, true));
    assert BOTH_DRAWN.reservations[3 := Row(BOTH, 1)] == BOTH_CLAIMED.reservations;
  }

  /** A run whose last step confirms a pick of two units from one bin: the bin goes from version 3 straight to 5. */
  lemma ConfirmationSkipsVersion(apart: (Sku, Sku) -> bool) returns (trace: seq<System>)
    requires Symmetric(apart)
    ensures Run(trace, apart) && |trace| >= 2
    ensures var m := |trace| - 2;
      && trace[m].db == BOTH_CLAIMED && trace[m + 1].db == BOTH_PICKED && ConfirmsAt(trace, m, 3)
      && trace[m].db.bins["bin"].version == 3 && trace[m + 1].db.bins["bin"].version == 5
      && !NoneSkipped(trace, m + 1, "bin")
  {
    hide Run, StepResolve, NoneSkipped;
    trace := ReservesBoth(apart);
    var job := Resolving(3, Row(BOTH, 1), CONFIRMED, 0, AtUnit, false);
    trace := ResolveBegins(trace, apart, BOTH_CLAIMED, 4, 3, CONFIRMED);
    FirstPicked();
    trace := PicksNext(trace, apart, BOTH_CLAIMED, 4, job, NOTHING, BOTH.allocations[0]);
    SecondPicked();
    trace := PicksNext(trace, apart, BOTH_CLAIMED, 4, job.(done := 1), ONE_PICKED, BOTH.allocations[1]);
    trace := ResolvedNext(trace, apart, BOTH_CLAIMED, 4, job.(done := 2), TWO_PICKED);
    PickedBoth();
    var j := |trace| - 1;
    assert BOTH.allocations[0].bin == "bin" && BOTH.allocations[1].bin == "bin";
    BinVersionsSkipIff(trace, apart, j, "bin");
  }

  const ONE_PICKED := Writes(map[1 := TAKEN], map["bin" := Row(BinData(10, 5), 4)], map[])
  const TWO_PICKED := Writes(map[1 := TAKEN, 2 := TAKEN], map["bin" := Row(BinData(10, 0), 5)], map[])

  lemma FirstPicked()
    ensures Picks(BOTH_CLAIMED, NOTHING, BOTH.allocations[0])
    ensures PickBoth(BOTH_CLAIMED, NOTHING, BOTH.allocations[0]) == ONE_PICKED
  {
  }

  lemma SecondPicked()
    ensures Picks(BOTH_CLAIMED, ONE_PICKED, BOTH.allocations[1])
    ensures PickBoth(BOTH_CLAIMED, ONE_PICKED, BOTH.allocations[1]) == TWO_PICKED
  {
    assert map[1 := TAKEN][2 := TAKEN] == TWO_PICKED.units;
    assert map["bin" := Row(BinData(10, 5), 4)]["bin" := Row(BinData(10, 0), 5)] == TWO_PICKED.bins;
  }

  lemma PickedBoth()
    ensures BOTH_CLAIMED.units + TWO_PICKED.units == BOTH_PICKED.units
    ensures BOTH_CLAIMED.bins + TWO_PICKED.bins == BOTH_PICKED.bins
    ensures BOTH_CLAIMED.reservations[3 := Row(BOTH.(status := CONFIRMED), 2)] == BOTH_PICKED.reservations
  {
  }
}
