/**
 Resolutions inside a transaction that an outer scope owns, as every expiry made by a reserve over HTTP is. A joined
 unit of work does not roll back when it fails, and the outer scope commits error responses too, so a failed resolution
 can leave the units it saved behind.
 */
module JoinedScope {
  import opened Shared
  import opened Stock
  import opened Location
  import opened Claims
  import opened Ledger
  import opened Transitions
  import opened Sweeps
  import opened Rows
  import opened Requests
  import opened Invariants
  import opened Theorems
  import opened LoneRuns

  // ---- the resolution as a whole

  /** Unit rows as the loop leaves them, and how it ended. */
  datatype Released = Released(units: Table<UnitId, UnitData>, out: Outcome)

  /** Read one unit, give the allocation back, and save the unit at the version it was read at. */
  function ReleaseRow(units: Table<UnitId, UnitData>, a: Allocation): Released {
    if a.unit !in units then Released(units, Outcome.Fail(StockUnitNotFound))
    else
      match units[a.unit].content.ReleaseReservation(a.quantity)
      case Err(e) => Released(units, Outcome.Fail(e))
      case Ok(unit) =>
        match Save(units, a.unit, unit, units[a.unit].version)
        case Err(e) => Released(units, Outcome.Fail(e))
        case Ok(row) => Released(units[a.unit := row], Pass)
  }

  function ReleaseRows(units: Table<UnitId, UnitData>, allocs: seq<Allocation>): Released {
    if allocs == [] then Released(units, Pass)
    else
      var before := ReleaseRows(units, allocs[..|allocs| - 1]);
      if before.out.Fail? then before else ReleaseRow(before.units, allocs[|allocs| - 1])
  }

  datatype Joined = Joined(db: Db, out: Outcome)

  /**
   A joined revocation or expiry of a reservation read earlier as `row`. The rows are those the outer transaction
   sees, its own staged ones over the committed ones; whatever the result, the outer commit makes them visible.
   */
  function ResolveJoined(db: Db, r: ResId, row: Row<ResData>, to: Status): Joined {
    var released := ReleaseRows(db.units, row.content.allocations);
    if released.out.Fail? then Joined(db.(units := released.units), released.out)
    else
      match Save(db.reservations, r, row.content.(status := to), row.version)
      case Err(e) => Joined(db.(units := released.units), Outcome.Fail(e))
      case Ok(saved) =>
        Joined(Db(released.units, db.bins, db.reservations[r := saved], db.outbox + [ResolutionEvent(r, row.content, to)]), Pass)
  }

  // ---- the loop over repositories that share the outer transaction

  method ReleaseOne(stock: RowStore<UnitId, UnitData>, a: Allocation) returns (out: Outcome)
    modifies stock
    ensures ReleaseRow(old(stock.rows), a) == Released(stock.rows, out)
  {
    var found := stock.Find(a.unit);
    if found.None? {
      return Outcome.Fail(StockUnitNotFound);
    }
    var changed := found.value.content.ReleaseReservation(a.quantity);
    if changed.Err? {
      return Outcome.Fail(changed.error);
    }
    out := stock.SaveRow(a.unit, changed.value, found.value.version);
  }

  method ReleaseAll(stock: RowStore<UnitId, UnitData>, allocs: seq<Allocation>) returns (out: Outcome)
    modifies stock
    ensures ReleaseRows(old(stock.rows), allocs) == Released(stock.rows, out)
  {
    hide ReleaseRow;
    ghost var units := stock.rows;
    assert allocs[..0] == [];
    var i := 0;
    while i < |allocs|
      invariant 0 <= i <= |allocs|
      invariant ReleaseRows(units, allocs[..i]) == Released(stock.rows, Pass)
    {
      assert allocs[..i + 1][..i] == allocs[..i];
      out := ReleaseOne(stock, allocs[i]);
      if out.Fail? {
        ReleaseStops(units, allocs, i + 1);
        return;
      }
      i := i + 1;
    }
    assert allocs[..i] == allocs;
    return Pass;
  }

  lemma {:induction false} ReleaseStops(units: Table<UnitId, UnitData>, allocs: seq<Allocation>, n: nat)
    requires n <= |allocs| && ReleaseRows(units, allocs[..n]).out.Fail?
    ensures ReleaseRows(units, allocs) == ReleaseRows(units, allocs[..n])
    decreases |allocs|
  {
    if n < |allocs| {
      assert allocs[..|allocs| - 1][..n] == allocs[..n];
      ReleaseStops(units, allocs[..|allocs| - 1], n);
    } else {
      assert allocs[..n] == allocs;
    }
  }

  /** The use case within the outer transaction: release, save the reservation, publish; stop at the first error. */
  method ResolveInScope(stock: RowStore<UnitId, UnitData>, reservations: RowStore<ResId, ResData>, r: ResId, row: Row<ResData>,
                        to: Status, ghost db: Db) returns (out: Outcome, published: seq<Event>)
    requires db.units == stock.rows && db.reservations == reservations.rows
    modifies stock, reservations
    ensures ResolveJoined(db, r, row, to) == Joined(Db(stock.rows, db.bins, reservations.rows, db.outbox + published), out)
  {
    hide ReleaseRows;
    published := [];
    assert db.outbox + [] == db.outbox;
    out := ReleaseAll(stock, row.content.allocations);
    if out.Fail? {
      return;
    }
    out := reservations.SaveRow(r, row.content.(status := to), row.version);
    if out.Fail? {
      return;
    }
    published := [ResolutionEvent(r, row.content, to)];
  }

  // ---- when the ledger survives

  /** The first allocation's unit has less reserved than would be given back, so the loop stops before any save. */
  ghost predicate FirstFallsShort(units: Table<UnitId, UnitData>, allocs: seq<Allocation>) {
    allocs == [] || (allocs[0].unit in units && units[allocs[0].unit].content.reserved < allocs[0].quantity)
  }

  /** The reservation's row is still the one that was read, or nothing can be given back. */
  ghost predicate Survives(db: Db, r: ResId, row: Row<ResData>)
    requires r in db.reservations
  {
    db.reservations[r] == row || FirstFallsShort(db.units, row.content.allocations)
  }

  /** Releasing rows releases their contents. */
  lemma {:induction false} ReleaseIsSweep(units: Table<UnitId, UnitData>, allocs: seq<Allocation>)
    ensures var released := ReleaseRows(units, allocs);
      Sweep(Contents(units), map[], allocs, REVOKED) == Swept(Contents(released.units), map[], released.out)
  {
    if allocs != [] {
      var n := |allocs| - 1;
      var before := ReleaseRows(units, allocs[..n]);
      ReleaseIsSweep(units, allocs[..n]);
      if before.out.Pass? {
        ReleaseRowIsSweepOne(before.units, allocs[n]);
      }
    }
  }

  lemma ReleaseRowIsSweepOne(units: Table<UnitId, UnitData>, a: Allocation)
    ensures var released := ReleaseRow(units, a);
      SweepOne(Contents(units), map[], a, REVOKED) == Swept(Contents(released.units), map[], released.out)
  {
    if a.unit in units && units[a.unit].content.ReleaseReservation(a.quantity).Ok? {
      var row := Row(units[a.unit].content.ReleaseReservation(a.quantity).value, units[a.unit].version + 1);
      assert Contents(units[a.unit := row]) == Contents(units)[a.unit := row.content];
    }
  }

  /** A first release that goes through lowers that unit for good: no later allocation of the list names it. */
  lemma {:induction false} FirstIsReleased(units: Units, allocs: seq<Allocation>)
    requires allocs != [] && DistinctUnits(allocs)
    requires allocs[0].unit in units && allocs[0].quantity <= units[allocs[0].unit].reserved
    ensures var swept, u := Sweep(units, map[], allocs, REVOKED), allocs[0].unit;
      u in swept.units && swept.units[u].reserved == units[u].reserved - allocs[0].quantity
    decreases |allocs|
  {
    var front := allocs[..|allocs| - 1];
    if |allocs| > 1 {
      FirstIsReleased(units, front);
      assert front[0] == allocs[0] && allocs[|allocs| - 1].unit != allocs[0].unit;
    } else {
      assert front == [];
    }
  }

  /** A first release that falls short leaves everything as it was. */
  lemma FirstStops(units: Units, allocs: seq<Allocation>)
    requires allocs != [] ==> allocs[0].unit in units && units[allocs[0].unit].reserved < allocs[0].quantity
    ensures Sweep(units, map[], allocs, REVOKED).units == units
  {
    if allocs != [] {
      assert allocs[..1][..0] == [];
      SweepStops(units, map[], allocs, 1, REVOKED);
    }
  }

  /** A reservation still as it was read is resolved whole, and every law is kept. */
  lemma CurrentRowResolves(db: Db, r: ResId, to: Status, gap: UnitId -> nat)
    requires Lawful(BooksOf(db), gap) && (to == EXPIRED || to == REVOKED)
    requires r in db.reservations && db.reservations[r].content.status == ACTIVE
    ensures var joined := ResolveJoined(db, r, db.reservations[r], to);
      joined.out == Pass && Resolves(BooksOf(db), r, to, BooksOf(joined.db)) && Lawful(BooksOf(joined.db), gap)
  {
    hide Covered, BinsBalanced, Audited, UnitsSettled, BinsSettled, DrawsOn, Total, DrawnOn, Holds, Sweep, ReleaseRows;
    var b, row := BooksOf(db), db.reservations[r];
    var allocs := row.content.allocations;
    ContentAt(db);
    ActiveIsHeld(b, r, gap);
    assert DrawsOn(allocs, b.units, row.content.sku);
    hide Lawful;
    SweepSettles(b.units, map[], allocs, row.content.sku, REVOKED);
    ReleaseIsSweep(db.units, allocs);
    SettledAlike(b.units, b.bins, allocs, to, ReleaseRows(db.units, allocs).units);
    var db' := ResolveJoined(db, r, row, to).db;
    ContentsWritten(db.reservations, r, Row(row.content.(status := to), row.version + 1));
    assert db'.reservations == db.reservations + map[r := Row(row.content.(status := to), row.version + 1)];
    assert Resolves(b, r, to, BooksOf(db'));
    ResolvedLawful(b, r, to, BooksOf(db'), gap);
  }

  /** Expiry and revocation settle units alike, and neither touches a bin. */
  lemma SettledAlike(units: Units, bins: Bins, allocs: seq<Allocation>, to: Status, rows: Table<UnitId, UnitData>)
    requires to == EXPIRED || to == REVOKED
    ensures UnitsSettled(units, allocs, REVOKED, Contents(rows)) ==> UnitsSettled(units, allocs, to, Contents(rows))
    ensures BinsSettled(bins, allocs, to, bins)
  {
    hide DrawnOn, DrawnFrom;
  }

  /**
   After the outer commit the ledger is covered, and indeed every law holds, if and only if the reservation's row is
   still the one that was read, or the first allocation's unit already has less reserved than that allocation. This
   is the guard of the save that fails, and it can be looked up before the call. The outer transaction may hold any
   other writes: the rows are those it sees.
   */
  lemma JoinedKeepsLedgerIff(db: Db, r: ResId, row: Row<ResData>, to: Status, gap: UnitId -> nat)
    requires Lawful(BooksOf(db), gap) && (to == EXPIRED || to == REVOKED)
    requires row.content.status == ACTIVE && Seen(db.reservations, r, row)
    requires db.reservations[r].content == row.content.(status := db.reservations[r].content.status)
    ensures var b := BooksOf(ResolveJoined(db, r, row, to).db);
      && (Covered(b.units, b.reservations, gap) <==> Survives(db, r, row))
      && (Lawful(b, gap) <==> Survives(db, r, row))
    ensures var joined := ResolveJoined(db, r, row, to);
      if db.reservations[r] == row then joined.out == Pass && Resolves(BooksOf(db), r, to, BooksOf(joined.db))
      else joined.out.Fail? && joined.db == db.(units := joined.db.units)
  {
    hide ReleaseRows, Sweep, Active, UnitsSound, BinsBalanced, Audited, DrawnOn, Total;
    if db.reservations[r] == row {
      CurrentRowResolves(db, r, to, gap);
    } else {
      var b, allocs := BooksOf(db), row.content.allocations;
      ContentAt(db);
      ReleaseIsSweep(db.units, allocs);
      var b' := BooksOf(ResolveJoined(db, r, row, to).db);
      assert b' == b.(units := Sweep(b.units, map[], allocs, REVOKED).units);
      if FirstFallsShort(db.units, allocs) {
        FirstStops(b.units, allocs);
      } else {
        var u := allocs[0].unit;
        assert DrawsOn(allocs, b.units, row.content.sku);
        FirstIsReleased(b.units, allocs);
        assert b.units[u].reserved == Active(b.reservations, u) + gap(u);
      }
    }
  }

  /** Over every run: whenever the reservation was read, and whenever the joined resolution then happens. */
  lemma JoinedOverRuns(trace: seq<System>, apart: (Sku, Sku) -> bool, i: nat, j: nat, r: ResId, to: Status)
    requires Run(trace, apart) && Symmetric(apart) && i <= j < |trace| && (to == EXPIRED || to == REVOKED)
    requires r in trace[i].db.reservations && trace[i].db.reservations[r].content.status == ACTIVE
    ensures r in trace[j].db.reservations
    ensures var row, db := trace[i].db.reservations[r], trace[j].db;
      var b := BooksOf(ResolveJoined(db, r, row, to).db);
      && (Covered(b.units, b.reservations, Gap(trace[j].requests)) <==> Survives(db, r, row))
      && (Lawful(b, Gap(trace[j].requests)) <==> Survives(db, r, row))
  {
    hide Run, Lawful, Covered, Survives, ResolveJoined;
    ContentAt(trace[i].db);
    ContentAt(trace[j].db);
    ReservationVersionsGrow(trace, apart, i, j, r);
    ResolvedForGood(trace, apart, i, j, r);
    LawfulAt(trace, apart, j);
    JoinedKeepsLedgerIff(trace[j].db, r, trace[i].db.reservations[r], to, Gap(trace[j].requests));
  }

  // ---- a run in which it happens

  const DRAWN := [Allocation(1, "bin", 5)]

  function Claim(status: Status): ResData {
    ResData("sku", 5, "order", DRAWN, status, 0, 30)
  }

  /** Ten units stowed, five of them claimed by each of two reservations. */
  const RESERVED_TWICE := Db(map[1 := Row(UnitData("sku", "bin", 10, 10, RESERVED), 3)], map["bin" := Row(BinData(10, 10), 2)],
                             map[2 := Row(Claim(ACTIVE), 1), 3 := Row(Claim(ACTIVE), 1)],
                             [ItemStowed("sku", "bin", 10), LocationRecorded(1, "bin"), StockReserved(2, "sku", 5),
                              StockReserved(3, "sku", 5)])

  /** Another request has expired the first of them. */
  const EXPIRED_ONCE := Db(map[1 := Row(UnitData("sku", "bin", 10, 5, RESERVED), 4)], map["bin" := Row(BinData(10, 10), 2)],
                           map[2 := Row(Claim(EXPIRED), 2), 3 := Row(Claim(ACTIVE), 1)],
                           RESERVED_TWICE.outbox + [ReservationExpired(2, "sku")])

  lemma ReservesTwice(apart: (Sku, Sku) -> bool) returns (trace: seq<System>)
    ensures Run(trace, apart) && Last(trace) == Idle(RESERVED_TWICE, 4)
  {
    hide Run;
    trace := StowsTen(apart);
    var db := STOWED;
    trace := ReservesAlone(trace, apart, db, 2, 1, 5, "order", 0, 30);
    db := Db(db.units[1 := Row(UnitData("sku", "bin", 10, 5, RESERVED), 2)], db.bins,
             db.reservations[2 := Row(Claim(ACTIVE), 1)], db.outbox + [StockReserved(2, "sku", 5)]);
    trace := ReservesAlone(trace, apart, db, 3, 1, 5, "order", 0, 30);
    db := Db(db.units[1 := Row(UnitData("sku", "bin", 10, 10, RESERVED), 3)], db.bins,
             db.reservations[3 := Row(Claim(ACTIVE), 1)], db.outbox + [StockReserved(3, "sku", 5)]);
    assert db.units == RESERVED_TWICE.units && db.bins == RESERVED_TWICE.bins;
    assert db.reservations == RESERVED_TWICE.reservations && db.outbox == RESERVED_TWICE.outbox;
  }

  lemma ExpiresFirst(apart: (Sku, Sku) -> bool, before: seq<System>) returns (trace: seq<System>)
    requires Run(before, apart) && Last(before) == Idle(RESERVED_TWICE, 4)
    ensures Run(trace, apart) && before <= trace && Last(trace) == Idle(EXPIRED_ONCE, 5)
  {
    trace := ExpiresAlone(before, apart, RESERVED_TWICE, 4, 2);
    var units := RESERVED_TWICE.units[1 := Row(UnitData("sku", "bin", 10, 5, RESERVED), 4)];
    assert units == EXPIRED_ONCE.units;
    assert RESERVED_TWICE.reservations[2 := Row(Claim(EXPIRED), 2)] == EXPIRED_ONCE.reservations;
  }

  /**
   A run after which a joined expiry oversells. The first reservation was read while ACTIVE and has since been expired
   by another request; the joined expiry releases again, its save conflicts, and the outer scope commits the release.
   The ledger was exact; afterwards nothing is reserved and five are still claimed.
   */
  lemma StaleJoinedExpiryOversells(apart: (Sku, Sku) -> bool) returns (trace: seq<System>, seen: nat)
    requires Symmetric(apart)
    ensures Run(trace, apart) && seen < |trace| && 2 in trace[seen].db.reservations
    ensures var row, db := trace[seen].db.reservations[2], Last(trace).db;
      var joined := ResolveJoined(db, 2, row, EXPIRED);
      && row.content.status == ACTIVE
      && Covered(BooksOf(db).units, BooksOf(db).reservations, NoGap())
      && joined.out == Outcome.Fail(ConcurrentModification)
      && 1 in joined.db.units && joined.db.units[1].content.reserved == 0
      && Active(BooksOf(joined.db).reservations, 1) == 5
  {
    var before := ReservesTwice(apart);
    seen := |before| - 1;
    trace := ExpiresFirst(apart, before);
    assert trace[seen] == Last(before);
    var j := |trace| - 1;
    hide Run, Active, NewUnit;
    ContentAt(EXPIRED_ONCE);
    forall u | u in EXPIRED_ONCE.units
      ensures EXPIRED_ONCE.units[u].content.reserved == Active(BooksOf(EXPIRED_ONCE).reservations, u)
    {
      ExactIffNoDraw(trace, apart, j, u);
    }
    ReleasesAgain();
  }

  lemma ReleasesAgain()
    ensures var joined := ResolveJoined(EXPIRED_ONCE, 2, Row(Claim(ACTIVE), 1), EXPIRED);
      && joined.out == Outcome.Fail(ConcurrentModification)
      && joined.db.reservations == EXPIRED_ONCE.reservations
      && 1 in joined.db.units && joined.db.units[1].content.reserved == 0
  {
    assert DRAWN[..0] == [];
    assert ReleaseRows(EXPIRED_ONCE.units, DRAWN) == ReleaseRow(EXPIRED_ONCE.units, DRAWN[0]);
  }
}
