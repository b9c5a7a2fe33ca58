/** The steps of a revoke, an expiry or a confirmation keep the system invariant, and commit the whole resolution. */
module ResolveSteps {
  import opened Shared
  import opened Stock
  import opened Location
  import opened Claims
  import opened Ledger
  import opened Transitions
  import opened Rows
  import opened Requests
  import opened Invariants

  /** One allocation more is staged. */
  lemma UnitsStagedGrow(db: Db, staged: Table<UnitId, UnitData>, allocs: seq<Allocation>, n: nat, to: Status,
                        row: Row<UnitData>)
    requires n < |allocs| && DistinctUnits(allocs) && UnitsStaged(db, staged, allocs, n, to)
    requires var a := allocs[n];
      && a.unit in db.units && a.quantity <= db.units[a.unit].content.reserved
      && (to == CONFIRMED ==> a.quantity <= db.units[a.unit].content.quantity)
      && row == Row(Settled(to, db.units[a.unit].content, a.quantity), db.units[a.unit].version + 1)
    ensures allocs[n].unit !in staged
    ensures UnitsStaged(db, staged[allocs[n].unit := row], allocs, n + 1, to)
  {
    hide Settled;
    var staged' := staged[allocs[n].unit := row];
    assert allocs[n].unit !in staged;
    forall u | u in staged' ensures exists i :: 0 <= i < n + 1 && allocs[i].unit == u {
      if u != allocs[n].unit {
        var i :| 0 <= i < n && allocs[i].unit == u;
        assert i < n + 1;
      }
    }
    forall i | 0 <= i < n + 1 ensures i < n ==> allocs[i].unit in staged && staged'[allocs[i].unit] == staged[allocs[i].unit] {
      assert i < n ==> allocs[i].unit != allocs[n].unit;
    }
  }

  lemma {:induction false} DrawnFromAbsent(allocs: seq<Allocation>, k: BinId)
    requires forall i :: 0 <= i < |allocs| ==> allocs[i].bin != k
    ensures DrawnFrom(allocs, k) == 0 && SavesOf(allocs, k) == 0
  {
    if allocs != [] {
      DrawnFromAbsent(allocs[..|allocs| - 1], k);
    }
  }

  /** A bin that one of the allocations sits in is saved at least once. */
  lemma {:induction false} SavedAtLeastOnce(allocs: seq<Allocation>, i: nat)
    requires i < |allocs|
    ensures SavesOf(allocs, allocs[i].bin) >= 1
  {
    if i < |allocs| - 1 {
      SavedAtLeastOnce(allocs[..|allocs| - 1], i);
    }
  }

  lemma DrawnFromGrows(allocs: seq<Allocation>, n: nat, k: BinId)
    requires n < |allocs|
    ensures DrawnFrom(allocs[..n + 1], k) == DrawnFrom(allocs[..n], k) + if allocs[n].bin == k then allocs[n].quantity else 0
    ensures SavesOf(allocs[..n + 1], k) == SavesOf(allocs[..n], k) + if allocs[n].bin == k then 1 else 0
  {
    assert allocs[..n + 1][..n] == allocs[..n];
  }

  /** The bin of one allocation more is staged, from the row it was read at or from this transaction's own write. */
  lemma BinsStagedGrow(db: Db, staged: Table<BinId, BinData>, allocs: seq<Allocation>, n: nat,
                       was: Row<BinData>, row: Row<BinData>)
    requires n < |allocs| && BinsStaged(db, staged, allocs, n)
    requires var a := allocs[n];
      && (a.bin in staged ==> was == staged[a.bin])
      && a.bin in db.bins
      && (a.bin !in staged ==> was == db.bins[a.bin])
      && row.content.capacity == was.content.capacity
      && row.content.occupied + a.quantity == was.content.occupied
      && row.version == was.version + 1
    ensures BinsStaged(db, staged[allocs[n].bin := row], allocs, n + 1)
  {
    var a := allocs[n];
    var staged' := staged[a.bin := row];
    forall k | k in staged' ensures exists i :: 0 <= i < n + 1 && allocs[i].bin == k {
      if k != a.bin {
        var i :| 0 <= i < n && allocs[i].bin == k;
        assert i < n + 1;
      }
    }
    forall k | k in staged'
      ensures k in db.bins && staged'[k].version == db.bins[k].version + SavesOf(allocs[..n + 1], k)
      ensures staged'[k].content.capacity == db.bins[k].content.capacity
      ensures staged'[k].content.occupied == db.bins[k].content.occupied - DrawnFrom(allocs[..n + 1], k)
    {
      DrawnFromGrows(allocs, n, k);
      if a.bin !in staged && k == a.bin {
        forall i | 0 <= i < n ensures allocs[..n][i].bin != k {
          assert allocs[i].bin in staged;
        }
        DrawnFromAbsent(allocs[..n], k);
      }
    }
  }

  // ---- one statement of a resolution

  lemma ReadsUnit(db: Db, q: Request)
    requires q.job.Resolving? && ResolveInv(db, q) && q.job.at == AtUnit && !q.job.recorded
    requires q.job.done < |q.job.row.content.allocations|
    ensures var u := q.job.row.content.allocations[q.job.done].unit;
      && u in db.units && u !in q.writes.units
      && ResolveInv(db, Request(q.job.(at := UnitRead((db.units + q.writes.units)[u])), q.writes))
  {
    var u := q.job.row.content.allocations[q.job.done].unit;
    assert u !in q.writes.units;
  }

  /** What releasing or picking one allocation makes of a unit. */
  function Changed(job: Job, d: UnitData, q: Quantity): Result<UnitData>
    requires job.Resolving?
  {
    if job.to == CONFIRMED then d.Pick(q) else d.ReleaseReservation(q)
  }

  /** The request after saving a unit: on to the bin for a pick, to the next allocation for a release. */
  function AfterUnit(q: Request, row: Row<UnitData>): Request
    requires q.job.Resolving? && q.job.done < |q.job.row.content.allocations|
  {
    Request(if q.job.to == CONFIRMED then q.job.(at := UnitStaged) else q.job.(done := q.job.done + 1, at := AtUnit),
            q.writes.(units := q.writes.units[q.job.row.content.allocations[q.job.done].unit := row]))
  }

  /** The allocation in progress: its unit exists and, before it is saved, is not staged; staged bins are real bins. */
  lemma NotStagedYet(db: Db, q: Request)
    requires q.job.Resolving? && ResolveInv(db, q) && q.job.done < |q.job.row.content.allocations|
    ensures DistinctUnits(q.job.row.content.allocations)
    ensures var a := q.job.row.content.allocations[q.job.done];
      && a.unit in db.units && a.quantity > 0
      && (UnitsDone(q.job) == q.job.done ==> a.unit !in q.writes.units)
      && (a.bin in q.writes.bins ==> a.bin in db.bins)
  {
  }

  /** Saving the unit, when it succeeds, replaces the very row that was read. */
  lemma SavedUnitRow(db: Db, q: Request, content: UnitData)
    requires q.job.Resolving? && ResolveInv(db, q) && q.job.at.UnitRead?
    requires Save(db.units + q.writes.units, q.job.row.content.allocations[q.job.done].unit, content,
                  q.job.at.unitRow.version).Ok?
    ensures var u := q.job.row.content.allocations[q.job.done].unit;
      && Save(db.units + q.writes.units, u, content, q.job.at.unitRow.version) == Ok(Row(content, q.job.at.unitRow.version + 1))
      && u in db.units && db.units[u] == q.job.at.unitRow
  {
    NotStagedYet(db, q);
    hide UnitsStaged, BinsStaged, DrawsOnRows;
  }

  lemma SavesUnit(db: Db, q: Request, row: Row<UnitData>)
    requires q.job.Resolving? && ResolveInv(db, q) && q.job.at.UnitRead? && !q.job.recorded
    requires var a := q.job.row.content.allocations[q.job.done];
      && a.unit in db.units && db.units[a.unit] == q.job.at.unitRow
      && Changed(q.job, q.job.at.unitRow.content, a.quantity).Ok?
      && row == Row(Changed(q.job, q.job.at.unitRow.content, a.quantity).value, q.job.at.unitRow.version + 1)
    ensures ResolveInv(db, AfterUnit(q, row))
  {
    NotStagedYet(db, q);
    hide UnitsStaged, BinsStaged, DrawsOnRows;
    UnitsStagedGrow(db, q.writes.units, q.job.row.content.allocations, q.job.done, q.job.to, row);
  }

  lemma ReadsBin(db: Db, q: Request)
    requires q.job.Resolving? && ResolveInv(db, q) && q.job.at == UnitStaged && !q.job.recorded
    ensures var a := q.job.row.content.allocations[q.job.done];
      && a.unit in db.units + q.writes.units && (db.units + q.writes.units)[a.unit].content.bin == a.bin
      && (a.bin in db.bins + q.writes.bins ==>
            ResolveInv(db, Request(q.job.(at := BinRead((db.bins + q.writes.bins)[a.bin])), q.writes)))
  {
  }

  /** Saving the bin, when it succeeds, replaces the row that was read: the committed one, or this transaction's own. */
  lemma SavedBinRow(db: Db, q: Request, content: BinData)
    requires q.job.Resolving? && ResolveInv(db, q) && q.job.at.BinRead?
    requires Save(db.bins + q.writes.bins, q.job.row.content.allocations[q.job.done].bin, content, q.job.at.binRow.version).Ok?
    ensures var k := q.job.row.content.allocations[q.job.done].bin;
      && Save(db.bins + q.writes.bins, k, content, q.job.at.binRow.version) == Ok(Row(content, q.job.at.binRow.version + 1))
      && k in db.bins && q.job.at.binRow == (if k in q.writes.bins then q.writes.bins[k] else db.bins[k])
  {
    NotStagedYet(db, q);
    hide UnitsStaged, BinsStaged, DrawsOnRows;
  }

  lemma SavesBin(db: Db, q: Request, row: Row<BinData>)
    requires q.job.Resolving? && ResolveInv(db, q) && q.job.at.BinRead? && !q.job.recorded
    requires var a := q.job.row.content.allocations[q.job.done];
      && a.bin in db.bins && q.job.at.binRow == (if a.bin in q.writes.bins then q.writes.bins[a.bin] else db.bins[a.bin])
      && q.job.at.binRow.content.Release(a.quantity).Ok?
      && row == Row(q.job.at.binRow.content.Release(a.quantity).value, q.job.at.binRow.version + 1)
    ensures ResolveInv(db, Request(q.job.(done := q.job.done + 1, at := AtUnit),
                                   q.writes.(bins := q.writes.bins[q.job.row.content.allocations[q.job.done].bin := row])))
  {
    hide UnitsStaged, BinsStaged, DrawsOnRows;
    BinsStagedGrow(db, q.writes.bins, q.job.row.content.allocations, q.job.done, q.job.at.binRow, row);
  }

  lemma SavesReservation(db: Db, q: Request)
    requires q.job.Resolving? && ResolveInv(db, q) && !q.job.recorded && q.job.done == |q.job.row.content.allocations|
    requires Save(db.reservations + q.writes.reservations, q.job.res, q.job.row.content.(status := q.job.to),
                  q.job.row.version).Ok?
    ensures var row := Save(db.reservations + q.writes.reservations, q.job.res, q.job.row.content.(status := q.job.to),
                            q.job.row.version).value;
      ResolveInv(db, Request(q.job.(recorded := true), q.writes.(reservations := q.writes.reservations[q.job.res := row])))
  {
    hide UnitsStaged, BinsStaged, DrawsOnRows;
    assert db.reservations + q.writes.reservations == db.reservations;
  }
}
