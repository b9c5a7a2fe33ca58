/** A resolution as a whole: each of its statements continues it soundly, and its commit is the whole resolution. */
module Resolutions {
  import opened Shared
  import opened Stock
  import opened Location
  import opened Claims
  import opened Ledger
  import opened Transitions
  import opened Rows
  import opened Requests
  import opened Invariants
  import opened Safety
  import opened StowSteps
  import opened ResolveSteps

  lemma StageReservation(s: System, p: nat, w: Writes, r: ResId, row: Row<ResData>)
    requires Exclusive(s.requests) && p in s.requests && w == s.requests[p].writes && ReservationFree(s, p, r)
    ensures ApartFromOthers(s, p, w.(reservations := w.reservations[r := row]))
  {
    forall q | q in s.requests && q != p
      ensures Apart(w.(reservations := w.reservations[r := row]), s.requests[q].writes)
      ensures Apart(s.requests[q].writes, w.(reservations := w.reservations[r := row]))
    {
      assert Apart(w, s.requests[q].writes);
    }
  }

  lemma UnitContinues(s: System, p: nat, q': Request)
    requires Exclusive(s.requests) && p in s.requests && s.requests[p].job.Resolving? && ResolveInv(s.db, s.requests[p])
    requires var job := s.requests[p].job;
      && !job.recorded && job.done < |job.row.content.allocations| && (job.at == AtUnit || job.at.UnitRead?)
    requires StepResolve(s, p) == Some(Continue(s, p, q'.job, q'.writes)) && StepResolve(s, p) != Some(Abort(s, p))
    ensures q'.job.Resolving? && ResolveInv(s.db, q') && ApartFromOthers(s, p, q'.writes)
  {
    hide ResolveInv;
    var q := s.requests[p];
    var a := q.job.row.content.allocations[q.job.done];
    assert Continue(s, p, q'.job, q'.writes).requests[p] == q';
    if q.job.at == AtUnit {
      ReadsUnit(s.db, q);
    } else {
      var changed := Changed(q.job, q.job.at.unitRow.content, a.quantity);
      SavedUnitRow(s.db, q, changed.value);
      var row := Row(changed.value, q.job.at.unitRow.version + 1);
      SavesUnit(s.db, q, row);
      StageUnit(s, p, q.writes, a.unit, row);
    }
  }

  lemma BinReadContinues(s: System, p: nat, q': Request)
    requires p in s.requests && s.requests[p].job.Resolving? && ResolveInv(s.db, s.requests[p])
    requires ApartFromOthers(s, p, s.requests[p].writes)
    requires var job := s.requests[p].job; !job.recorded && job.done < |job.row.content.allocations| && job.at == UnitStaged
    requires StepResolve(s, p) == Some(Continue(s, p, q'.job, q'.writes)) && StepResolve(s, p) != Some(Abort(s, p))
    ensures q'.job.Resolving? && ResolveInv(s.db, q') && ApartFromOthers(s, p, q'.writes)
  {
    hide ResolveInv, ApartFromOthers;
    StagedUnitInPlace(s.db, s.requests[p]);
    assert Continue(s, p, q'.job, q'.writes).requests[p] == q';
    ReadsBin(s.db, s.requests[p]);
  }

  lemma BinSaveContinues(s: System, p: nat, q': Request)
    requires Exclusive(s.requests) && p in s.requests && s.requests[p].job.Resolving? && ResolveInv(s.db, s.requests[p])
    requires var job := s.requests[p].job; !job.recorded && job.done < |job.row.content.allocations| && job.at.BinRead?
    requires StepResolve(s, p) == Some(Continue(s, p, q'.job, q'.writes)) && StepResolve(s, p) != Some(Abort(s, p))
    ensures q'.job.Resolving? && ResolveInv(s.db, q') && ApartFromOthers(s, p, q'.writes)
  {
    hide ResolveInv, ApartFromOthers, Exclusive;
    var q := s.requests[p];
    var a := q.job.row.content.allocations[q.job.done];
    StagedUnitInPlace(s.db, q);
    assert Continue(s, p, q'.job, q'.writes).requests[p] == q';
    var freed := q.job.at.binRow.content.Release(a.quantity);
    SavedBinRow(s.db, q, freed.value);
    var row := Row(freed.value, q.job.at.binRow.version + 1);
    SavesBin(s.db, q, row);
    StageBin(s, p, q.writes, a.bin, row);
  }

  /** Once the unit of the allocation in progress is staged, it is in the bin the allocation recorded. */
  lemma StagedUnitInPlace(db: Db, q: Request)
    requires q.job.Resolving? && ResolveInv(db, q) && (q.job.at == UnitStaged || q.job.at.BinRead?)
    ensures var a := q.job.row.content.allocations[q.job.done];
      a.unit in db.units + q.writes.units && (db.units + q.writes.units)[a.unit].content.bin == a.bin
  {
  }

  lemma BinContinues(s: System, p: nat, q': Request)
    requires Exclusive(s.requests) && p in s.requests && s.requests[p].job.Resolving? && ResolveInv(s.db, s.requests[p])
    requires var job := s.requests[p].job;
      && !job.recorded && job.done < |job.row.content.allocations| && (job.at == UnitStaged || job.at.BinRead?)
    requires StepResolve(s, p) == Some(Continue(s, p, q'.job, q'.writes)) && StepResolve(s, p) != Some(Abort(s, p))
    ensures q'.job.Resolving? && ResolveInv(s.db, q') && ApartFromOthers(s, p, q'.writes)
  {
    hide ResolveInv, StepResolve;
    if s.requests[p].job.at == UnitStaged {
      BinReadContinues(s, p, q');
    } else {
      BinSaveContinues(s, p, q');
    }
  }

  lemma ReservationContinues(s: System, p: nat, q': Request)
    requires Exclusive(s.requests) && p in s.requests && s.requests[p].job.Resolving? && ResolveInv(s.db, s.requests[p])
    requires var job := s.requests[p].job; !job.recorded && job.done == |job.row.content.allocations|
    requires StepResolve(s, p) == Some(Continue(s, p, q'.job, q'.writes)) && StepResolve(s, p) != Some(Abort(s, p))
    ensures q'.job.Resolving? && ResolveInv(s.db, q') && ApartFromOthers(s, p, q'.writes)
  {
    hide ResolveInv;
    var q := s.requests[p];
    assert Continue(s, p, q'.job, q'.writes).requests[p] == q';
    SavesReservation(s.db, q);
    StageReservation(s, p, q.writes, q.job.res, q'.writes.reservations[q.job.res]);
  }

  // ---- the commit

  /** A unit whose allocation is staged is staged with exactly what was drawn from it; any other was not drawn on. */
  lemma StagedExactly(db: Db, staged: Table<UnitId, UnitData>, allocs: seq<Allocation>, to: Status, u: UnitId)
    requires DistinctUnits(allocs) && UnitsStaged(db, staged, allocs, |allocs|, to)
    ensures u in staged ==>
      && u in db.units
      && staged[u].content == Settled(to, db.units[u].content, DrawnOn(allocs, u))
      && staged[u].version > db.units[u].version
      && staged[u].content.sku == db.units[u].content.sku && staged[u].content.bin == db.units[u].content.bin
    ensures u !in staged ==> DrawnOn(allocs, u) == 0
  {
    hide DrawnOn;
    if u in staged {
      var i :| 0 <= i < |allocs| && allocs[i].unit == u;
      DrawnOnAt(allocs, i);
    } else {
      forall i | 0 <= i < |allocs| ensures allocs[i].unit != u {
        assert allocs[i].unit in staged;
      }
      DrawnOnAbsent(allocs, u);
    }
  }

  /** Before the commit, every allocation is staged. */
  lemma AllStaged(db: Db, q: Request)
    requires q.job.Resolving? && q.job.recorded && ResolveInv(db, q)
    ensures var allocs := q.job.row.content.allocations;
      && DistinctUnits(allocs)
      && UnitsStaged(db, q.writes.units, allocs, |allocs|, q.job.to)
      && if q.job.to == CONFIRMED then BinsStaged(db, q.writes.bins, allocs, |allocs|) else q.writes.bins == map[]
  {
    hide UnitsStaged, BinsStaged;
  }

  lemma CommitSettlesUnits(db: Db, p: nat, q: Request)
    requires q.job.Resolving? && q.job.recorded && ResolveInv(db, q)
    ensures UnitsSettled(BooksOf(db).units, q.job.row.content.allocations, q.job.to,
                         BooksOf(Commit(db, q.writes, Published(p, q.job))).units)
    ensures forall u :: u in q.writes.units ==>
      && u in db.units && q.writes.units[u].version > db.units[u].version
      && q.writes.units[u].content.sku == db.units[u].content.sku && q.writes.units[u].content.bin == db.units[u].content.bin
  {
    hide ResolveInv, UnitsStaged, BinsStaged, DistinctUnits, Settled, DrawnOn;
    AllStaged(db, q);
    var allocs := q.job.row.content.allocations;
    forall u | u in q.writes.units ensures u in db.units {
      StagedExactly(db, q.writes.units, allocs, q.job.to, u);
    }
    forall u | u in db.units
      ensures BooksOf(Commit(db, q.writes, Published(p, q.job))).units[u] ==
              Settled(q.job.to, db.units[u].content, DrawnOn(q.job.row.content.allocations, u))
      ensures u in q.writes.units ==>
        && q.writes.units[u].version > db.units[u].version
        && q.writes.units[u].content.sku == db.units[u].content.sku && q.writes.units[u].content.bin == db.units[u].content.bin
    {
      StagedExactly(db, q.writes.units, allocs, q.job.to, u);
      SettledByNothing(q.job.to, db.units[u].content);
    }
  }

  /** A bin of the resolution is staged with all that was picked from it freed; any other was not picked from. */
  lemma BinStagedExactly(db: Db, staged: Table<BinId, BinData>, allocs: seq<Allocation>, k: BinId)
    requires BinsStaged(db, staged, allocs, |allocs|)
    ensures k in staged ==>
      && k in db.bins
      && staged[k].version == db.bins[k].version + SavesOf(allocs, k) > db.bins[k].version
      && staged[k].content.capacity == db.bins[k].content.capacity
      && staged[k].content.occupied == db.bins[k].content.occupied - DrawnFrom(allocs, k)
    ensures k !in staged ==> DrawnFrom(allocs, k) == 0 && SavesOf(allocs, k) == 0
  {
    hide DrawnFrom, SavesOf;
    assert allocs[..|allocs|] == allocs;
    if k in staged {
      var i :| 0 <= i < |allocs| && allocs[i].bin == k;
      SavedAtLeastOnce(allocs, i);
    } else {
      forall i | 0 <= i < |allocs| ensures allocs[i].bin != k {
        assert allocs[i].bin in staged;
      }
      DrawnFromAbsent(allocs, k);
    }
  }

  lemma CommitSettlesBins(db: Db, p: nat, q: Request)
    requires q.job.Resolving? && q.job.recorded && ResolveInv(db, q)
    ensures BinsSettled(BooksOf(db).bins, q.job.row.content.allocations, q.job.to,
                        BooksOf(Commit(db, q.writes, Published(p, q.job))).bins)
    ensures forall k :: k in q.writes.bins ==> k in db.bins && q.writes.bins[k].version > db.bins[k].version
  {
    hide ResolveInv, DrawnFrom, SavesOf, BinsStaged, UnitsStaged, DistinctUnits;
    AllStaged(db, q);
    var allocs := q.job.row.content.allocations;
    if q.job.to == CONFIRMED {
      forall k
        ensures k in q.writes.bins ==>
          && k in db.bins && q.writes.bins[k].version > db.bins[k].version
          && q.writes.bins[k].content.capacity == db.bins[k].content.capacity
          && q.writes.bins[k].content.occupied == db.bins[k].content.occupied - DrawnFrom(allocs, k)
        ensures k !in q.writes.bins ==> DrawnFrom(allocs, k) == 0
      {
        BinStagedExactly(db, q.writes.bins, allocs, k);
      }
    }
  }

  /** When its reservation row is staged, the reservation is still ACTIVE, as it was read. */
  lemma StillActive(db: Db, q: Request)
    requires q.job.Resolving? && q.job.recorded && ResolveInv(db, q)
    ensures q.job.res in db.reservations && db.reservations[q.job.res] == q.job.row
    ensures q.job.row.content.status == ACTIVE && q.job.to != ACTIVE
    ensures q.writes.reservations == map[q.job.res := Row(q.job.row.content.(status := q.job.to), q.job.row.version + 1)]
  {
  }

  /** The reservation row and the event that the commit adds. */
  lemma CommitSettlesReservation(db: Db, p: nat, q: Request)
    requires q.job.Resolving? && q.job.recorded && ResolveInv(db, q)
    ensures var b, b' := BooksOf(db), BooksOf(Commit(db, q.writes, Published(p, q.job)));
      && q.job.res in b.reservations && b.reservations[q.job.res] == q.job.row.content
      && b.reservations[q.job.res].status == ACTIVE && q.job.to != ACTIVE
      && b'.reservations == b.reservations[q.job.res := q.job.row.content.(status := q.job.to)]
      && b'.log == b.log + [ResolutionEvent(q.job.res, q.job.row.content, q.job.to)]
      && q.writes.reservations.Keys <= db.reservations.Keys
      && forall r :: r in q.writes.reservations ==> q.writes.reservations[r].version > db.reservations[r].version
  {
    hide ResolveInv, Contents;
    StillActive(db, q);
    ContentsWritten(db.reservations, q.job.res, Row(q.job.row.content.(status := q.job.to), q.job.row.version + 1));
  }

  /** The commit of a resolution is the whole resolution, of a reservation that is still ACTIVE. */
  lemma ResolveCommits(db: Db, p: nat, q: Request)
    requires q.job.Resolving? && q.job.recorded && ResolveInv(db, q)
    ensures Resolves(BooksOf(db), q.job.res, q.job.to, BooksOf(Commit(db, q.writes, Published(p, q.job))))
  {
    hide ResolveInv, UnitsSettled, BinsSettled, Contents, Commit, Published, BooksOf;
    CommitSettlesReservation(db, p, q);
    CommitSettlesUnits(db, p, q);
    CommitSettlesBins(db, p, q);
  }

  lemma ResolveWrites(db: Db, p: nat, q: Request)
    requires q.job.Resolving? && q.job.recorded && ResolveInv(db, q)
    ensures WritesAhead(db, q.writes)
    ensures q.writes.units.Keys <= db.units.Keys && q.writes.reservations.Keys <= db.reservations.Keys
  {
    hide ResolveInv, UnitsSettled, BinsSettled, Contents, Commit, Published, BooksOf;
    CommitSettlesReservation(db, p, q);
    CommitSettlesUnits(db, p, q);
    CommitSettlesBins(db, p, q);
  }

  lemma ResolveLeavesFirstVersions(db: Db, p: nat, q: Request)
    requires q.job.Resolving? && q.job.recorded && ResolveInv(db, q) && FirstVersions(db)
    ensures FirstVersions(Commit(db, q.writes, Published(p, q.job)))
  {
    CommitSettlesUnits(db, p, q);
    CommitSettlesBins(db, p, q);
    hide ResolveInv, UnitsSettled, BinsSettled;
  }

  lemma ResolveBooks(s: System, p: nat, r: ResId, to: Status, apart: (Sku, Sku) -> bool)
    requires Lawful(BooksOf(s.db), Gap(s.requests)) && Segregated(BooksOf(s.db).units, apart)
    requires p in s.requests && s.requests[p].job.Resolving?
    requires Resolves(BooksOf(s.db), r, to, BooksOf(Finish(s, p).db))
    ensures Lawful(BooksOf(Finish(s, p).db), Gap(s.requests - {p})) && Segregated(BooksOf(Finish(s, p).db).units, apart)
  {
    hide Lawful, Resolves, Segregated;
    var b, b' := BooksOf(s.db), BooksOf(Finish(s, p).db);
    ResolvedInPlace(b, r, to, b');
    EndLeavesGap(b, s.requests, p);
    ResolvedLawful(b, r, to, b', Gap(s.requests - {p}));
    SegregatedStable(b.units, b'.units, apart);
  }

  lemma ResolveFinishKeeps(s: System, p: nat, apart: (Sku, Sku) -> bool)
    requires Inv(s, apart) && p in s.requests && s.requests[p].job.Resolving? && s.requests[p].job.recorded
    ensures Inv(Finish(s, p), apart)
  {
    var q := s.requests[p];
    assert ResolveInv(s.db, q) by { assert RequestInv(s.db, p, q, apart); }
    hide Lawful, ResolveInv, Resolves, WritesAhead, Segregated;
    ResolveCommits(s.db, p, q);
    ResolveWrites(s.db, p, q);
    ResolveLeavesFirstVersions(s.db, p, q);
    ResolveBooks(s, p, q.job.res, q.job.to, apart);
    FinishKeeps(s, p, apart);
  }

  lemma ResolveContinues(s: System, p: nat, q': Request)
    requires Exclusive(s.requests) && p in s.requests && s.requests[p].job.Resolving? && ResolveInv(s.db, s.requests[p])
    requires !s.requests[p].job.recorded && s.requests[p].job.done <= |s.requests[p].job.row.content.allocations|
    requires StepResolve(s, p) == Some(Continue(s, p, q'.job, q'.writes)) && StepResolve(s, p) != Some(Abort(s, p))
    ensures q'.job.Resolving? && ResolveInv(s.db, q') && ApartFromOthers(s, p, q'.writes)
  {
    hide ResolveInv, StepResolve, ApartFromOthers;
    var job := s.requests[p].job;
    if job.done == |job.row.content.allocations| {
      ReservationContinues(s, p, q');
    } else if job.at == AtUnit || job.at.UnitRead? {
      UnitContinues(s, p, q');
    } else {
      BinContinues(s, p, q');
    }
  }

  lemma ResolveKeeps(s: System, p: nat, apart: (Sku, Sku) -> bool)
    requires Inv(s, apart) && p in s.requests && s.requests[p].job.Resolving?
    ensures StepResolve(s, p).Some? ==> Inv(StepResolve(s, p).value, apart)
  {
    var q := s.requests[p];
    assert ResolveInv(s.db, q) && q.job.done <= |q.job.row.content.allocations| by { assert RequestInv(s.db, p, q, apart); }
    AbortKeeps(s, p, apart);
    if q.job.recorded {
      ResolveFinishKeeps(s, p, apart);
    } else if StepResolve(s, p).Some? && StepResolve(s, p) != Some(Abort(s, p)) {
      ResolveGoesOn(s, p, apart);
    }
  }

  lemma ResolveGoesOn(s: System, p: nat, apart: (Sku, Sku) -> bool)
    requires Inv(s, apart) && p in s.requests && s.requests[p].job.Resolving? && !s.requests[p].job.recorded
    requires ResolveInv(s.db, s.requests[p]) && s.requests[p].job.done <= |s.requests[p].job.row.content.allocations|
    requires StepResolve(s, p).Some? && StepResolve(s, p) != Some(Abort(s, p))
    ensures Inv(StepResolve(s, p).value, apart)
  {
    StepIsContinue(s, p);
    hide Lawful, ResolveInv, Segregated, StepResolve, Abort;
    var q' := StepResolve(s, p).value.requests[p];
    ResolveContinues(s, p, q');
    assert RequestInv(s.db, p, q', apart);
    ContinueKeeps(s, p, q'.job, q'.writes, apart);
  }

  /** A statement that neither fails nor commits changes only its own request. */
  lemma StepIsContinue(s: System, p: nat)
    requires p in s.requests && s.requests[p].job.Resolving? && !s.requests[p].job.recorded
    requires StepResolve(s, p).Some? && StepResolve(s, p) != Some(Abort(s, p))
    ensures p in StepResolve(s, p).value.requests
    ensures var q' := StepResolve(s, p).value.requests[p];
      StepResolve(s, p) == Some(Continue(s, p, q'.job, q'.writes))
  {
  }
}
