/** The steps of a stow, and of a bin registration, keep the system invariant. */
module StowSteps {
  import opened Shared
  import opened Stock
  import opened Location
  import opened Sums
  import opened Ledger
  import opened Transitions
  import opened Rows
  import opened Requests
  import opened Invariants
  import opened Safety

  lemma StageBin(s: System, p: nat, w: Writes, k: BinId, row: Row<BinData>)
    requires Exclusive(s.requests) && p in s.requests && w == s.requests[p].writes && BinFree(s, p, k)
    ensures ApartFromOthers(s, p, w.(bins := w.bins[k := row]))
  {
    forall q | q in s.requests && q != p
      ensures Apart(w.(bins := w.bins[k := row]), s.requests[q].writes)
      ensures Apart(s.requests[q].writes, w.(bins := w.bins[k := row]))
    {
      assert Apart(w, s.requests[q].writes);
    }
  }

  lemma StageUnit(s: System, p: nat, w: Writes, u: UnitId, row: Row<UnitData>)
    requires Exclusive(s.requests) && p in s.requests && w == s.requests[p].writes && UnitFree(s, p, u)
    ensures ApartFromOthers(s, p, w.(units := w.units[u := row]))
  {
    forall q | q in s.requests && q != p
      ensures Apart(w.(units := w.units[u := row]), s.requests[q].writes)
      ensures Apart(s.requests[q].writes, w.(units := w.units[u := row]))
    {
      assert Apart(w, s.requests[q].writes);
    }
  }

  /** The stow commits exactly a stow: the bin it checked is the bin it fills. */
  lemma StowCommits(db: Db, p: nat, q: Request, apart: (Sku, Sku) -> bool)
    requires q.job.Stowing? && q.job.stage == UnitSaved && StowInv(db, p, q, apart)
    ensures Stows(BooksOf(db), p, q.job.unit, BooksOf(Commit(db, q.writes, Published(p, q.job))))
    ensures Clear(db.units, q.job.unit.sku, q.job.unit.bin, apart)
  {
    var unit := q.job.unit;
    var b, b' := BooksOf(db), BooksOf(Commit(db, q.writes, Published(p, q.job)));
    assert b'.units == b.units[p := unit];
    assert b'.bins == b.bins[unit.bin := b.bins[unit.bin].Occupy(unit.quantity).value];
    assert b'.reservations == b.reservations;
  }

  lemma StowFacts(db: Db, p: nat, q: Request, apart: (Sku, Sku) -> bool)
    requires RequestInv(db, p, q, apart) && q.job.Stowing? && q.job.stage == UnitSaved
    ensures StowInv(db, p, q, apart) && p !in db.units
    ensures q.writes.units == map[p := Row(q.job.unit, 1)] && q.writes.reservations == map[]
  {
  }

  lemma StowedUnits(b: Books, id: UnitId, unit: UnitData, b': Books)
    requires Stows(b, id, unit, b')
    ensures b'.units == b.units[id := unit]
  {
  }

  lemma StowWrites(db: Db, p: nat, q: Request, apart: (Sku, Sku) -> bool)
    requires q.job.Stowing? && q.job.stage == UnitSaved && StowInv(db, p, q, apart) && FirstVersions(db)
    ensures WritesAhead(db, q.writes) && FirstVersions(Commit(db, q.writes, Published(p, q.job)))
  {
  }

  lemma StowKeeps(s: System, p: nat, apart: (Sku, Sku) -> bool)
    requires Inv(s, apart) && Symmetric(apart) && p in s.requests && s.requests[p].job.Stowing?
    ensures StepStow(s, p, apart).Some? ==> Inv(StepStow(s, p, apart).value, apart)
  {
    var q := s.requests[p];
    var job, w := q.job, q.writes;
    AbortKeeps(s, p, apart);
    assert StowInv(s.db, p, q, apart) by { assert RequestInv(s.db, p, q, apart); }
    if job.stage == UnitSaved {
      StowFinishKeeps(s, p, apart);
    } else if StepStow(s, p, apart).Some? && StepStow(s, p, apart) != Some(Abort(s, p)) {
      var q' := StepStow(s, p, apart).value.requests[p];
      StowContinues(s, p, q', apart);
      ContinueKeeps(s, p, q'.job, q'.writes, apart);
    }
  }

  lemma StowContinues(s: System, p: nat, q': Request, apart: (Sku, Sku) -> bool)
    requires Orderly(s, apart) && p in s.requests && s.requests[p].job.Stowing? && s.requests[p].job.stage != UnitSaved
    requires StepStow(s, p, apart) == Some(Continue(s, p, q'.job, q'.writes)) && StepStow(s, p, apart) != Some(Abort(s, p))
    ensures q'.job.Stowing? && StowInv(s.db, p, q', apart) && ApartFromOthers(s, p, q'.writes)
  {
    var q := s.requests[p];
    assert StowInv(s.db, p, q, apart) by { assert RequestInv(s.db, p, q, apart); }
    assert Continue(s, p, q'.job, q'.writes).requests[p] == q';
    match q.job.stage {
      case Opened =>
      case Checked =>
        hide StowInv, ApartFromOthers;
        StowSavesBin(s.db, p, q, apart);
        StageBin(s, p, q.writes, q.job.unit.bin, q'.writes.bins[q.job.unit.bin]);
      case BinSaved =>
        hide StowInv, ApartFromOthers;
        StowSavesUnit(s.db, p, q, apart);
        StageUnit(s, p, q.writes, p, q'.writes.units[p]);
    }
  }

  lemma StowSavesBin(db: Db, p: nat, q: Request, apart: (Sku, Sku) -> bool)
    requires q.job.Stowing? && q.job.stage == Checked && StowInv(db, p, q, apart)
    ensures q.job.bin.content.Occupy(q.job.unit.quantity).Ok?
    ensures var saved := Save(db.bins + q.writes.bins, q.job.unit.bin, q.job.bin.content.Occupy(q.job.unit.quantity).value,
                              q.job.bin.version);
      saved.Ok? ==>
        StowInv(db, p, Request(q.job.(stage := BinSaved), q.writes.(bins := q.writes.bins[q.job.unit.bin := saved.value])),
                apart)
  {
    assert db.bins + q.writes.bins == db.bins;
  }

  lemma StowSavesUnit(db: Db, p: nat, q: Request, apart: (Sku, Sku) -> bool)
    requires q.job.Stowing? && q.job.stage == BinSaved && StowInv(db, p, q, apart)
    ensures var saved := Save(db.units + q.writes.units, p, q.job.unit, 1);
      saved.Ok? ==>
        StowInv(db, p, Request(q.job.(stage := UnitSaved), q.writes.(units := q.writes.units[p := saved.value])), apart)
  {
    assert db.units + q.writes.units == db.units;
  }

  lemma StowFinishKeeps(s: System, p: nat, apart: (Sku, Sku) -> bool)
    requires Inv(s, apart) && Symmetric(apart)
    requires p in s.requests && s.requests[p].job.Stowing? && s.requests[p].job.stage == UnitSaved
    ensures Inv(Finish(s, p), apart)
  {
    var q, s' := s.requests[p], Finish(s, p);
    var b, b' := BooksOf(s.db), BooksOf(s'.db);
    StowFacts(s.db, p, q, apart);
    hide Lawful, StowInv, Stows, Segregated;
    StowCommits(s.db, p, q, apart);
    StowWrites(s.db, p, q, apart);
    EndLeavesGap(b, s.requests, p);
    NothingDrawnYet(s, p, apart);
    StowedLawful(b, p, q.job.unit, b', Gap(s'.requests));
    SegregatedStow(b.units, p, q.job.unit, apart);
    StowedUnits(b, p, q.job.unit, b');
    FinishKeeps(s, p, apart);
  }

  /** Nobody has drawn on a unit that is not committed. */
  lemma NothingDrawnYet(s: System, u: UnitId, apart: (Sku, Sku) -> bool)
    requires Orderly(s, apart) && u !in s.db.units
    ensures Gap(s.requests)(u) == 0
  {
    forall p | p in s.requests ensures DrawTerm(u)(s.requests[p]) == 0 {
      assert RequestInv(s.db, p, s.requests[p], apart);
      if s.requests[p].job.Reserving? {
        DrawnOnAbsent(s.requests[p].job.data.allocations[..s.requests[p].job.saved], u);
      }
    }
    SumZero(s.requests, DrawTerm(u));
  }

  // ---- registering a bin

  /** A bin that has only its first version is empty: overwriting it with a fresh bin loses nothing. */
  lemma FirstVersionIsEmpty(db: Db, k: BinId)
    requires FirstVersions(db) && BinsBalanced(BooksOf(db).units, BooksOf(db).bins)
    requires k in db.bins && db.bins[k].version == 1
    ensures db.bins[k].content.occupied == 0
  {
    var b := BooksOf(db);
    assert b.bins[k].occupied == OnHand(b.units, InBin(k));
    SumZero(b.units, Quantities(InBin(k)));
  }

  lemma RegisterContinues(s: System, p: nat, q': Request, apart: (Sku, Sku) -> bool)
    requires Orderly(s, apart) && BinsBalanced(BooksOf(s.db).units, BooksOf(s.db).bins)
    requires p in s.requests && s.requests[p].job.Registering? && !s.requests[p].job.binStaged
    requires StepRegister(s, p) == Some(Continue(s, p, q'.job, q'.writes)) && StepRegister(s, p) != Some(Abort(s, p))
    ensures q'.job.Registering? && RegisterInv(s.db, q') && ApartFromOthers(s, p, q'.writes)
  {
    var q := s.requests[p];
    var k := q.job.binId;
    assert RegisterInv(s.db, q) by { assert RequestInv(s.db, p, q, apart); }
    assert Continue(s, p, q'.job, q'.writes).requests[p] == q';
    assert s.db.bins + q.writes.bins == s.db.bins;
    StageBin(s, p, q.writes, k, q'.writes.bins[k]);
    if q.job.found.None? && k in s.db.bins {
      FirstVersionIsEmpty(s.db, k);
    }
  }

  lemma RegisterCommits(db: Db, p: nat, q: Request)
    requires q.job.Registering? && q.job.binStaged && RegisterInv(db, q)
    ensures SetsBin(BooksOf(db), q.job.binId, q.job.next, BooksOf(Commit(db, q.writes, Published(p, q.job))))
  {
    var db' := Commit(db, q.writes, Published(p, q.job));
    var b, b' := BooksOf(db), BooksOf(db');
    assert b'.bins == b.bins[q.job.binId := q.job.next];
    assert b'.units == b.units && b'.reservations == b.reservations && b'.log == b.log;
  }

  lemma RegisterFacts(db: Db, p: nat, q: Request, apart: (Sku, Sku) -> bool)
    requires RequestInv(db, p, q, apart) && q.job.Registering?
    ensures RegisterInv(db, q) && q.writes.units == map[] && q.writes.reservations == map[]
  {
  }

  lemma RegisterWrites(db: Db, p: nat, q: Request)
    requires q.job.Registering? && q.job.binStaged && RegisterInv(db, q) && FirstVersions(db)
    requires forall u :: u in db.units ==> db.units[u].content.bin in db.bins
    ensures WritesAhead(db, q.writes) && FirstVersions(Commit(db, q.writes, Published(p, q.job)))
  {
  }

  lemma UnitsHaveBins(db: Db, gap: UnitId -> nat)
    requires Lawful(BooksOf(db), gap)
    ensures forall u :: u in db.units ==> db.units[u].content.bin in db.bins
  {
    assert forall u :: u in db.units ==> BooksOf(db).units[u].bin in BooksOf(db).bins;
  }

  lemma RegisterKeeps(s: System, p: nat, apart: (Sku, Sku) -> bool)
    requires Inv(s, apart) && p in s.requests && s.requests[p].job.Registering?
    ensures StepRegister(s, p).Some? ==> Inv(StepRegister(s, p).value, apart)
  {
    var q := s.requests[p];
    AbortKeeps(s, p, apart);
    if q.job.binStaged {
      RegisterFinishKeeps(s, p, apart);
    } else if StepRegister(s, p).Some? && StepRegister(s, p) != Some(Abort(s, p)) {
      var q' := StepRegister(s, p).value.requests[p];
      RegisterContinues(s, p, q', apart);
      ContinueKeeps(s, p, q'.job, q'.writes, apart);
    }
  }

  lemma RegisterFinishKeeps(s: System, p: nat, apart: (Sku, Sku) -> bool)
    requires Inv(s, apart) && p in s.requests && s.requests[p].job.Registering? && s.requests[p].job.binStaged
    ensures Inv(Finish(s, p), apart)
  {
    var q, s' := s.requests[p], Finish(s, p);
    var b, b' := BooksOf(s.db), BooksOf(s'.db);
    UnitsHaveBins(s.db, Gap(s.requests));
    RegisterFacts(s.db, p, q, apart);
    hide Lawful, RegisterInv, Segregated;
    RegisterCommits(s.db, p, q);
    RegisterWrites(s.db, p, q);
    EndLeavesGap(b, s.requests, p);
    BinSetLawful(b, q.job.binId, q.job.next, b', Gap(s'.requests));
    FinishKeeps(s, p, apart);
  }
}
