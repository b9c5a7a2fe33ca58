/** The steps of a reserve keep the system invariant: each saved draw widens the gap, the reservation closes it. */
module ReserveSteps {
  import opened Shared
  import opened Stock
  import opened Claims
  import opened Ledger
  import opened Transitions
  import opened Rows
  import opened Requests
  import opened Invariants
  import opened Safety

  /** The one row a draw writes, in a statement of its own. */
  function DrawWrite(u: UnitId, row: Row<UnitData>): Writes {
    Writes(map[u := row], map[], map[])
  }

  /** The draw is made on the unit exactly as it was read. */
  lemma DrawCommits(db: Db, q: Request, p: nat)
    requires q.job.Reserving? && ReserveInv(db, p, q) && q.job.saved < |q.job.data.allocations|
    requires var a := q.job.data.allocations[q.job.saved];
      && q.job.base[a.unit].content.Reserve(a.quantity).Ok?
      && Save(db.units, a.unit, q.job.base[a.unit].content.Reserve(a.quantity).value, q.job.base[a.unit].version).Ok?
    ensures var a := q.job.data.allocations[q.job.saved];
      && a.unit in db.units && db.units[a.unit] == q.job.base[a.unit]
      && var row := Row(db.units[a.unit].content.Reserve(a.quantity).value, db.units[a.unit].version + 1);
      && Save(db.units, a.unit, q.job.base[a.unit].content.Reserve(a.quantity).value, q.job.base[a.unit].version) == Ok(row)
      && Draws(BooksOf(db), a.unit, a.quantity, BooksOf(Commit(db, DrawWrite(a.unit, row), [])))
      && WritesAhead(db, DrawWrite(a.unit, row))
  {
    var a := q.job.data.allocations[q.job.saved];
    var row := Row(db.units[a.unit].content.Reserve(a.quantity).value, db.units[a.unit].version + 1);
    var b, b' := BooksOf(db), BooksOf(Commit(db, DrawWrite(a.unit, row), []));
    assert b'.units == b.units[a.unit := row.content];
    assert b'.bins == b.bins && b'.reservations == b.reservations && b'.log == b.log;
  }

  lemma DrawOwnInv(db: Db, p: nat, q: Request, row: Row<UnitData>)
    requires q.job.Reserving? && ReserveInv(db, p, q) && q.job.saved < |q.job.data.allocations| && !q.job.filed
    requires var u := q.job.data.allocations[q.job.saved].unit;
      && u in db.units && row.version > db.units[u].version
      && row.content.sku == db.units[u].content.sku && row.content.bin == db.units[u].content.bin
    ensures ReserveInv(Commit(db, DrawWrite(q.job.data.allocations[q.job.saved].unit, row), []), p,
                       Request(q.job.(saved := q.job.saved + 1), q.writes))
  {
    var w := DrawWrite(q.job.data.allocations[q.job.saved].unit, row);
    CommitAhead(db, w, []);
    ReserveStable(db, Commit(db, w, []), p, q);
  }

  lemma DrawLeavesFirstVersions(db: Db, u: UnitId, row: Row<UnitData>)
    requires FirstVersions(db) && u in db.units && row.content.bin == db.units[u].content.bin
    ensures FirstVersions(Commit(db, DrawWrite(u, row), []))
  {
  }

  lemma DrawOrderly(s: System, p: nat, u: UnitId, row: Row<UnitData>, q': Request, apart: (Sku, Sku) -> bool)
    requires Orderly(s, apart) && p in s.requests && UnitFree(s, p, u)
    requires u in s.db.units && WritesAhead(s.db, DrawWrite(u, row))
    requires q'.writes == s.requests[p].writes
    requires RequestInv(Commit(s.db, DrawWrite(u, row), []), p, q', apart)
    ensures Orderly(System(Commit(s.db, DrawWrite(u, row), []), s.requests[p := q'], s.next), apart)
  {
    hide RequestInv, FirstVersions;
    var db' := Commit(s.db, DrawWrite(u, row), []);
    DrawLeavesFirstVersions(s.db, u, row);
    forall i | i in s.requests && i != p ensures RequestInv(db', i, s.requests[i], apart) {
      CommitLeavesOther(s.db, DrawWrite(u, row), [], i, s.requests[i], apart);
    }
  }

  lemma DrawGap(requests: map<nat, Request>, p: nat, q: Request, q': Request, u: UnitId)
    requires p in requests && requests[p] == q && q.job.Reserving? && q.job.saved < |q.job.data.allocations|
    requires q' == Request(q.job.(saved := q.job.saved + 1), q.writes)
    ensures var a := q.job.data.allocations[q.job.saved];
      Gap(requests[p := q'])(u) == Gap(requests)(u) + if u == a.unit then a.quantity else 0
  {
    GapContinues(requests, p, q', u);
    var allocs, n := q.job.data.allocations, q.job.saved;
    assert allocs[..n + 1][..n] == allocs[..n];
  }

  lemma DrawBooks(s: System, p: nat, q': Request, row: Row<UnitData>, apart: (Sku, Sku) -> bool)
    requires Lawful(BooksOf(s.db), Gap(s.requests)) && Segregated(BooksOf(s.db).units, apart)
    requires p in s.requests && s.requests[p].job.Reserving? && s.requests[p].job.saved < |s.requests[p].job.data.allocations|
    requires q' == Request(s.requests[p].job.(saved := s.requests[p].job.saved + 1), s.requests[p].writes)
    requires var a := s.requests[p].job.data.allocations[s.requests[p].job.saved];
      Draws(BooksOf(s.db), a.unit, a.quantity, BooksOf(Commit(s.db, DrawWrite(a.unit, row), [])))
    ensures var a := s.requests[p].job.data.allocations[s.requests[p].job.saved];
      var b' := BooksOf(Commit(s.db, DrawWrite(a.unit, row), []));
      Lawful(b', Gap(s.requests[p := q'])) && Segregated(b'.units, apart)
  {
    hide Lawful;
    var a := s.requests[p].job.data.allocations[s.requests[p].job.saved];
    var b, b' := BooksOf(s.db), BooksOf(Commit(s.db, DrawWrite(a.unit, row), []));
    forall u ensures Gap(s.requests[p := q'])(u) == Gap(s.requests)(u) + if u == a.unit then a.quantity else 0 {
      DrawGap(s.requests, p, s.requests[p], q', u);
    }
    DrawnLawful(b, a.unit, a.quantity, b', Gap(s.requests), Gap(s.requests[p := q']));
    SegregatedStable(b.units, b'.units, apart);
  }

  lemma DrawKeeps(s: System, p: nat, apart: (Sku, Sku) -> bool)
    requires Inv(s, apart) && p in s.requests && s.requests[p].job.Reserving?
    requires s.requests[p].job.live && !s.requests[p].job.filed
    requires s.requests[p].job.saved < |s.requests[p].job.data.allocations|
    requires StepReserve(s, p).Some? && StepReserve(s, p) != Some(Abort(s, p))
    ensures Inv(StepReserve(s, p).value, apart)
  {
    hide Lawful, Segregated, Draws, WritesAhead, ReserveInv, Abort;
    var q := s.requests[p];
    assert ReserveInv(s.db, p, q) by { assert RequestInv(s.db, p, q, apart); }
    var a := q.job.data.allocations[q.job.saved];
    DrawCommits(s.db, q, p);
    var row := Row(s.db.units[a.unit].content.Reserve(a.quantity).value, s.db.units[a.unit].version + 1);
    var q' := Request(q.job.(saved := q.job.saved + 1), q.writes);
    DrawOwnInv(s.db, p, q, row);
    DrawOrderly(s, p, a.unit, row, q', apart);
    DrawBooks(s, p, q', row, apart);
    assert StepReserve(s, p) == Some(System(Commit(s.db, DrawWrite(a.unit, row), []), s.requests[p := q'], s.next));
  }

  lemma RecordContinues(s: System, p: nat, q': Request, apart: (Sku, Sku) -> bool)
    requires Orderly(s, apart) && p in s.requests && s.requests[p].job.Reserving?
    requires var job := s.requests[p].job; job.live && !job.filed && job.saved == |job.data.allocations|
    requires StepReserve(s, p) == Some(Continue(s, p, q'.job, q'.writes)) && StepReserve(s, p) != Some(Abort(s, p))
    ensures q'.job == s.requests[p].job.(filed := true) && ReserveInv(s.db, p, q') && ApartFromOthers(s, p, q'.writes)
  {
    var q := s.requests[p];
    assert ReserveInv(s.db, p, q) by { assert RequestInv(s.db, p, q, apart); }
    assert Continue(s, p, q'.job, q'.writes).requests[p] == q';
    assert s.db.reservations + q.writes.reservations == s.db.reservations;
    assert q'.writes.reservations == map[p := Row(q.job.data, 1)];
    forall i | i in s.requests && i != p
      ensures Apart(q'.writes, s.requests[i].writes) && Apart(s.requests[i].writes, q'.writes)
    {
      assert p !in s.requests[i].writes.reservations;
    }
  }

  lemma ContentsDrawn(allocs: seq<Allocation>, units: Table<UnitId, UnitData>, sku: Sku)
    requires DrawsOnRows(allocs, units, sku)
    ensures DrawsOn(allocs, Contents(units), sku)
  {
  }

  lemma RecordCommits(db: Db, p: nat, q: Request)
    requires q.job.Reserving? && q.job.filed && ReserveInv(db, p, q)
    ensures Records(BooksOf(db), p, q.job.data, BooksOf(Commit(db, q.writes, Published(p, q.job))))
  {
    ContentsDrawn(q.job.data.allocations, db.units, q.job.data.sku);
    hide Contents;
    ContentsRead(db.units, map[]);
    ContentsRead(db.bins, map[]);
    ContentsRead(db.reservations, map[]);
    ContentsWritten(db.reservations, p, Row(q.job.data, 1));
  }

  lemma RecordWrites(db: Db, p: nat, q: Request)
    requires q.job.Reserving? && q.writes == Writes(map[], map[], map[p := Row(q.job.data, 1)]) && p !in db.reservations
    requires FirstVersions(db)
    ensures WritesAhead(db, q.writes) && FirstVersions(Commit(db, q.writes, Published(p, q.job)))
  {
    assert db.bins + q.writes.bins == db.bins && db.units + q.writes.units == db.units;
  }

  lemma RecordedUnits(b: Books, r: ResId, data: ResData, b': Books)
    requires Records(b, r, data, b')
    ensures b'.units == b.units
  {
  }

  lemma RecordBooks(s: System, p: nat, apart: (Sku, Sku) -> bool)
    requires Lawful(BooksOf(s.db), Gap(s.requests)) && Segregated(BooksOf(s.db).units, apart)
    requires p in s.requests && s.requests[p].job.Reserving?
    requires s.requests[p].job.saved == |s.requests[p].job.data.allocations|
    requires Records(BooksOf(s.db), p, s.requests[p].job.data, BooksOf(Finish(s, p).db))
    ensures Lawful(BooksOf(Finish(s, p).db), Gap(s.requests - {p})) && Segregated(BooksOf(Finish(s, p).db).units, apart)
  {
    hide Lawful, Segregated;
    var data := s.requests[p].job.data;
    RecordedUnits(BooksOf(s.db), p, data, BooksOf(Finish(s, p).db));
    forall u ensures Gap(s.requests)(u) == Gap(s.requests - {p})(u) + DrawnOn(data.allocations, u) {
      GapEnds(s.requests, p, u);
      assert data.allocations[..|data.allocations|] == data.allocations;
    }
    RecordedLawful(BooksOf(s.db), p, data, BooksOf(Finish(s, p).db), Gap(s.requests), Gap(s.requests - {p}));
  }

  lemma RecordFacts(db: Db, p: nat, q: Request, apart: (Sku, Sku) -> bool)
    requires RequestInv(db, p, q, apart) && q.job.Reserving? && q.job.filed
    ensures ReserveInv(db, p, q) && q.job.saved == |q.job.data.allocations| && p !in db.reservations
    ensures q.writes == Writes(map[], map[], map[p := Row(q.job.data, 1)])
  {
  }

  lemma RecordFinishKeeps(s: System, p: nat, apart: (Sku, Sku) -> bool)
    requires Inv(s, apart) && p in s.requests && s.requests[p].job.Reserving? && s.requests[p].job.filed
    ensures Inv(Finish(s, p), apart)
  {
    var q := s.requests[p];
    RecordFacts(s.db, p, q, apart);
    hide Lawful, ReserveInv, Records, Segregated, FirstVersions, WritesAhead;
    RecordCommits(s.db, p, q);
    RecordBooks(s, p, apart);
    RecordWrites(s.db, p, q);
    FinishKeeps(s, p, apart);
  }

  lemma ReserveKeeps(s: System, p: nat, apart: (Sku, Sku) -> bool)
    requires Inv(s, apart) && p in s.requests && s.requests[p].job.Reserving?
    ensures StepReserve(s, p).Some? ==> Inv(StepReserve(s, p).value, apart)
  {
    var q := s.requests[p];
    AbortKeeps(s, p, apart);
    if StepReserve(s, p).Some? && StepReserve(s, p) != Some(Abort(s, p)) {
      if q.job.filed {
        RecordFinishKeeps(s, p, apart);
      } else if q.job.saved == |q.job.data.allocations| {
        var q' := StepReserve(s, p).value.requests[p];
        RecordContinues(s, p, q', apart);
        ContinueKeeps(s, p, q'.job, q'.writes, apart);
      } else {
        DrawKeeps(s, p, apart);
      }
    }
  }
}
