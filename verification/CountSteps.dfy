/** The steps of a cycle count keep the system invariant. */
module CountSteps {
  import opened Shared
  import opened Stock
  import opened Claims
  import opened Ledger
  import opened Transitions
  import opened Rows
  import opened Requests
  import opened Invariants
  import opened Safety
  import opened StowSteps

  lemma CountContinues(s: System, p: nat, q': Request, apart: (Sku, Sku) -> bool)
    requires Orderly(s, apart)
    requires p in s.requests && s.requests[p].job.Counting? && s.requests[p].job.staged < |s.requests[p].job.lost.items|
    requires StepCount(s, p) == Some(Continue(s, p, q'.job, q'.writes)) && StepCount(s, p) != Some(Abort(s, p))
    ensures q'.job.Counting? && CountInv(s.db, q') && ApartFromOthers(s, p, q'.writes)
  {
    var q := s.requests[p];
    assert CountInv(s.db, q) by { assert RequestInv(s.db, p, q, apart); }
    assert Continue(s, p, q'.job, q'.writes).requests[p] == q';
    NextUnflagged(s.db, q);
    hide CountInv, RequestsInv, FirstVersions, Numbered;
    var u := q.job.lost.items[q.job.staged].unit;
    StageUnit(s, p, q.writes, u, q'.writes.units[u]);
    FlagStaged(s.db, q, q');
  }

  lemma NextUnflagged(db: Db, q: Request)
    requires q.job.Counting? && CountInv(db, q) && q.job.staged < |q.job.lost.items|
    ensures var u := q.job.lost.items[q.job.staged].unit;
      u !in q.writes.units && u in q.job.read && Seen(db.units, u, q.job.read[u])
  {
  }

  /** One flag more is staged, from the row as it still is. */
  lemma FlagStaged(db: Db, q: Request, q': Request)
    requires q.job.Counting? && CountInv(db, q) && q.job.staged < |q.job.lost.items|
    requires var u, read := q.job.lost.items[q.job.staged].unit, q.job.read;
      && u in read && u in db.units && db.units[u] == read[u]
      && q' == Request(q.job.(staged := q.job.staged + 1),
                       q.writes.(units := q.writes.units[u := Row(read[u].content.MarkUnlocated(), read[u].version + 1)]))
    ensures CountInv(db, q')
  {
    var n, lost := q.job.staged, q.job.lost.items;
    AmongOneMore(q.writes.units, lost, n, q'.writes.units[lost[n].unit]);
    hide Among, Quiet, Seen;
    assert forall i :: 0 <= i < n ==> lost[i].unit != lost[n].unit;
  }

  lemma AmongOneMore(staged: Table<UnitId, UnitData>, lost: seq<Allocation>, n: nat, row: Row<UnitData>)
    requires n < |lost| && Among(staged, lost, n)
    ensures Among(staged[lost[n].unit := row], lost, n + 1)
  {
    var u, more := lost[n].unit, staged[lost[n].unit := row];
    forall x | x in more ensures exists i :: 0 <= i < n + 1 && lost[i].unit == x {
      if x != u {
        var i :| 0 <= i < n && lost[i].unit == x;
        assert i < n + 1;
      }
    }
  }

  /** The count commits exactly the flags it decided on, on units that are still as they were counted. */
  lemma CountCommits(db: Db, p: nat, q: Request)
    requires q.job.Counting? && q.job.staged == |q.job.lost.items| && CountInv(db, q)
    ensures Flags(BooksOf(db), q.writes.units.Keys, BooksOf(Commit(db, q.writes, Published(p, q.job))), q.job.events.items)
  {
    hide CountInv, Contents;
    FlaggedExactly(db, q);
    CountEvents(db, q);
    ContentsRead(db.units, q.writes.units);
    ContentsRead(db.bins, map[]);
    ContentsRead(db.reservations, map[]);
    hide Commit;
  }

  lemma CountWrites(db: Db, p: nat, q: Request)
    requires q.job.Counting? && q.job.staged == |q.job.lost.items| && CountInv(db, q) && FirstVersions(db)
    ensures WritesAhead(db, q.writes) && q.writes.units.Keys <= db.units.Keys
    ensures FirstVersions(Commit(db, q.writes, Published(p, q.job)))
  {
    FlaggedExactly(db, q);
    hide CountInv;
  }

  /** Each staged row flags a unit that is still locatable, from the row as it still is. */
  lemma FlaggedExactly(db: Db, q: Request)
    requires q.job.Counting? && CountInv(db, q)
    ensures q.writes.bins == map[] && q.writes.reservations == map[]
    ensures forall u :: u in q.writes.units ==>
      && u in db.units && db.units[u].content.Locatable()
      && q.writes.units[u] == Row(db.units[u].content.MarkUnlocated(), db.units[u].version + 1)
  {
    forall u | u in q.writes.units
      ensures u in db.units && db.units[u].content.Locatable()
      ensures q.writes.units[u] == Row(db.units[u].content.MarkUnlocated(), db.units[u].version + 1)
    {
      var i :| 0 <= i < q.job.staged && q.job.lost.items[i].unit == u;
    }
  }

  lemma CountEvents(db: Db, q: Request)
    requires q.job.Counting? && CountInv(db, q)
    ensures forall i :: 0 <= i < |q.job.events.items| ==> Quiet(q.job.events.items[i])
  {
  }

  lemma CountFacts(db: Db, p: nat, q: Request, apart: (Sku, Sku) -> bool)
    requires RequestInv(db, p, q, apart) && q.job.Counting?
    ensures CountInv(db, q) && q.job.staged <= |q.job.lost.items| && q.writes.reservations == map[]
  {
  }

  lemma FlaggedInPlace(b: Books, lost: set<UnitId>, b': Books, events: seq<Event>)
    requires Flags(b, lost, b', events)
    ensures b'.units.Keys == b.units.Keys && SamePlaces(b.units, b'.units)
  {
  }

  lemma CountKeeps(s: System, p: nat, apart: (Sku, Sku) -> bool)
    requires Inv(s, apart) && p in s.requests && s.requests[p].job.Counting?
    ensures StepCount(s, p).Some? ==> Inv(StepCount(s, p).value, apart)
  {
    var q := s.requests[p];
    AbortKeeps(s, p, apart);
    if q.job.staged >= |q.job.lost.items| {
      CountFinishKeeps(s, p, apart);
    } else if StepCount(s, p).Some? && StepCount(s, p) != Some(Abort(s, p)) {
      var q' := StepCount(s, p).value.requests[p];
      CountContinues(s, p, q', apart);
      ContinueKeeps(s, p, q'.job, q'.writes, apart);
    }
  }

  lemma CountFinishKeeps(s: System, p: nat, apart: (Sku, Sku) -> bool)
    requires Inv(s, apart)
    requires p in s.requests && s.requests[p].job.Counting? && s.requests[p].job.staged >= |s.requests[p].job.lost.items|
    ensures Inv(Finish(s, p), apart)
  {
    var q, s' := s.requests[p], Finish(s, p);
    var b, b' := BooksOf(s.db), BooksOf(s'.db);
    CountFacts(s.db, p, q, apart);
    hide Lawful, CountInv, Flags, Segregated;
    CountCommits(s.db, p, q);
    CountWrites(s.db, p, q);
    FlaggedInPlace(b, q.writes.units.Keys, b', q.job.events.items);
    EndLeavesGap(b, s.requests, p);
    FlaggedLawful(b, q.writes.units.Keys, b', q.job.events.items, Gap(s'.requests));
    SegregatedStable(b.units, b'.units, apart);
    FinishKeeps(s, p, apart);
  }
}
