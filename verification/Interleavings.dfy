/**
 What holds in every interleaving: over any run of any number of requests, failures and crashes included, each
 with transactions of its own.
 */
module Interleavings {
  import opened Shared
  import opened Stock
  import opened Claims
  import opened Ledger
  import opened Transitions
  import opened Evolution
  import opened Rows
  import opened Requests
  import opened Invariants
  import opened Safety
  import opened StowSteps
  import opened ReserveSteps
  import opened CountSteps
  import opened Resolutions
  import opened Beginnings

  /** Every step keeps the invariant. */
  lemma StepKeepsInv(s: System, s': System, apart: (Sku, Sku) -> bool)
    requires Inv(s, apart) && Symmetric(apart) && Step(s, s', apart)
    ensures Inv(s', apart)
  {
    var a: Action :| Act(s, a, apart) == Some(s');
    ActKeepsInv(s, a, apart);
  }

  lemma ActKeepsInv(s: System, a: Action, apart: (Sku, Sku) -> bool)
    requires Inv(s, apart) && Symmetric(apart) && Act(s, a, apart).Some?
    ensures Inv(Act(s, a, apart).value, apart)
  {
    hide Inv, StepStow, StepReserve, StepResolve, StepCount, StepRegister, StartReserve, StartRegister, Abort;
    match a {
      case Fail(p) => AbortKeeps(s, p, apart);
      case Advance(p) =>
        match s.requests[p].job {
          case Stowing(_, _, _) => StowKeeps(s, p, apart);
          case Reserving(_, _, _, _, _) => ReserveKeeps(s, p, apart);
          case Resolving(_, _, _, _, _, _) => ResolveKeeps(s, p, apart);
          case Counting(_, _, _, _) => CountKeeps(s, p, apart);
          case Registering(_, _, _, _) => RegisterKeeps(s, p, apart);
        }
      case _ => BeginningKeeps(s, a, apart);
    }
  }

  lemma EmptyIsSound(apart: (Sku, Sku) -> bool)
    ensures Inv(EMPTY, apart)
  {
    var b := BooksOf(EMPTY.db);
    assert b == Books(map[], map[], map[], []);
    assert forall sku :: SkuAudited(b, sku) && SkuCounted(b, sku);
  }

  /** The invariant holds in every state of every run. */
  lemma {:induction false} RunKeepsInv(trace: seq<System>, apart: (Sku, Sku) -> bool, i: nat)
    requires Run(trace, apart) && Symmetric(apart) && i < |trace|
    ensures Inv(trace[i], apart)
  {
    if i == 0 {
      EmptyIsSound(apart);
    } else {
      hide Inv, Step;
      RunKeepsInv(trace, apart, i - 1);
      assert Step(trace[i - 1], trace[i - 1 + 1], apart);
      StepKeepsInv(trace[i - 1], trace[i], apart);
    }
  }

  // ---- every step is one legal change of the books

  ghost predicate StepsOn(s: System, s': System) {
    Evolves(BooksOf(s.db), BooksOf(s'.db)) && VersionsStep(s.db, s'.db)
  }

  /** A row stays as it is, or is replaced by other content at the next version. */
  ghost predicate OneOn<K, V>(t: Table<K, V>, t': Table<K, V>, k: K)
    requires k in t
  {
    k in t' && (t'[k] == t[k] || (t'[k].version == t[k].version + 1 && t'[k].content != t[k].content))
  }

  /** The step confirms this reservation. */
  ghost predicate Confirmed(t: Table<ResId, ResData>, t': Table<ResId, ResData>, r: ResId) {
    r in t && r in t' && t[r].content.status == ACTIVE && t'[r].content.status == CONFIRMED
  }

  /**
   A bin row moves on by the saves of one transaction: one for each allocation in it when a reservation is confirmed,
   otherwise one or none.
   */
  ghost predicate BinOn(db: Db, db': Db, k: BinId)
    requires k in db.bins
  {
    && Seen(db'.bins, k, db.bins[k])
    && (forall r :: Confirmed(db.reservations, db'.reservations, r) ==>
          db'.bins[k].version == db.bins[k].version + SavesOf(db.reservations[r].content.allocations, k))
    && ((forall r :: !Confirmed(db.reservations, db'.reservations, r)) ==> db'.bins[k].version <= db.bins[k].version + 1)
  }

  /** Rows keep their version and content, or move on by one save; bins by the saves of one transaction. */
  ghost predicate VersionsStep(db: Db, db': Db) {
    && (forall u :: u in db.units ==> OneOn(db.units, db'.units, u))
    && (forall r :: r in db.reservations ==> OneOn(db.reservations, db'.reservations, r))
    && (forall k :: k in db.bins ==> BinOn(db, db', k))
    && (forall u :: u in db'.units && u !in db.units ==> db'.units[u].version == 1)
    && (forall r :: r in db'.reservations && r !in db.reservations ==> db'.reservations[r].version == 1)
    && (forall k :: k in db'.bins && k !in db.bins ==> db'.bins[k].version == 1)
  }

  ghost predicate NextOf<V>(row: Row<V>, row': Row<V>) {
    row'.version == row.version + 1 && row'.content != row.content
  }

  ghost predicate WritesByOne(db: Db, w: Writes) {
    && (forall u :: u in w.units ==> if u in db.units then NextOf(db.units[u], w.units[u]) else w.units[u].version == 1)
    && (forall r :: r in w.reservations ==>
          if r in db.reservations then NextOf(db.reservations[r], w.reservations[r]) else w.reservations[r].version == 1)
    && (forall k :: k in w.bins && k !in db.bins ==> w.bins[k].version == 1)
    && (forall k :: k in db.bins ==> BinOn(db, Commit(db, w, []), k))
  }

  lemma CommitSteps(db: Db, w: Writes, events: seq<Event>)
    requires WritesByOne(db, w)
    ensures VersionsStep(db, Commit(db, w, events))
  {
  }

  lemma StowWritesByOne(db: Db, p: nat, q: Request, apart: (Sku, Sku) -> bool)
    requires q.job.Stowing? && q.job.stage == UnitSaved && StowInv(db, p, q, apart)
    ensures WritesByOne(db, q.writes)
  {
  }

  lemma CountWritesByOne(db: Db, q: Request)
    requires q.job.Counting? && CountInv(db, q)
    ensures WritesByOne(db, q.writes)
  {
    hide CountInv;
    FlaggedExactly(db, q);
  }

  lemma ResolveWritesByOne(db: Db, p: nat, q: Request)
    requires q.job.Resolving? && q.job.recorded && ResolveInv(db, q)
    ensures WritesByOne(db, q.writes)
  {
    hide ResolveInv, UnitsStaged, BinsStaged, DistinctUnits, BinsSettled, BinOn, Commit, BooksOf;
    AllStaged(db, q);
    StillActive(db, q);
    CommitSettlesBins(db, p, q);
    AllPositive(db, q);
    forall u | u in q.writes.units ensures u in db.units && NextOf(db.units[u], q.writes.units[u]) {
      StagedByOne(db, q.writes.units, q.job.row.content.allocations, q.job.to, u);
    }
    forall k | k in db.bins ensures BinOn(db, Commit(db, q.writes, []), k) {
      ResolveMovesBin(db, q, k);
    }
  }

  /** A confirmation saves a bin once for each of its allocations there; an expiry or revocation saves none. */
  lemma ResolveMovesBin(db: Db, q: Request, k: BinId)
    requires q.job.Resolving? && q.job.recorded && ResolveInv(db, q) && k in db.bins
    ensures BinOn(db, Commit(db, q.writes, []), k)
  {
    hide ResolveInv, UnitsStaged, BinsStaged, DistinctUnits, DrawnFrom, SavesOf;
    AllStaged(db, q);
    StillActive(db, q);
    var db', allocs := Commit(db, q.writes, []), q.job.row.content.allocations;
    assert db'.reservations[q.job.res].content.status == q.job.to;
    if q.job.to == CONFIRMED {
      BinStagedExactly(db, q.writes.bins, allocs, k);
      assert Confirmed(db.reservations, db'.reservations, q.job.res);
      assert db'.bins[k].version == db.bins[k].version + SavesOf(allocs, k);
    } else {
      assert db'.bins == db.bins;
    }
  }

  lemma AllPositive(db: Db, q: Request)
    requires q.job.Resolving? && ResolveInv(db, q)
    ensures forall i :: 0 <= i < |q.job.row.content.allocations| ==> q.job.row.content.allocations[i].quantity > 0
    ensures q.job.to != ACTIVE
  {
    hide UnitsStaged, BinsStaged;
  }

  lemma StagedByOne(db: Db, staged: Table<UnitId, UnitData>, allocs: seq<Allocation>, to: Status, u: UnitId)
    requires UnitsStaged(db, staged, allocs, |allocs|, to) && u in staged
    requires forall i :: 0 <= i < |allocs| ==> allocs[i].quantity > 0
    ensures u in db.units && NextOf(db.units[u], staged[u])
  {
    var i :| 0 <= i < |allocs| && allocs[i].unit == u;
  }

  lemma RegisterWritesByOne(db: Db, q: Request)
    requires q.job.Registering? && q.job.binStaged && RegisterInv(db, q)
    ensures WritesByOne(db, q.writes)
  {
  }

  /** A request's commit is one legal change of the books. */
  ghost predicate CommitsOne(db: Db, p: nat, q: Request) {
    var db' := Commit(db, q.writes, Published(p, q.job));
    Evolves(BooksOf(db), BooksOf(db')) && VersionsStep(db, db')
  }

  lemma ChangeCommitsOne(db: Db, p: nat, q: Request, c: Change)
    requires Changes(BooksOf(db), c, BooksOf(Commit(db, q.writes, Published(p, q.job)))) && WritesByOne(db, q.writes)
    ensures CommitsOne(db, p, q)
  {
    hide Changes, VersionsStep, WritesByOne, BooksOf;
    CommitSteps(db, q.writes, Published(p, q.job));
  }

  lemma StowAdvances(s: System, p: nat, apart: (Sku, Sku) -> bool)
    requires p in s.requests && s.requests[p].job.Stowing? && StowInv(s.db, p, s.requests[p], apart)
    requires StepStow(s, p, apart).Some?
    ensures StepsOn(s, StepStow(s, p, apart).value)
  {
    hide StowInv, Stows, StepsOn, CommitsOne, BooksOf, WritesByOne, Commit;
    var q := s.requests[p];
    if q.job.stage == UnitSaved {
      StowCommits(s.db, p, q, apart);
      StowWritesByOne(s.db, p, q, apart);
      ChangeCommitsOne(s.db, p, q, Stow(p, q.job.unit));
      FinishSteps(s, p);
    } else {
      SameDbSteps(s, StepStow(s, p, apart).value);
    }
  }

  lemma FinishSteps(s: System, p: nat)
    requires p in s.requests && CommitsOne(s.db, p, s.requests[p])
    ensures StepsOn(s, Finish(s, p))
  {
    hide BooksOf, Evolves, VersionsStep;
  }

  lemma CountAdvances(s: System, p: nat)
    requires p in s.requests && s.requests[p].job.Counting? && CountInv(s.db, s.requests[p])
    requires s.requests[p].job.staged <= |s.requests[p].job.lost.items| && StepCount(s, p).Some?
    ensures StepsOn(s, StepCount(s, p).value)
  {
    hide CountInv, Flags, StepsOn, CommitsOne, BooksOf, WritesByOne, Commit;
    var q := s.requests[p];
    if q.job.staged == |q.job.lost.items| {
      CountCommits(s.db, p, q);
      CountWritesByOne(s.db, q);
      ChangeCommitsOne(s.db, p, q, Flag(q.writes.units.Keys, q.job.events.items));
      FinishSteps(s, p);
    } else {
      SameDbSteps(s, StepCount(s, p).value);
    }
  }

  lemma RegisterAdvances(s: System, p: nat)
    requires p in s.requests && s.requests[p].job.Registering? && RegisterInv(s.db, s.requests[p])
    requires StepRegister(s, p).Some?
    ensures StepsOn(s, StepRegister(s, p).value)
  {
    hide RegisterInv, SetsBin, StepsOn, CommitsOne, BooksOf, WritesByOne, Commit;
    var q := s.requests[p];
    if q.job.binStaged {
      RegisterCommits(s.db, p, q);
      RegisterWritesByOne(s.db, q);
      ChangeCommitsOne(s.db, p, q, SetBin(q.job.binId, q.job.next));
      FinishSteps(s, p);
    } else {
      SameDbSteps(s, StepRegister(s, p).value);
    }
  }

  lemma ResolveAdvances(s: System, p: nat)
    requires p in s.requests && s.requests[p].job.Resolving? && ResolveInv(s.db, s.requests[p])
    requires StepResolve(s, p).Some?
    ensures StepsOn(s, StepResolve(s, p).value)
  {
    hide ResolveInv, Resolves, StepsOn, CommitsOne, BooksOf, WritesByOne, Commit;
    var q := s.requests[p];
    if q.job.recorded {
      ResolveCommits(s.db, p, q);
      ResolveWritesByOne(s.db, p, q);
      ChangeCommitsOne(s.db, p, q, Resolution(q.job.res, q.job.to));
      FinishSteps(s, p);
    } else {
      SameDbSteps(s, StepResolve(s, p).value);
    }
  }

  lemma ReserveAdvances(s: System, p: nat, apart: (Sku, Sku) -> bool)
    requires p in s.requests && s.requests[p].job.Reserving? && RequestInv(s.db, p, s.requests[p], apart)
    requires StepReserve(s, p).Some?
    ensures StepsOn(s, StepReserve(s, p).value)
  {
    var q := s.requests[p];
    var data := q.job.data;
    if q.job.live && q.job.filed {
      RecordFacts(s.db, p, q, apart);
      hide ReserveInv, RequestInv, Records, StepsOn, CommitsOne, BooksOf, WritesByOne, Commit;
      RecordCommits(s.db, p, q);
      RecordWritesByOne(s.db, p, q.writes, data);
      ChangeCommitsOne(s.db, p, q, Record(p, data));
      FinishSteps(s, p);
    } else if q.job.live && q.job.saved < |data.allocations| && StepReserve(s, p) != Some(Abort(s, p)) {
      DrawEvolves(s, p);
    } else {
      hide ReserveInv, RequestInv, StepsOn;
      SameDbSteps(s, StepReserve(s, p).value);
    }
  }

  lemma RecordWritesByOne(db: Db, p: nat, w: Writes, data: ResData)
    requires w == Writes(map[], map[], map[p := Row(data, 1)]) && p !in db.reservations
    ensures WritesByOne(db, w)
  {
  }

  lemma DrawEvolves(s: System, p: nat)
    requires p in s.requests && s.requests[p].job.Reserving? && ReserveInv(s.db, p, s.requests[p])
    requires s.requests[p].job.live && !s.requests[p].job.filed
    requires s.requests[p].job.saved < |s.requests[p].job.data.allocations|
    requires StepReserve(s, p).Some? && StepReserve(s, p) != Some(Abort(s, p))
    ensures StepsOn(s, StepReserve(s, p).value)
  {
    hide ReserveInv, Draws, VersionsStep, Abort, BooksOf, Commit, StepsOn;
    var q := s.requests[p];
    var a := q.job.data.allocations[q.job.saved];
    DrawCommits(s.db, q, p);
    var row := Row(s.db.units[a.unit].content.Reserve(a.quantity).value, s.db.units[a.unit].version + 1);
    assert Changes(BooksOf(s.db), Draw(a.unit, a.quantity), BooksOf(Commit(s.db, DrawWrite(a.unit, row), [])));
    NoBinsMoved(s.db, DrawWrite(a.unit, row));
    CommitSteps(s.db, DrawWrite(a.unit, row), []);
    DbSteps(s, StepReserve(s, p).value, Draw(a.unit, a.quantity));
  }

  lemma NoBinsMoved(db: Db, w: Writes)
    requires w.bins == map[] && w.reservations == map[]
    ensures forall k :: k in db.bins ==> BinOn(db, Commit(db, w, []), k)
  {
  }

  lemma DbSteps(s: System, s': System, c: Change)
    requires Changes(BooksOf(s.db), c, BooksOf(s'.db)) && VersionsStep(s.db, s'.db)
    ensures StepsOn(s, s')
  {
    hide Changes, VersionsStep, BooksOf;
  }

  lemma SameDbSteps(s: System, s': System)
    requires s'.db == s.db
    ensures StepsOn(s, s')
  {
    hide Unmoved, SamePlaces, Draws, Records, Resolves, Flags, Stows, SetsBin;
    assert Changes(BooksOf(s.db), NoChange, BooksOf(s'.db));
  }

  lemma AdvanceEvolves(s: System, p: nat, apart: (Sku, Sku) -> bool)
    requires p in s.requests && RequestInv(s.db, p, s.requests[p], apart) && Act(s, Advance(p), apart).Some?
    ensures StepsOn(s, Act(s, Advance(p), apart).value)
  {
    hide StowInv, ResolveInv, RegisterInv, StepsOn, StepStow, StepReserve, StepResolve, StepCount, StepRegister;
    match s.requests[p].job
    case Stowing(_, _, _) => StowAdvances(s, p, apart);
    case Reserving(_, _, _, _, _) => ReserveAdvances(s, p, apart);
    case Resolving(_, _, _, _, _, _) => ResolveAdvances(s, p);
    case Counting(_, _, _, _) => CountAdvances(s, p);
    case Registering(_, _, _, _) => RegisterAdvances(s, p);
  }

  lemma RequestOf(s: System, p: nat, apart: (Sku, Sku) -> bool)
    requires Inv(s, apart) && p in s.requests
    ensures RequestInv(s.db, p, s.requests[p], apart)
  {
    hide RequestInv, Lawful;
  }

  /** Every step of every request is one legal change of the books, one version on. */
  lemma StepEvolves(s: System, s': System, apart: (Sku, Sku) -> bool)
    requires Inv(s, apart) && Symmetric(apart) && Step(s, s', apart)
    ensures Evolves(BooksOf(s.db), BooksOf(s'.db)) && VersionsStep(s.db, s'.db)
  {
    hide Inv, StepStow, StepReserve, StepResolve, StepCount, StepRegister, StartReserve, StartRegister, Evolves, VersionsStep,
      RequestInv;
    var a: Action :| Act(s, a, apart) == Some(s');
    match a {
      case Fail(p) => SameDbSteps(s, s');
      case Advance(p) =>
        RequestOf(s, p, apart);
        AdvanceEvolves(s, p, apart);
      case _ =>
        BeginningKeeps(s, a, apart);
        SameDbSteps(s, s');
    }
  }
}
