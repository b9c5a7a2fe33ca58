/** Every statement of every request keeps the system invariant. */
module Safety {
  import opened Shared
  import opened Sums
  import opened Ledger
  import opened Requests
  import opened Invariants

  // ---- the gap

  lemma LawfulForGap(b: Books, gap: UnitId -> nat, gap': UnitId -> nat)
    requires Lawful(b, gap) && forall u :: gap'(u) == gap(u)
    ensures Lawful(b, gap')
  {
  }

  /** Replacing one request changes the gap by the difference of what the two have drawn. */
  lemma GapContinues(requests: map<nat, Request>, p: nat, q: Request, u: UnitId)
    ensures Drawn(requests[p := q], u) ==
            Drawn(requests, u) + DrawTerm(u)(q) - (if p in requests then DrawTerm(u)(requests[p]) else 0)
  {
    SumUpdate(requests, p, q, DrawTerm(u));
  }

  lemma GapEnds(requests: map<nat, Request>, p: nat, u: UnitId)
    requires p in requests
    ensures Drawn(requests - {p}, u) == Drawn(requests, u) - DrawTerm(u)(requests[p])
  {
    SumRemove(requests, p, DrawTerm(u));
  }

  /** A request that draws nothing leaves the gap as it is when it ends. */
  lemma EndLeavesGap(b: Books, requests: map<nat, Request>, p: nat)
    requires Lawful(b, Gap(requests)) && p in requests && !requests[p].job.Reserving?
    ensures Lawful(b, Gap(requests - {p}))
    ensures forall u :: Gap(requests - {p})(u) == Gap(requests)(u)
  {
    hide Lawful;
    forall u ensures Gap(requests - {p})(u) == Gap(requests)(u) {
      GapEnds(requests, p, u);
    }
    LawfulForGap(b, Gap(requests), Gap(requests - {p}));
  }

  // ---- steps that leave the database as it is

  /** No other request has staged what these writes stage. */
  ghost predicate ApartFromOthers(s: System, p: nat, w: Writes) {
    forall q :: q in s.requests && q != p ==> Apart(w, s.requests[q].writes) && Apart(s.requests[q].writes, w)
  }

  lemma ContinueOrderly(s: System, p: nat, q: Request, apart: (Sku, Sku) -> bool)
    requires Orderly(s, apart) && p < s.next
    requires RequestInv(s.db, p, q, apart) && ApartFromOthers(s, p, q.writes)
    ensures Orderly(s.(requests := s.requests[p := q]), apart)
  {
    var s' := s.(requests := s.requests[p := q]);
    forall i | i in s'.requests ensures RequestInv(s'.db, i, s'.requests[i], apart) {
      assert i != p ==> RequestInv(s.db, i, s.requests[i], apart);
    }
  }

  lemma ContinueKeeps(s: System, p: nat, job: Job, w: Writes, apart: (Sku, Sku) -> bool)
    requires Inv(s, apart) && p in s.requests
    requires RequestInv(s.db, p, Request(job, w), apart) && ApartFromOthers(s, p, w)
    requires forall u :: DrawTerm(u)(Request(job, w)) == DrawTerm(u)(s.requests[p])
    ensures Inv(Continue(s, p, job, w), apart)
  {
    ContinueOrderly(s, p, Request(job, w), apart);
    var s' := Continue(s, p, job, w);
    forall u ensures Gap(s'.requests)(u) == Gap(s.requests)(u) {
      GapContinues(s.requests, p, Request(job, w), u);
    }
    LawfulForGap(BooksOf(s.db), Gap(s.requests), Gap(s'.requests));
  }

  lemma BeginKeeps(s: System, job: Job, apart: (Sku, Sku) -> bool)
    requires Inv(s, apart)
    requires RequestInv(s.db, s.next, Request(job, NOTHING), apart)
    requires forall u :: DrawTerm(u)(Request(job, NOTHING)) == 0
    ensures Inv(Begin(s, job), apart)
  {
    assert Orderly(s.(next := s.next + 1), apart);
    ContinueOrderly(s.(next := s.next + 1), s.next, Request(job, NOTHING), apart);
    var s' := Begin(s, job);
    forall u ensures Gap(s'.requests)(u) == Gap(s.requests)(u) {
      GapContinues(s.requests, s.next, Request(job, NOTHING), u);
    }
    LawfulForGap(BooksOf(s.db), Gap(s.requests), Gap(s'.requests));
  }

  lemma AbortKeeps(s: System, p: nat, apart: (Sku, Sku) -> bool)
    requires Inv(s, apart) && p in s.requests
    ensures Inv(Abort(s, p), apart)
  {
    var q := s.requests[p];
    assert RequestInv(s.db, p, q, apart);
    if q.job.Reserving? {
      ContinueKeeps(s, p, q.job.(live := false, filed := false), NOTHING, apart);
    } else {
      var s' := Abort(s, p);
      assert Orderly(s', apart);
      forall u ensures Gap(s'.requests)(u) == Gap(s.requests)(u) {
        GapEnds(s.requests, p, u);
      }
      LawfulForGap(BooksOf(s.db), Gap(s.requests), Gap(s'.requests));
    }
  }

  // ---- steps that change the database

  /** Each written row moves its version on, units stay in place, and new units come with their bin. */
  ghost predicate WritesAhead(db: Db, w: Writes) {
    && (forall u :: u in w.units && u in db.units ==>
          && w.units[u].version > db.units[u].version
          && w.units[u].content.sku == db.units[u].content.sku && w.units[u].content.bin == db.units[u].content.bin)
    && (forall u :: u in w.units && u !in db.units ==> w.units[u].content.bin in w.bins)
    && (forall k :: k in w.bins && k in db.bins ==> w.bins[k].version > db.bins[k].version)
    && (forall r :: r in w.reservations && r in db.reservations ==> w.reservations[r].version > db.reservations[r].version)
  }

  lemma CommitAhead(db: Db, w: Writes, events: seq<Event>)
    requires WritesAhead(db, w)
    ensures DbAhead(db, Commit(db, w, events))
  {
  }

  lemma CommitKeepsLocks(db: Db, w: Writes, events: seq<Event>, v: Writes)
    requires Apart(w, v)
    ensures LocksKept(db, Commit(db, w, events), v)
  {
  }

  lemma OwnIdUnused(db: Db, q: nat, other: Request, apart: (Sku, Sku) -> bool)
    requires RequestInv(db, q, other, apart)
    ensures other.job.Stowing? ==> q !in db.units
    ensures other.job.Reserving? ==> q !in db.reservations
  {
  }

  /** Committed writes leave another request's invariant standing. */
  lemma CommitLeavesOther(db: Db, w: Writes, events: seq<Event>, q: nat, other: Request, apart: (Sku, Sku) -> bool)
    requires RequestInv(db, q, other, apart)
    requires WritesAhead(db, w) && Apart(w, other.writes)
    requires q in w.units ==> q in db.units
    requires q in w.reservations ==> q in db.reservations
    ensures RequestInv(Commit(db, w, events), q, other, apart)
  {
    var db' := Commit(db, w, events);
    CommitAhead(db, w, events);
    CommitKeepsLocks(db, w, events, other.writes);
    OwnIdUnused(db, q, other, apart);
    RequestStable(db, db', q, other, apart);
  }

  lemma FinishOrderly(s: System, p: nat, apart: (Sku, Sku) -> bool)
    requires Orderly(s, apart) && p in s.requests
    requires WritesAhead(s.db, s.requests[p].writes)
    requires forall u :: u in s.requests[p].writes.units && u !in s.db.units ==> u == p
    requires forall r :: r in s.requests[p].writes.reservations && r !in s.db.reservations ==> r == p
    requires FirstVersions(Finish(s, p).db)
    ensures Orderly(Finish(s, p), apart)
  {
    var s' := Finish(s, p);
    var w, events := s.requests[p].writes, Published(p, s.requests[p].job);
    forall q | q in s'.requests ensures RequestInv(s'.db, q, s'.requests[q], apart) {
      CommitLeavesOther(s.db, w, events, q, s.requests[q], apart);
    }
  }

  /** A commit keeps the invariant if the books it leaves are lawful, segregated, and its bins honour first versions. */
  lemma FinishKeeps(s: System, p: nat, apart: (Sku, Sku) -> bool)
    requires Inv(s, apart) && p in s.requests
    requires WritesAhead(s.db, s.requests[p].writes)
    requires forall u :: u in s.requests[p].writes.units && u !in s.db.units ==> u == p
    requires forall r :: r in s.requests[p].writes.reservations && r !in s.db.reservations ==> r == p
    requires FirstVersions(Finish(s, p).db)
    requires Lawful(BooksOf(Finish(s, p).db), Gap(s.requests - {p}))
    requires Segregated(BooksOf(Finish(s, p).db).units, apart)
    ensures Inv(Finish(s, p), apart)
  {
    FinishOrderly(s, p, apart);
  }
}
