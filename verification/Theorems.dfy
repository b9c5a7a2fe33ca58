/**
 The promises of the concurrent warehouse over whole runs: any number of requests interleaved statement by statement,
 with crashes and rollbacks anywhere, each request owning its transactions.
 */
module Theorems {
  import opened Shared
  import opened Stock
  import opened Claims
  import opened Sums
  import opened Ledger
  import opened Transitions
  import opened Evolution
  import opened Rows
  import opened Requests
  import opened Invariants
  import opened Interleavings
  import opened Product
  import opened Segregation

  ghost function BooksAt(trace: seq<System>, i: nat): Books
    requires i < |trace|
  {
    BooksOf(trace[i].db)
  }

  lemma ContentAt(db: Db)
    ensures BooksOf(db).units.Keys == db.units.Keys && forall u :: u in db.units ==> BooksOf(db).units[u] == db.units[u].content
    ensures BooksOf(db).bins.Keys == db.bins.Keys && forall k :: k in db.bins ==> BooksOf(db).bins[k] == db.bins[k].content
    ensures BooksOf(db).reservations.Keys == db.reservations.Keys
    ensures forall r :: r in db.reservations ==> BooksOf(db).reservations[r] == db.reservations[r].content
    ensures BooksOf(db).log == db.outbox
  {
  }

  /** Each step of a run is one legal change of the books, one version on. */
  lemma RunEvolves(trace: seq<System>, apart: (Sku, Sku) -> bool, k: nat)
    requires Run(trace, apart) && Symmetric(apart) && k + 1 < |trace|
    ensures Evolves(BooksAt(trace, k), BooksAt(trace, k + 1)) && VersionsStep(trace[k].db, trace[k + 1].db)
  {
    hide Inv, Evolves, VersionsStep, Step, BooksOf;
    RunKeepsInv(trace, apart, k);
    assert Step(trace[k], trace[k + 1], apart);
    StepEvolves(trace[k], trace[k + 1], apart);
  }

  lemma StartsEmpty(trace: seq<System>, apart: (Sku, Sku) -> bool)
    requires Run(trace, apart)
    ensures trace[0].db == EMPTY.db && BooksAt(trace, 0).reservations == map[]
  {
    hide Step;
  }

  lemma LawfulAt(trace: seq<System>, apart: (Sku, Sku) -> bool, i: nat)
    requires Run(trace, apart) && Symmetric(apart) && i < |trace|
    ensures Lawful(BooksAt(trace, i), Gap(trace[i].requests))
  {
    hide Lawful, Orderly, Run;
    RunKeepsInv(trace, apart, i);
  }

  // ---- no oversell

  /**
   In every reachable state every unit keeps: what ACTIVE reservations drew <= reserved <= on hand. The difference
   between the first two is exactly what reserves in flight, or failed after saving units, have drawn.
   */
  lemma NoOversell(trace: seq<System>, apart: (Sku, Sku) -> bool, i: nat, u: UnitId)
    requires Run(trace, apart) && Symmetric(apart) && i < |trace| && u in trace[i].db.units
    ensures var unit, active := trace[i].db.units[u].content, Active(BooksAt(trace, i).reservations, u);
            && active <= unit.reserved <= unit.quantity
            && unit.reserved - active == Drawn(trace[i].requests, u)
  {
    hide Run, Active, BooksOf;
    ContentAt(trace[i].db);
    LawfulAt(trace, apart, i);
    hide ClaimsSound, BinsBalanced, Audited;
    assert BooksAt(trace, i).units[u].Sound();
  }

  /** A reserve, in flight or failed, has saved a draw on the unit. */
  predicate DrewOn(job: Job, u: UnitId) {
    job.Reserving? && exists n :: 0 <= n < job.saved && n < |job.data.allocations| && job.data.allocations[n].unit == u
  }

  /** The ledger of a unit is exact if and only if no reserve without its reservation has saved a draw on that unit. */
  lemma ExactIffNoDraw(trace: seq<System>, apart: (Sku, Sku) -> bool, i: nat, u: UnitId)
    requires Run(trace, apart) && Symmetric(apart) && i < |trace| && u in trace[i].db.units
    ensures trace[i].db.units[u].content.reserved == Active(BooksAt(trace, i).reservations, u) <==>
            forall p :: p in trace[i].requests ==> !DrewOn(trace[i].requests[p].job, u)
  {
    hide Run, Active, BooksOf, DrewOn;
    var requests := trace[i].requests;
    NoOversell(trace, apart, i, u);
    forall p | p in requests ensures DrawTerm(u)(requests[p]) >= 0
      ensures DrawTerm(u)(requests[p]) == 0 <==> !DrewOn(requests[p].job, u)
    {
      RunKeepsInv(trace, apart, i);
      DrawTermIff(trace[i], p, u, apart);
    }
    if p :| p in requests && DrewOn(requests[p].job, u) {
      SumAtLeast(requests, p, DrawTerm(u));
    } else {
      SumZero(requests, DrawTerm(u));
    }
  }

  lemma DrawTermIff(s: System, p: nat, u: UnitId, apart: (Sku, Sku) -> bool)
    requires Inv(s, apart) && p in s.requests
    ensures DrawTerm(u)(s.requests[p]) >= 0
    ensures DrawTerm(u)(s.requests[p]) == 0 <==> !DrewOn(s.requests[p].job, u)
  {
    hide DrawnOn, Lawful, BooksOf, Segregated;
    RequestOf(s, p, apart);
    var job := s.requests[p].job;
    if job.Reserving? {
      var drawn := job.data.allocations[..job.saved];
      assert DistinctUnits(drawn) && forall n :: 0 <= n < |drawn| ==> drawn[n].quantity > 0;
      if n :| 0 <= n < |drawn| && drawn[n].unit == u {
        DrawnOnAt(drawn, n);
      } else {
        DrawnOnAbsent(drawn, u);
      }
    }
  }

  /** What a failed reserve drew stays drawn: no later step of any request gives it back. */
  lemma {:induction false} FailedDrawStays(trace: seq<System>, apart: (Sku, Sku) -> bool, i: nat, j: nat, p: nat, u: UnitId)
    requires Run(trace, apart) && Symmetric(apart) && i <= j < |trace|
    requires p in trace[i].requests && DrewOn(trace[i].requests[p].job, u) && !trace[i].requests[p].job.live
    ensures p in trace[j].requests && trace[j].requests[p].job == trace[i].requests[p].job
    ensures u in trace[j].db.units && trace[j].db.units[u].content.reserved > Active(BooksAt(trace, j).reservations, u)
    decreases j
  {
    hide Run, BooksOf, Active, Inv;
    if i < j {
      FailedDrawStays(trace, apart, i, j - 1, p, u);
      RunKeepsInv(trace, apart, j - 1);
      OverStays(trace, apart, j - 1, p);
    }
    RunKeepsInv(trace, apart, j);
    DrawnUnitExists(trace[j], p, u, apart);
    NoOversell(trace, apart, j, u);
    ExactIffNoDraw(trace, apart, j, u);
  }

  lemma DrawnUnitExists(s: System, p: nat, u: UnitId, apart: (Sku, Sku) -> bool)
    requires Inv(s, apart) && p in s.requests && DrewOn(s.requests[p].job, u)
    ensures u in s.db.units
  {
    hide Lawful, BooksOf, Segregated;
    RequestOf(s, p, apart);
  }

  lemma OverStays(trace: seq<System>, apart: (Sku, Sku) -> bool, k: nat, p: nat)
    requires Run(trace, apart) && k + 1 < |trace| && Inv(trace[k], apart)
    requires p in trace[k].requests && trace[k].requests[p].job.Reserving? && !trace[k].requests[p].job.live
    ensures p in trace[k + 1].requests && trace[k + 1].requests[p].job == trace[k].requests[p].job
  {
    hide Inv;
    assert Step(trace[k], trace[k + 1], apart);
    var a: Action :| Act(trace[k], a, apart) == Some(trace[k + 1]);
    OverIsLeft(trace[k], a, p, apart);
  }

  /** No action changes a reserve that is over. */
  lemma OverIsLeft(s: System, a: Action, p: nat, apart: (Sku, Sku) -> bool)
    requires Inv(s, apart) && Act(s, a, apart).Some? && p in s.requests
    requires s.requests[p].job.Reserving? && !s.requests[p].job.live
    ensures var s' := Act(s, a, apart).value; p in s'.requests && s'.requests[p].job == s.requests[p].job
  {
    hide Inv, StepStow, StepReserve, StepResolve, StepCount, StepRegister;
    OverFacts(s, p, apart);
    if a.Advance? {
      AdvanceLeavesOthers(s, a.p, p, apart);
    }
  }

  lemma OverFacts(s: System, p: nat, apart: (Sku, Sku) -> bool)
    requires Inv(s, apart) && p in s.requests && s.requests[p].job.Reserving? && !s.requests[p].job.live
    ensures p < s.next && !s.requests[p].job.filed && StepReserve(s, p) == None
  {
    hide Lawful, BooksOf, Segregated;
    RequestOf(s, p, apart);
  }

  lemma AdvanceLeavesOthers(s: System, q: nat, p: nat, apart: (Sku, Sku) -> bool)
    requires p in s.requests && q != p && Act(s, Advance(q), apart).Some?
    ensures var s' := Act(s, Advance(q), apart).value; p in s'.requests && s'.requests[p] == s.requests[p]
  {
    hide Clear, Commit, Save;
  }

  /** Every unit keeps the lifecycle rules. */
  lemma LifecycleKept(trace: seq<System>, apart: (Sku, Sku) -> bool, i: nat, u: UnitId)
    requires Run(trace, apart) && Symmetric(apart) && i < |trace| && u in trace[i].db.units
    ensures var d := trace[i].db.units[u].content;
      && d.reserved <= d.quantity && (d.state == AVAILABLE ==> d.reserved == 0) && (d.state == RESERVED ==> d.reserved > 0)
      && (d.state == REMOVED <==> d.quantity == 0)
  {
    hide Run, BooksOf;
    ContentAt(trace[i].db);
    LawfulAt(trace, apart, i);
    hide ClaimsSound, BinsBalanced, Audited, Covered;
    assert trace[i].db.units[u].content.Sound();
  }

  // ---- exactly-once resolution

  /** A reservation keeps its terms for good, and its status once it has left ACTIVE. */
  lemma {:induction false} ResolvedForGood(trace: seq<System>, apart: (Sku, Sku) -> bool, i: nat, j: nat, r: ResId)
    requires Run(trace, apart) && Symmetric(apart) && i <= j < |trace| && r in BooksAt(trace, i).reservations
    ensures r in BooksAt(trace, j).reservations
    ensures var before, after := BooksAt(trace, i).reservations[r], BooksAt(trace, j).reservations[r];
            after == before.(status := after.status) && (before.status != ACTIVE ==> after == before)
    decreases j
  {
    hide Run, BooksOf, Evolves, VersionsStep;
    if i < j {
      ResolvedForGood(trace, apart, i, j - 1, r);
      RunEvolves(trace, apart, j - 1);
      ResolvedIsFinal(BooksAt(trace, j - 1), BooksAt(trace, j), r);
    }
  }

  /** Step k of the run resolves r: units, bins, the status and the event together. */
  ghost predicate ResolvesAt(trace: seq<System>, k: nat, r: ResId, to: Status)
    requires k + 1 < |trace|
  {
    Resolves(BooksAt(trace, k), r, to, BooksAt(trace, k + 1))
  }

  /**
   A reservation found resolved was resolved by exactly one step of the run. That one commit settled all its units
   and bins, changed its status and published the event; no other step ever did.
   */
  lemma ResolvedExactlyOnce(trace: seq<System>, apart: (Sku, Sku) -> bool, j: nat, r: ResId)
    requires Run(trace, apart) && Symmetric(apart) && j < |trace|
    requires r in BooksAt(trace, j).reservations && BooksAt(trace, j).reservations[r].status != ACTIVE
    ensures exists k: nat :: k < j && ResolvesAt(trace, k, r, BooksAt(trace, j).reservations[r].status)
                             && forall m: nat, to :: m < j && m != k ==> !ResolvesAt(trace, m, r, to)
  {
    hide Run, BooksOf, Resolves;
    var k := ResolvingStep(trace, apart, j, r);
    var status := BooksAt(trace, j).reservations[r].status;
    forall m: nat, to | m < j && m != k ensures !ResolvesAt(trace, m, r, to) {
      if k < m {
        StaysResolved(trace, apart, k, m, r, status);
      } else if ResolvesAt(trace, m, r, to) {
        StaysResolved(trace, apart, m, k, r, to);
      }
    }
  }

  lemma ResolutionFacts(b: Books, r: ResId, to: Status, b': Books)
    requires Resolves(b, r, to, b')
    ensures to != ACTIVE && r in b.reservations && b.reservations[r].status == ACTIVE
    ensures r in b'.reservations && b'.reservations[r].status == to
  {
    hide UnitsSettled, BinsSettled;
  }

  /** No later step resolves a reservation again. */
  lemma StaysResolved(trace: seq<System>, apart: (Sku, Sku) -> bool, k: nat, m: nat, r: ResId, to: Status)
    requires Run(trace, apart) && Symmetric(apart) && k < m && m + 1 < |trace| && ResolvesAt(trace, k, r, to)
    ensures forall t :: !ResolvesAt(trace, m, r, t)
  {
    hide Run, BooksOf, Resolves;
    ResolutionFacts(BooksAt(trace, k), r, to, BooksAt(trace, k + 1));
    ResolvedForGood(trace, apart, k + 1, m, r);
    forall t ensures !ResolvesAt(trace, m, r, t) {
      if ResolvesAt(trace, m, r, t) {
        ResolutionFacts(BooksAt(trace, m), r, t, BooksAt(trace, m + 1));
      }
    }
  }

  lemma {:induction false} ResolvingStep(trace: seq<System>, apart: (Sku, Sku) -> bool, j: nat, r: ResId) returns (k: nat)
    requires Run(trace, apart) && Symmetric(apart) && j < |trace|
    requires r in BooksAt(trace, j).reservations && BooksAt(trace, j).reservations[r].status != ACTIVE
    ensures k < j && ResolvesAt(trace, k, r, BooksAt(trace, j).reservations[r].status)
    decreases j
  {
    StartsEmpty(trace, apart);
    if j > 0 {
      hide Run, BooksOf, Resolves, Evolves, VersionsStep;
      RunEvolves(trace, apart, j - 1);
      var b, b' := BooksAt(trace, j - 1), BooksAt(trace, j);
      if r !in b.reservations {
        NewIsActive(b, b', r);
      } else if b.reservations[r].status == ACTIVE {
        ResolutionIsWhole(b, b', r);
        k := j - 1;
      } else {
        ResolvedIsFinal(b, b', r);
        k := ResolvingStep(trace, apart, j - 1, r);
      }
    }
  }

  /** Reservations appear ACTIVE. */
  lemma NewIsActive(b: Books, b': Books, r: ResId)
    requires Evolves(b, b') && r !in b.reservations && r in b'.reservations
    ensures b'.reservations[r].status == ACTIVE
  {
    var c: Change :| Changes(b, c, b');
    hide DrawsOn, DrawnOn, DrawnFrom, UnitsSettled, BinsSettled;
  }

  /** The outbox reports each resolution once, as what it was, and reports no other. */
  lemma ReportedExactlyOnce(trace: seq<System>, apart: (Sku, Sku) -> bool, i: nat, r: ResId, to: Status)
    requires Run(trace, apart) && Symmetric(apart) && i < |trace| && to != ACTIVE
    ensures Tally(trace[i].db.outbox, ResolutionOf(r, to)) ==
            if r in BooksAt(trace, i).reservations && BooksAt(trace, i).reservations[r].status == to then 1 else 0
  {
    hide Run, BooksOf, ResolutionOf;
    ContentAt(trace[i].db);
    LawfulAt(trace, apart, i);
    hide ClaimsSound, BinsBalanced, UnitsSound, Covered, SkuAudited, SkuCounted;
  }

  /** Reserved stock falls, and stock leaves a unit, only in a step that resolves a reservation drawn on that unit. */
  lemma StockLeavesByResolution(trace: seq<System>, apart: (Sku, Sku) -> bool, k: nat, u: UnitId)
    requires Run(trace, apart) && Symmetric(apart) && k + 1 < |trace|
    requires u in BooksAt(trace, k).units && u in BooksAt(trace, k + 1).units
    requires var d, d' := BooksAt(trace, k).units[u], BooksAt(trace, k + 1).units[u];
             d'.reserved < d.reserved || d'.quantity != d.quantity
    ensures exists r, to :: ResolvesAt(trace, k, r, to) && DrawnOn(BooksAt(trace, k).reservations[r].allocations, u) > 0
  {
    hide Run, BooksOf, Evolves, VersionsStep;
    RunEvolves(trace, apart, k);
    ReservedFallsByResolution(BooksAt(trace, k), BooksAt(trace, k + 1), u);
    hide Resolves;
    var r: ResId, to :| Resolves(BooksAt(trace, k), r, to, BooksAt(trace, k + 1))
                        && DrawnOn(BooksAt(trace, k).reservations[r].allocations, u) > 0;
    assert ResolvesAt(trace, k, r, to);
  }

  // ---- segregation

  /** The stow's check passes exactly when the machine's step does, given the SKUs of the units found in the bin. */
  lemma ClearIsTheCheck(units: Table<UnitId, UnitData>, sku: Sku, bin: BinId, classes: Classes, occupants: seq<Sku>)
    requires forall t :: t in occupants <==> exists u :: u in units && units[u].content.bin == bin && units[u].content.sku == t
    ensures Clear(units, sku, bin, ApartBy(classes)) <==>
            !exists t :: t in occupants && t != sku && KeptApart(classes, sku, t)
  {
    if Clear(units, sku, bin, ApartBy(classes)) {
      forall t | t in occupants && t != sku ensures !KeptApart(classes, sku, t) {
        var u :| u in units && units[u].content.bin == bin && units[u].content.sku == t;
        assert !ApartBy(classes)(sku, units[u].content.sku);
      }
    } else {
      var u :| u in units && units[u].content.bin == bin && units[u].content.sku != sku
               && ApartBy(classes)(sku, units[u].content.sku);
      assert units[u].content.sku in occupants;
    }
  }

  /** With classifications fixed, no reachable state has incompatible classes of two SKUs in one bin. */
  lemma SegregationSurvives(trace: seq<System>, classes: Classes, i: nat, u: UnitId, v: UnitId)
    requires Run(trace, ApartBy(classes)) && i < |trace|
    requires u in trace[i].db.units && v in trace[i].db.units
    requires var c, d := trace[i].db.units[u].content, trace[i].db.units[v].content;
             c.bin == d.bin && c.sku != d.sku && c.sku in classes && d.sku in classes
    ensures var c, d := trace[i].db.units[u].content, trace[i].db.units[v].content;
            !Incompatible(classes[c.sku].hazardClass, classes[d.sku].hazardClass)
  {
    hide Run, BooksOf, Lawful, Orderly;
    forall s, t ensures ApartBy(classes)(s, t) == ApartBy(classes)(t, s) {
      ApartIsSymmetric(classes, s, t);
    }
    ContentAt(trace[i].db);
    RunKeepsInv(trace, ApartBy(classes), i);
    var c, d := trace[i].db.units[u].content, trace[i].db.units[v].content;
    assert !ApartBy(classes)(c.sku, d.sku);
  }

  // ---- bins

  /**
   Bin conservation: a bin holds exactly the stock recorded in it, unlocated units included, within its capacity;
   and a bin still at its first version has never held any.
   */
  lemma BinsConserved(trace: seq<System>, apart: (Sku, Sku) -> bool, i: nat, k: BinId)
    requires Run(trace, apart) && Symmetric(apart) && i < |trace| && k in trace[i].db.bins
    ensures var bin := trace[i].db.bins[k];
            && bin.content.occupied == OnHand(BooksAt(trace, i).units, InBin(k))
            && bin.content.occupied <= bin.content.capacity
            && (bin.version == 1 ==> forall u :: u in trace[i].db.units ==> trace[i].db.units[u].content.bin != k)
  {
    hide Run, OnHand, BooksOf, RequestsInv, Exclusive, Numbered;
    ContentAt(trace[i].db);
    RunKeepsInv(trace, apart, i);
    hide ClaimsSound, UnitsSound, Covered, Audited;
  }

  /** Every unit sits in a registered bin. */
  lemma UnitsHaveBins(trace: seq<System>, apart: (Sku, Sku) -> bool, i: nat, u: UnitId)
    requires Run(trace, apart) && Symmetric(apart) && i < |trace| && u in trace[i].db.units
    ensures trace[i].db.units[u].content.bin in trace[i].db.bins
  {
    hide Run, OnHand, BooksOf;
    ContentAt(trace[i].db);
    LawfulAt(trace, apart, i);
    hide ClaimsSound, UnitsSound, Covered, Audited;
  }

  // ---- the event log

  /** Per SKU, at every moment of every run, the outbox accounts for stock on hand and for reservations. */
  lemma OutboxAccounts(trace: seq<System>, apart: (Sku, Sku) -> bool, i: nat, sku: Sku)
    requires Run(trace, apart) && Symmetric(apart) && i < |trace|
    ensures var log, b := trace[i].db.outbox, BooksAt(trace, i);
            && Tally(log, StowedQty(sku)) - Tally(log, PickedQty(sku)) == OnHand(b.units, OfSku(sku))
            && Tally(log, NetCreated(sku)) == Sum(b.reservations, Standing(sku))
            && Tally(log, PickedQty(sku)) == Sum(b.reservations, ConfirmedQty(sku))
            && Tally(log, CreatedFor(sku)) == Sum(b.reservations, MadeOf(sku))
            && forall to :: to != ACTIVE ==> Tally(log, EndedAs(sku, to)) == Sum(b.reservations, EndedOf(sku, to))
  {
    hide Run, OnHand, BooksOf;
    ContentAt(trace[i].db);
    LawfulAt(trace, apart, i);
    hide ClaimsSound, UnitsSound, Covered, BinsBalanced, ResolutionsLogged;
    assert SkuAudited(BooksAt(trace, i), sku) && SkuCounted(BooksAt(trace, i), sku);
    NetIsStanding(BooksAt(trace, i), sku);
  }

  // ---- rows

  /** One row's next moment in a run. */
  lemma UnitStep(trace: seq<System>, apart: (Sku, Sku) -> bool, k: nat, u: UnitId)
    requires Run(trace, apart) && Symmetric(apart) && k + 1 < |trace|
    ensures u in trace[k].db.units ==> OneOn(trace[k].db.units, trace[k + 1].db.units, u)
    ensures u !in trace[k].db.units && u in trace[k + 1].db.units ==> trace[k + 1].db.units[u].version == 1
  {
    hide Run, BooksOf, Evolves, OneOn;
    RunEvolves(trace, apart, k);
  }

  /** A unit row stays, and its version never goes back; at the same version it is the same row. */
  lemma {:induction false} UnitVersionsGrow(trace: seq<System>, apart: (Sku, Sku) -> bool, i: nat, j: nat, u: UnitId)
    requires Run(trace, apart) && Symmetric(apart) && i <= j < |trace| && u in trace[i].db.units
    ensures Seen(trace[j].db.units, u, trace[i].db.units[u])
    decreases j
  {
    hide Run, Ahead;
    if i < j {
      UnitVersionsGrow(trace, apart, i, j - 1, u);
      RowsSeen(trace, apart, j - 1);
      SeenStays(trace[j - 1].db.units, trace[j].db.units, u, trace[i].db.units[u]);
    }
  }

  lemma RowsSeen(trace: seq<System>, apart: (Sku, Sku) -> bool, k: nat)
    requires Run(trace, apart) && Symmetric(apart) && k + 1 < |trace|
    ensures Ahead(trace[k].db.units, trace[k + 1].db.units) && Ahead(trace[k].db.bins, trace[k + 1].db.bins)
    ensures Ahead(trace[k].db.reservations, trace[k + 1].db.reservations)
  {
    hide Run, BooksOf, Evolves;
    RunEvolves(trace, apart, k);
    assert forall r :: r in trace[k].db.reservations ==> OneOn(trace[k].db.reservations, trace[k + 1].db.reservations, r);
    assert forall u :: u in trace[k].db.units ==> OneOn(trace[k].db.units, trace[k + 1].db.units, u);
  }

  /**
   The version chain: a unit found at version n + 1 > 1 passed through version n, and one save, a single operation
   of the aggregate performed on that very content, produced version n + 1.
   */
  lemma {:induction false} UnitVersionChain(trace: seq<System>, apart: (Sku, Sku) -> bool, j: nat, u: UnitId)
    requires Run(trace, apart) && Symmetric(apart) && j < |trace| && u in trace[j].db.units && trace[j].db.units[u].version != 1
    ensures exists k: nat :: k < j && u in trace[k].db.units && trace[k].db.units[u].version == trace[j].db.units[u].version - 1
                             && UnitOperation(trace[k].db.units[u].content, trace[j].db.units[u].content)
    decreases j
  {
    StartsEmpty(trace, apart);
    if j > 0 {
      hide Run, UnitOperation;
      UnitStep(trace, apart, j - 1, u);
      if trace[j].db.units[u] == trace[j - 1].db.units[u] {
        UnitVersionChain(trace, apart, j - 1, u);
      } else {
        SaveIsOperation(trace, apart, j - 1, u);
      }
    }
  }

  /** A new version of a unit is one operation of the aggregate on the version before. */
  lemma SaveIsOperation(trace: seq<System>, apart: (Sku, Sku) -> bool, k: nat, u: UnitId)
    requires Run(trace, apart) && Symmetric(apart) && k + 1 < |trace| && u in trace[k].db.units && u in trace[k + 1].db.units
    requires trace[k].db.units[u] != trace[k + 1].db.units[u]
    ensures UnitOperation(trace[k].db.units[u].content, trace[k + 1].db.units[u].content)
  {
    hide Run, BooksOf, Evolves, UnitOperation, Lawful;
    UnitStep(trace, apart, k, u);
    ContentAt(trace[k].db);
    ContentAt(trace[k + 1].db);
    UnitContentStep(trace, apart, k, u);
  }

  lemma UnitContentStep(trace: seq<System>, apart: (Sku, Sku) -> bool, k: nat, u: UnitId)
    requires Run(trace, apart) && Symmetric(apart) && k + 1 < |trace| && u in BooksAt(trace, k).units
    ensures var d := BooksAt(trace, k).units[u];
            && u in BooksAt(trace, k + 1).units
            && (BooksAt(trace, k + 1).units[u] == d || UnitOperation(d, BooksAt(trace, k + 1).units[u]))
  {
    hide Run, BooksOf, Evolves, UnitOperation, VersionsStep;
    RunEvolves(trace, apart, k);
    LawfulAt(trace, apart, k);
    hide ClaimsSound, BinsBalanced, Audited, UnitsSound, Covered;
    UnitsChangeByOperations(BooksAt(trace, k), BooksAt(trace, k + 1), Gap(trace[k].requests), u);
  }

  /** A unit picked out completely is final: no later moment of the run shows it otherwise. */
  lemma {:induction false} RemovedForGood(trace: seq<System>, apart: (Sku, Sku) -> bool, i: nat, j: nat, u: UnitId)
    requires Run(trace, apart) && Symmetric(apart) && i <= j < |trace|
    requires u in BooksAt(trace, i).units && BooksAt(trace, i).units[u].state == REMOVED
    ensures u in BooksAt(trace, j).units && BooksAt(trace, j).units[u] == BooksAt(trace, i).units[u]
    decreases j
  {
    hide Run, BooksOf, Evolves, VersionsStep;
    if i < j {
      RemovedForGood(trace, apart, i, j - 1, u);
      RunEvolves(trace, apart, j - 1);
      LawfulAt(trace, apart, j - 1);
      hide ClaimsSound, BinsBalanced, Audited, UnitsSound, Covered;
      RemovedIsFinal(BooksAt(trace, j - 1), BooksAt(trace, j), Gap(trace[j - 1].requests), u);
    }
  }

  /** A reservation row is saved exactly twice: version 1 is the ACTIVE reservation, version 2 the resolved one. */
  lemma {:induction false} ReservationVersions(trace: seq<System>, apart: (Sku, Sku) -> bool, j: nat, r: ResId)
    requires Run(trace, apart) && Symmetric(apart) && j < |trace| && r in trace[j].db.reservations
    ensures VersionTells(trace[j].db.reservations[r])
    decreases j
  {
    StartsEmpty(trace, apart);
    hide Run, BooksOf, VersionTells;
    if j > 0 {
      VersionTellsOn(trace, apart, j - 1, r);
      if r in trace[j - 1].db.reservations {
        ReservationVersions(trace, apart, j - 1, r);
      }
    }
  }

  predicate VersionTells(row: Row<ResData>) {
    row.version == if row.content.status == ACTIVE then 1 else 2
  }

  lemma VersionTellsOn(trace: seq<System>, apart: (Sku, Sku) -> bool, k: nat, r: ResId)
    requires Run(trace, apart) && Symmetric(apart) && k + 1 < |trace| && r in trace[k + 1].db.reservations
    ensures r in trace[k].db.reservations && VersionTells(trace[k].db.reservations[r]) ==>
      VersionTells(trace[k + 1].db.reservations[r])
    ensures r !in trace[k].db.reservations ==> VersionTells(trace[k + 1].db.reservations[r])
  {
    hide Run, BooksOf;
    ReservationStep(trace, apart, k, r);
  }

  lemma ReservationStep(trace: seq<System>, apart: (Sku, Sku) -> bool, k: nat, r: ResId)
    requires Run(trace, apart) && Symmetric(apart) && k + 1 < |trace|
    ensures var t, t' := trace[k].db.reservations, trace[k + 1].db.reservations;
            && (r in t ==> OneOn(t, t', r))
            && (r in t && t[r].content.status != ACTIVE ==> t'[r] == t[r])
            && (r in t ==> t'[r].content == t[r].content.(status := t'[r].content.status))
            && (r !in t && r in t' ==> t'[r].version == 1 && t'[r].content.status == ACTIVE)
  {
    hide Run, BooksOf, Evolves;
    RunEvolves(trace, apart, k);
    ContentAt(trace[k].db);
    ContentAt(trace[k + 1].db);
    if r in trace[k].db.reservations {
      ResolvedIsFinal(BooksAt(trace, k), BooksAt(trace, k + 1), r);
      assert OneOn(trace[k].db.reservations, trace[k + 1].db.reservations, r);
    } else if r in trace[k + 1].db.reservations {
      NewIsActive(BooksAt(trace, k), BooksAt(trace, k + 1), r);
    }
  }

  /** A bin row stays, and its version never goes back; at the same version it is the same row. */
  lemma {:induction false} BinVersionsGrow(trace: seq<System>, apart: (Sku, Sku) -> bool, i: nat, j: nat, k: BinId)
    requires Run(trace, apart) && Symmetric(apart) && i <= j < |trace| && k in trace[i].db.bins
    ensures Seen(trace[j].db.bins, k, trace[i].db.bins[k])
    decreases j
  {
    hide Run, Ahead;
    if i < j {
      BinVersionsGrow(trace, apart, i, j - 1, k);
      RowsSeen(trace, apart, j - 1);
      SeenStays(trace[j - 1].db.bins, trace[j].db.bins, k, trace[i].db.bins[k]);
    }
  }

  /** A reservation row stays, and its version never goes back; at the same version it is the same row. */
  lemma {:induction false} ReservationVersionsGrow(trace: seq<System>, apart: (Sku, Sku) -> bool, i: nat, j: nat, r: ResId)
    requires Run(trace, apart) && Symmetric(apart) && i <= j < |trace| && r in trace[i].db.reservations
    ensures Seen(trace[j].db.reservations, r, trace[i].db.reservations[r])
    decreases j
  {
    hide Run, Ahead;
    if i < j {
      ReservationVersionsGrow(trace, apart, i, j - 1, r);
      RowsSeen(trace, apart, j - 1);
      SeenStays(trace[j - 1].db.reservations, trace[j].db.reservations, r, trace[i].db.reservations[r]);
    }
  }

  /** Step k takes a row from one version to another. */
  ghost predicate Advances<K, V>(t: Table<K, V>, t': Table<K, V>, k: K, version: nat) {
    k in t && k in t' && t[k].version == version && t'[k].version != version
  }

  /** Of all the saves from one version of a row, spread over a run, at most one succeeds: units, bins, reservations. */
  lemma OneSavePerVersion(trace: seq<System>, apart: (Sku, Sku) -> bool, k: nat, m: nat, version: nat, u: UnitId, bin: BinId,
                          r: ResId)
    requires Run(trace, apart) && Symmetric(apart) && k < m && m + 1 < |trace|
    ensures Advances(trace[k].db.units, trace[k + 1].db.units, u, version) ==>
      !Advances(trace[m].db.units, trace[m + 1].db.units, u, version)
    ensures Advances(trace[k].db.bins, trace[k + 1].db.bins, bin, version) ==>
      !Advances(trace[m].db.bins, trace[m + 1].db.bins, bin, version)
    ensures Advances(trace[k].db.reservations, trace[k + 1].db.reservations, r, version) ==>
      !Advances(trace[m].db.reservations, trace[m + 1].db.reservations, r, version)
  {
    hide Run;
    RowsSeen(trace, apart, k);
    if u in trace[k + 1].db.units {
      UnitVersionsGrow(trace, apart, k + 1, m, u);
    }
    if bin in trace[k + 1].db.bins {
      BinVersionsGrow(trace, apart, k + 1, m, bin);
    }
    if r in trace[k + 1].db.reservations {
      ReservationVersionsGrow(trace, apart, k + 1, m, r);
    }
  }

  /** A bin row changes only by an operation on what it held: no step of any request loses another's stock. */
  lemma BinStepIsOperation(trace: seq<System>, apart: (Sku, Sku) -> bool, k: nat, bin: BinId)
    requires Run(trace, apart) && Symmetric(apart) && k + 1 < |trace| && bin in BooksAt(trace, k).bins
    ensures bin in BooksAt(trace, k + 1).bins
    ensures var d, d' := BooksAt(trace, k).bins[bin], BooksAt(trace, k + 1).bins[bin]; d' == d || BinOperation(d, d')
  {
    hide Run, BooksOf, Evolves, VersionsStep, BinOperation;
    RunEvolves(trace, apart, k);
    BinsChangeByOperations(BooksAt(trace, k), BooksAt(trace, k + 1), bin);
  }
}
