/** The laws over every sequence of use cases, and what single calls guarantee. */
module Sequential {
  import opened Shared
  import opened Stock
  import opened Location
  import opened Claims
  import opened Sums
  import opened Ledger
  import opened Transitions
  import opened GreedyAllocation
  import opened CycleCounting
  import opened UseCases

  // ---- a new reservation keeps every law: its draws open a gap that the reservation closes

  function DrawGap(allocs: seq<Allocation>): UnitId -> nat {
    (u: UnitId) => DrawnOn(allocs, u)
  }

  /** Units with the first draws made, and the rest as they were. */
  function DrawnFirst(units: Units, allocs: seq<Allocation>): Units {
    map u | u in units :: DrawnUnit(units[u], DrawnOn(allocs, u))
  }

  /** The books while the first draws have been made and nothing is recorded yet. */
  lemma {:induction false} DrawsLawful(b: Books, allocs: seq<Allocation>, order: seq<UnitId>)
    requires Lawful(b, NoGap()) && (forall u :: u in order ==> u in b.units) && FairDraw(allocs, order, b.units)
    ensures Lawful(b.(units := DrawnFirst(b.units, allocs)), DrawGap(allocs))
    decreases |allocs|
  {
    hide Lawful, FairDraw;
    if allocs == [] {
      assert b.(units := DrawnFirst(b.units, allocs)) == b;
      SameGap(b, NoGap(), DrawGap(allocs));
    } else {
      var n := |allocs| - 1;
      FairButLast(b.units, allocs, order);
      DrawsLawful(b, allocs[..n], order);
      LastDrawn(b, allocs, order);
      DrawnLawful(b.(units := DrawnFirst(b.units, allocs[..n])), allocs[n].unit, allocs[n].quantity,
                  b.(units := DrawnFirst(b.units, allocs)), DrawGap(allocs[..n]), DrawGap(allocs));
    }
  }

  lemma SameGap(b: Books, gap: UnitId -> nat, gap': UnitId -> nat)
    requires Lawful(b, gap) && forall u :: gap(u) == gap'(u)
    ensures Lawful(b, gap')
  {
    hide UnitsSound, ClaimsSound, BinsBalanced, Audited, Active;
  }

  lemma FairButLast(units: Units, allocs: seq<Allocation>, order: seq<UnitId>)
    requires (forall u :: u in order ==> u in units) && FairDraw(allocs, order, units) && allocs != []
    ensures FairDraw(allocs[..|allocs| - 1], order, units)
  {
  }

  /** The last draw is a draw on a unit that the earlier ones left alone. */
  lemma LastDrawn(b: Books, allocs: seq<Allocation>, order: seq<UnitId>)
    requires (forall u :: u in order ==> u in b.units) && FairDraw(allocs, order, b.units) && allocs != []
    ensures var a, front := allocs[|allocs| - 1], allocs[..|allocs| - 1];
      && Draws(b.(units := DrawnFirst(b.units, front)), a.unit, a.quantity, b.(units := DrawnFirst(b.units, allocs)))
      && forall x :: DrawGap(allocs)(x) == DrawGap(front)(x) + if x == a.unit then a.quantity else 0
  {
    DrawnOnButLast(allocs);
    hide DrawnOn;
    var a, front := allocs[|allocs| - 1], allocs[..|allocs| - 1];
    assert DrawnFirst(b.units, front)[a.unit] == b.units[a.unit];
    assert DrawnFirst(b.units, allocs) == DrawnFirst(b.units, front)[a.unit := b.units[a.unit].Reserve(a.quantity).value];
  }

  /** A greedy draw on the units of the SKU is fair, sound, and covers the quantity. */
  lemma AllocationFacts(b: Books, r: ResId, data: ResData, order: seq<UnitId>, b': Books)
    requires Allocates(b, r, data, order, b')
    ensures Distinct(order) && forall u :: u in order ==> u in b.units && b.units[u].sku == data.sku
    ensures FairDraw(data.allocations, order, b.units) && DrawsOn(data.allocations, b.units, data.sku)
    ensures Total(data.allocations) == data.quantity
    ensures b' == Books(DrawnFirst(b.units, data.allocations), b.bins, b.reservations[r := data],
                        b.log + [StockReserved(r, data.sku, data.quantity)])
  {
    hide UsableOf, Greedy, DrawnOn, Total, TotalUsable;
    GreedyIsFair(order, b.units, data.quantity);
    GreedyDrawsOn(order, b.units, data.quantity, data.sku);
    GreedyCovers(order, b.units, data.quantity);
    UsableInAnyOrder(order, b.units, data.sku);
    assert b'.units == DrawnFirst(b.units, data.allocations);
  }

  lemma AllocatesLawful(b: Books, r: ResId, data: ResData, order: seq<UnitId>, b': Books)
    requires Lawful(b, NoGap()) && Allocates(b, r, data, order, b')
    ensures Lawful(b', NoGap())
  {
    AllocationFacts(b, r, data, order, b');
    hide Allocates, Lawful, FairDraw;
    var m := b.(units := DrawnFirst(b.units, data.allocations));
    DrawsLawful(b, data.allocations, order);
    DrawnInPlace(b, data.allocations);
    RecordsDraws(b, r, data, b');
    RecordedLawful(m, r, data, b', DrawGap(data.allocations), NoGap());
  }

  lemma DrawnInPlace(b: Books, allocs: seq<Allocation>)
    ensures SamePlaces(b.units, DrawnFirst(b.units, allocs)) && DrawnFirst(b.units, allocs).Keys == b.units.Keys
  {
    hide DrawnOn;
  }

  lemma RecordsDraws(b: Books, r: ResId, data: ResData, b': Books)
    requires r !in b.reservations && data.status == ACTIVE
    requires DrawsOn(data.allocations, b.units, data.sku) && Total(data.allocations) == data.quantity
    requires b' == Books(DrawnFirst(b.units, data.allocations), b.bins, b.reservations[r := data],
                         b.log + [StockReserved(r, data.sku, data.quantity)])
    ensures Records(b.(units := DrawnFirst(b.units, data.allocations)), r, data, b')
  {
    hide DrawnOn, Total;
  }

  // ---- every use case keeps every law

  /** All that holds between calls. */
  ghost predicate Orderly(b: Books, apart: (Sku, Sku) -> bool) {
    Lawful(b, NoGap()) && OneOpenEach(b) && Segregated(b.units, apart)
  }

  lemma ResolvedOrderly(b: Books, r: ResId, to: Status, b': Books, apart: (Sku, Sku) -> bool)
    requires Orderly(b, apart) && Resolves(b, r, to, b')
    ensures Orderly(b', apart)
  {
    hide Lawful;
    ResolvedLawful(b, r, to, b', NoGap());
    ResolvedInPlace(b, r, to, b');
    SegregatedStable(b.units, b'.units, apart);
    hide Segregated, UnitsSettled, BinsSettled;
  }

  lemma {:induction false} ExpiredOrderly(b: Books, order: seq<ResId>, b': Books, apart: (Sku, Sku) -> bool)
    requires Orderly(b, apart) && Expires(b, order, b')
    ensures Orderly(b', apart)
    decreases |order|
  {
    hide Orderly, Resolves;
    if order != [] {
      var m: Books :| Expires(b, order[..|order| - 1], m) && Resolves(m, order[|order| - 1], EXPIRED, b');
      ExpiredOrderly(b, order[..|order| - 1], m, apart);
      ResolvedOrderly(m, order[|order| - 1], EXPIRED, b', apart);
    }
  }

  lemma AllocatedOrderly(b: Books, r: ResId, data: ResData, order: seq<UnitId>, b': Books, apart: (Sku, Sku) -> bool)
    requires Orderly(b, apart) && Allocates(b, r, data, order, b')
    requires NoReplay(b, data.sku, data.quantity, data.demandRef)
    ensures Orderly(b', apart)
  {
    AllocatesLawful(b, r, data, order, b');
    AllocationFacts(b, r, data, order, b');
    DrawnInPlace(b, data.allocations);
    hide Allocates, Lawful, FairDraw, DrawsOn, DrawnFirst, Total;
    SegregatedStable(b.units, b'.units, apart);
  }

  lemma ReservedOrderly(b: Books, sku: Sku, qty: Quantity, ref: string, clock: Clock, now: Time, timeout: int, b': Books,
                        out: Result<ResId>, apart: (Sku, Sku) -> bool)
    requires Orderly(b, apart) && Reserved(b, sku, qty, ref, clock, now, timeout, b', out)
    ensures Orderly(b', apart)
  {
    hide Orderly, Allocates, Expires;
    if qty > 0 {
      var m: Books :| ExpiresDue(b, ref, clock, m) && ReservesOrReplays(m, sku, qty, ref, now, timeout, b', out);
      var due: seq<ResId> :| OrderOf(due, DueOf(b, ref, clock)) && Expires(b, due, m);
      ExpiredOrderly(b, due, m, apart);
      if out.Ok? && out.value !in m.reservations {
        var order: seq<UnitId> :| Allocates(m, out.value, b'.reservations[out.value], order, b');
        AllocatedOrderly(m, out.value, b'.reservations[out.value], order, b', apart);
      }
    }
  }

  lemma StowedOrderly(b: Books, id: UnitId, unit: UnitData, b': Books, apart: (Sku, Sku) -> bool)
    requires Orderly(b, apart) && Stows(b, id, unit, b') && NoClash(b.units, unit.sku, unit.bin, apart)
    requires forall s, t :: apart(s, t) == apart(t, s)
    ensures Orderly(b', apart)
  {
    hide Lawful;
    StowedLawful(b, id, unit, b', NoGap());
    SegregatedStow(b.units, id, unit, apart);
  }

  lemma FlaggedOrderly(b: Books, lost: set<UnitId>, b': Books, events: seq<Event>, apart: (Sku, Sku) -> bool)
    requires Orderly(b, apart) && Flags(b, lost, b', events)
    ensures Orderly(b', apart)
  {
    hide Lawful;
    FlaggedLawful(b, lost, b', events, NoGap());
    SegregatedStable(b.units, b'.units, apart);
  }

  lemma BinSetOrderly(b: Books, k: BinId, data: BinData, b': Books, apart: (Sku, Sku) -> bool)
    requires Orderly(b, apart) && SetsBin(b, k, data, b')
    ensures Orderly(b', apart)
  {
    hide Lawful;
    BinSetLawful(b, k, data, b', NoGap());
  }

  /** Every call keeps the ledger exact, bins balanced, the log audited, one open reservation each, bins segregated. */
  lemma CallKeepsOrder(b: Books, b': Books, apart: (Sku, Sku) -> bool)
    requires Orderly(b, apart) && CallStep(b, b', apart) && forall s, t :: apart(s, t) == apart(t, s)
    ensures Orderly(b', apart)
  {
    hide Orderly, Reserved, Resolves, Stows, SetsBin, Flags, NoClash, Expires, Count;
    if sku, qty, bin, placement, out :|
      Stowed(b, sku, qty, bin, placement, b', out) && (placement == Pass ==> NoClash(b.units, sku, bin, apart)) {
      if b' != b {
        StowedOrderly(b, out.value, NewUnit(sku, bin, qty).value, b', apart);
      }
    } else if sku, qty, ref, clock, now, timeout, out :| Reserved(b, sku, qty, ref, clock, now, timeout, b', out) {
      ReservedOrderly(b, sku, qty, ref, clock, now, timeout, b', out, apart);
    } else if r, now, out :| Revoked(b, r, now, b', out) {
      if b' != b {
        ResolvedOrderly(b, r, if b.reservations[r].IsExpired(now) then EXPIRED else REVOKED, b', apart);
      }
    } else if r, first, second, out :| Confirmed(b, r, first, second, b', out) {
      if b' != b {
        ResolvedOrderly(b, r, if b.reservations[r].IsExpired(first) then EXPIRED else CONFIRMED, b', apart);
      }
    } else if bin, counted, out :| Counted(b, bin, counted, b', out) {
      CountedOrderly(b, bin, counted, b', out, apart);
    } else if bin, capacity, out :| Registered(b, bin, capacity, b', out) {
      if b' != b {
        BinSetOrderly(b, bin, BinData(capacity, if bin in b.bins then b.bins[bin].occupied else 0), b', apart);
      }
    } else if ref, clock :| ExpiresDue(b, ref, clock, b') {
      var due: seq<ResId> :| OrderOf(due, DueOf(b, ref, clock)) && Expires(b, due, b');
      ExpiredOrderly(b, due, b', apart);
    }
  }

  lemma CountedOrderly(b: Books, bin: BinId, counted: Quantity, b': Books, out: CountReport, apart: (Sku, Sku) -> bool)
    requires Orderly(b, apart) && Counted(b, bin, counted, b', out)
    ensures Orderly(b', apart)
  {
    hide Orderly, Flags, Count, LostUnits;
    var order: seq<UnitId> :| OrderOf(order, UnitsIn(b.units, bin)) && CountedInOrder(b, bin, counted, order, b', out);
    var c := Count(bin, counted, order, b.units);
    FlaggedOrderly(b, LostUnits(c.lost), b', c.events, apart);
  }

  lemma NothingIsOrderly(apart: (Sku, Sku) -> bool)
    ensures Orderly(NO_BOOKS, apart)
  {
    assert forall sku :: SkuAudited(NO_BOOKS, sku) && SkuCounted(NO_BOOKS, sku);
  }

  /** The laws hold after every prefix of every sequence of use cases, with no gap at all between ledger and claims. */
  lemma {:induction false} CallRunOrderly(trace: seq<Books>, apart: (Sku, Sku) -> bool, i: nat)
    requires CallRun(trace, apart) && i < |trace| && forall s, t :: apart(s, t) == apart(t, s)
    ensures Orderly(trace[i], apart)
  {
    if i == 0 {
      NothingIsOrderly(apart);
    } else {
      hide Orderly, CallStep;
      CallRunOrderly(trace, apart, i - 1);
      assert CallStep(trace[i - 1], trace[i - 1 + 1], apart);
      CallKeepsOrder(trace[i - 1], trace[i], apart);
    }
  }
}
