/** The changes the books go through, and the proof that each keeps every law. */
module Transitions {
  import opened Shared
  import opened Stock
  import opened Location
  import opened Claims
  import opened Sums
  import opened Ledger

  /** Units keep their SKU and bin for good. */
  ghost predicate SamePlaces(units: Units, units': Units) {
    forall u :: u in units ==> u in units' && units'[u].sku == units[u].sku && units'[u].bin == units[u].bin
  }

  lemma ClaimsStable(units: Units, units': Units, reservations: Reservations)
    requires ClaimsSound(units, reservations) && SamePlaces(units, units')
    ensures ClaimsSound(units', reservations)
  {
    forall r | r in reservations ensures DrawsOn(reservations[r].allocations, units', reservations[r].sku) {
      assert DrawsOn(reservations[r].allocations, units, reservations[r].sku);
    }
  }

  // ---- resolving a reservation

  /** A unit after a resolution took q of its reserved stock: picked on confirmation, released otherwise. */
  function Settled(to: Status, d: UnitData, q: Quantity): UnitData {
    if q == 0 then d
    else match if to == CONFIRMED then d.Pick(q) else d.ReleaseReservation(q)
         case Ok(v) => v
         case Err(_) => d
  }

  /** The units after a resolution of these allocations, and no other change. */
  ghost predicate UnitsSettled(units: Units, allocs: seq<Allocation>, to: Status, units': Units) {
    && units'.Keys == units.Keys
    && forall u :: u in units ==> units'[u] == Settled(to, units[u], DrawnOn(allocs, u))
  }

  /** The bins after a resolution: a confirmation frees in each bin what was allocated there. */
  ghost predicate BinsSettled(bins: Bins, allocs: seq<Allocation>, to: Status, bins': Bins) {
    && bins'.Keys == bins.Keys
    && forall k :: k in bins ==>
         && bins'[k].capacity == bins[k].capacity
         && bins'[k].occupied == bins[k].occupied - if to == CONFIRMED then DrawnFrom(allocs, k) else 0
  }

  function ResolutionEvent(r: ResId, data: ResData, to: Status): Event {
    match to
    case CONFIRMED => StockPicked(r, data.sku, data.quantity)
    case REVOKED => ReservationRevoked(r, data.sku)
    case _ => ReservationExpired(r, data.sku)
  }

  /** The whole effect of ACTIVE reservation r resolving to a status: units, bins, the reservation and the event. */
  ghost predicate Resolves(b: Books, r: ResId, to: Status, b': Books) {
    && to != ACTIVE && r in b.reservations && b.reservations[r].status == ACTIVE
    && UnitsSettled(b.units, b.reservations[r].allocations, to, b'.units)
    && BinsSettled(b.bins, b.reservations[r].allocations, to, b'.bins)
    && b'.reservations == b.reservations[r := b.reservations[r].(status := to)]
    && b'.log == b.log + [ResolutionEvent(r, b.reservations[r], to)]
  }

  lemma ResolvedInPlace(b: Books, r: ResId, to: Status, b': Books)
    requires Resolves(b, r, to, b')
    ensures b'.units.Keys == b.units.Keys && SamePlaces(b.units, b'.units)
  {
    hide DrawnOn, DrawnFrom;
  }

  /** Every unit can give up what the allocations drew from it. */
  ghost predicate Holds(units: Units, allocs: seq<Allocation>) {
    forall u :: u in units ==> DrawnOn(allocs, u) <= units[u].reserved <= units[u].quantity
  }

  /** What an ACTIVE reservation drew from a unit is still reserved there. */
  lemma ActiveIsHeld(b: Books, r: ResId, gap: UnitId -> nat)
    requires UnitsSound(b.units) && Covered(b.units, b.reservations, gap)
    requires r in b.reservations && b.reservations[r].status == ACTIVE
    ensures Holds(b.units, b.reservations[r].allocations)
  {
    forall u | u in b.units
      ensures DrawnOn(b.reservations[r].allocations, u) <= b.units[u].reserved
    {
      SumAtLeast(b.reservations, r, ActiveDraw(u));
    }
  }

  function Chosen(allocs: seq<Allocation>, units: Units, sel: Selector): nat
    requires forall i :: 0 <= i < |allocs| ==> allocs[i].unit in units
  {
    if allocs == [] then 0
    else
      var a := allocs[|allocs| - 1];
      Chosen(allocs[..|allocs| - 1], units, sel) + if sel.Has(units[a.unit]) then a.quantity else 0
  }

  lemma {:induction false} ChosenInBin(allocs: seq<Allocation>, units: Units, sku: Sku, b: BinId)
    requires DrawsOn(allocs, units, sku)
    ensures Chosen(allocs, units, InBin(b)) == DrawnFrom(allocs, b)
  {
    if allocs != [] {
      ChosenInBin(allocs[..|allocs| - 1], units, sku, b);
    }
  }

  lemma {:induction false} ChosenOfSku(allocs: seq<Allocation>, units: Units, sku: Sku, s: Sku)
    requires DrawsOn(allocs, units, sku)
    ensures Chosen(allocs, units, OfSku(s)) == if s == sku then Total(allocs) else 0
  {
    if allocs != [] {
      ChosenOfSku(allocs[..|allocs| - 1], units, sku, s);
    }
  }

  /** Undoing the last allocation of a resolution leaves the resolution of the others. */
  lemma SettledButLast(units: Units, allocs: seq<Allocation>, sku: Sku, to: Status, units': Units)
    requires DrawsOn(allocs, units, sku) && Holds(units, allocs) && UnitsSettled(units, allocs, to, units')
    requires allocs != []
    ensures var n := |allocs| - 1;
      && UnitsSettled(units, allocs[..n], to, units'[allocs[n].unit := units[allocs[n].unit]])
      && Holds(units, allocs[..n])
      && DrawsOn(allocs[..n], units, sku)
      && allocs[n].quantity <= units[allocs[n].unit].reserved <= units[allocs[n].unit].quantity
      && units'[allocs[n].unit] == Settled(to, units[allocs[n].unit], allocs[n].quantity)
  {
    hide DrawnOn;
    DrawnOnButLast(allocs);
    SettledByNothing(to, units[allocs[|allocs| - 1].unit]);
    hide Settled;
  }

  lemma SettledByNothing(to: Status, d: UnitData)
    ensures Settled(to, d, 0) == d
  {
  }

  lemma DrawnOnButLast(allocs: seq<Allocation>)
    requires DistinctUnits(allocs) && allocs != []
    ensures var n := |allocs| - 1;
      && DrawnOn(allocs[..n], allocs[n].unit) == 0
      && forall u :: DrawnOn(allocs, u) == if u == allocs[n].unit then allocs[n].quantity else DrawnOn(allocs[..n], u)
  {
    DrawnOnAbsent(allocs[..|allocs| - 1], allocs[|allocs| - 1].unit);
  }

  /** One unit's pick, seen from a sum of quantities. */
  lemma PickedQuantity(units: Units, u: UnitId, q: Quantity, sel: Selector)
    requires u in units && q <= units[u].reserved <= units[u].quantity
    ensures OnHand(units[u := Settled(CONFIRMED, units[u], q)], sel) ==
            OnHand(units, sel) - if sel.Has(units[u]) then q else 0
  {
    SumUpdate(units, u, Settled(CONFIRMED, units[u], q), Quantities(sel));
  }

  /** Picking a reservation takes from every selection exactly what was allocated within it. */
  lemma {:induction false} PickedOnHand(units: Units, allocs: seq<Allocation>, sku: Sku, sel: Selector, units': Units)
    requires DrawsOn(allocs, units, sku) && Holds(units, allocs) && UnitsSettled(units, allocs, CONFIRMED, units')
    ensures OnHand(units', sel) == OnHand(units, sel) - Chosen(allocs, units, sel)
    decreases |allocs|
  {
    if allocs == [] {
      assert units' == units;
    } else {
      var n := |allocs| - 1;
      var a := allocs[n];
      var before := units'[a.unit := units[a.unit]];
      SettledButLast(units, allocs, sku, CONFIRMED, units');
      PickedOnHand(units, allocs[..n], sku, sel, before);
      PickedQuantity(before, a.unit, a.quantity, sel);
      assert units' == before[a.unit := units'[a.unit]];
    }
  }

  /** Units whose place and quantity did not change have the same stock on hand. */
  lemma SameOnHand(units: Units, units': Units, sel: Selector)
    requires units'.Keys == units.Keys && SamePlaces(units, units')
    requires forall u :: u in units ==> units'[u].quantity == units[u].quantity
    ensures OnHand(units', sel) == OnHand(units, sel)
  {
    SumCongruence(units', units, Quantities(sel), Quantities(sel));
  }

  lemma ResolvedCovered(b: Books, r: ResId, to: Status, b': Books, gap: UnitId -> nat)
    requires UnitsSound(b.units) && Covered(b.units, b.reservations, gap) && Resolves(b, r, to, b')
    ensures UnitsSound(b'.units) && Covered(b'.units, b'.reservations, gap)
  {
    hide DrawnOn, Settled, BinsSettled;
    ActiveIsHeld(b, r, gap);
    forall u | u in b'.units
      ensures b'.units[u].Sound() && b'.units[u].reserved == Active(b'.reservations, u) + gap(u)
    {
      assert b.units[u].Sound() && b.units[u].reserved == Active(b.reservations, u) + gap(u);
      SettledSound(to, b.units[u], DrawnOn(b.reservations[r].allocations, u));
      SumUpdate(b.reservations, r, b.reservations[r].(status := to), ActiveDraw(u));
    }
  }

  lemma SettledSound(to: Status, d: UnitData, q: Quantity)
    requires d.Sound() && q <= d.reserved
    ensures Settled(to, d, q).Sound() && Settled(to, d, q).reserved == d.reserved - q
  {
  }

  /** On hand after a resolution: less what was allocated within the selection if it was picked, else unchanged. */
  lemma ResolvedOnHand(b: Books, r: ResId, to: Status, b': Books, sel: Selector)
    requires Resolves(b, r, to, b')
    requires Holds(b.units, b.reservations[r].allocations)
    requires DrawsOn(b.reservations[r].allocations, b.units, b.reservations[r].sku)
    ensures OnHand(b'.units, sel) ==
            OnHand(b.units, sel) - if to == CONFIRMED then Chosen(b.reservations[r].allocations, b.units, sel) else 0
  {
    if to == CONFIRMED {
      PickedOnHand(b.units, b.reservations[r].allocations, b.reservations[r].sku, sel, b'.units);
    } else {
      SameOnHand(b.units, b'.units, sel);
    }
  }

  lemma ResolvedBalanced(b: Books, r: ResId, to: Status, b': Books)
    requires Resolves(b, r, to, b')
    requires Holds(b.units, b.reservations[r].allocations)
    requires DrawsOn(b.reservations[r].allocations, b.units, b.reservations[r].sku)
    requires BinsBalanced(b.units, b.bins)
    ensures BinsBalanced(b'.units, b'.bins)
  {
    forall k | k in b'.bins
      ensures b'.bins[k].occupied == OnHand(b'.units, InBin(k)) && b'.bins[k].occupied <= b'.bins[k].capacity
    {
      ResolvedOnHand(b, r, to, b', InBin(k));
      ChosenInBin(b.reservations[r].allocations, b.units, b.reservations[r].sku, k);
    }
  }

  lemma ResolvedSkuAudited(b: Books, r: ResId, to: Status, b': Books, sku: Sku)
    requires Resolves(b, r, to, b')
    requires Holds(b.units, b.reservations[r].allocations)
    requires DrawsOn(b.reservations[r].allocations, b.units, b.reservations[r].sku)
    requires Total(b.reservations[r].allocations) == b.reservations[r].quantity
    requires SkuAudited(b, sku)
    ensures SkuAudited(b', sku)
  {
    var data := b.reservations[r];
    var event := ResolutionEvent(r, data, to);
    TallyAppend(b.log, event, StowedQty(sku));
    TallyAppend(b.log, event, PickedQty(sku));
    SumUpdate(b.reservations, r, data.(status := to), ConfirmedQty(sku));
    ResolvedOnHand(b, r, to, b', OfSku(sku));
    ChosenOfSku(data.allocations, b.units, data.sku, sku);
  }

  lemma ResolvedSkuCounted(b: Books, r: ResId, to: Status, b': Books, sku: Sku)
    requires Resolves(b, r, to, b') && SkuCounted(b, sku)
    ensures SkuCounted(b', sku)
  {
    var data := b.reservations[r];
    var event := ResolutionEvent(r, data, to);
    TallyAppend(b.log, event, CreatedFor(sku));
    SumUpdate(b.reservations, r, data.(status := to), MadeOf(sku));
    forall t | t != ACTIVE ensures Tally(b'.log, EndedAs(sku, t)) == Sum(b'.reservations, EndedOf(sku, t)) {
      TallyAppend(b.log, event, EndedAs(sku, t));
      SumUpdate(b.reservations, r, data.(status := to), EndedOf(sku, t));
    }
  }

  lemma ResolvedLogged(b: Books, r: ResId, to: Status, b': Books)
    requires Resolves(b, r, to, b') && ResolutionsLogged(b)
    ensures ResolutionsLogged(b')
  {
    forall x, t | t != ACTIVE
      ensures Tally(b'.log, ResolutionOf(x, t)) == if x in b'.reservations && b'.reservations[x].status == t then 1 else 0
    {
      TallyAppend(b.log, ResolutionEvent(r, b.reservations[r], to), ResolutionOf(x, t));
    }
  }

  lemma ResolvedAudited(b: Books, r: ResId, to: Status, b': Books)
    requires Audited(b) && Resolves(b, r, to, b')
    requires Holds(b.units, b.reservations[r].allocations)
    requires DrawsOn(b.reservations[r].allocations, b.units, b.reservations[r].sku)
    requires Total(b.reservations[r].allocations) == b.reservations[r].quantity
    ensures Audited(b')
  {
    hide SkuAudited, SkuCounted, ResolutionsLogged, OnHand, DrawnOn, DrawnFrom, Total, Resolves, Holds, DrawsOn;
    ResolvedLogged(b, r, to, b');
    forall sku ensures SkuAudited(b', sku) && SkuCounted(b', sku) {
      ResolvedSkuAudited(b, r, to, b', sku);
      ResolvedSkuCounted(b, r, to, b', sku);
    }
  }

  /** Confirming, revoking or expiring an ACTIVE reservation keeps every law. */
  lemma ResolvedLawful(b: Books, r: ResId, to: Status, b': Books, gap: UnitId -> nat)
    requires Lawful(b, gap) && Resolves(b, r, to, b')
    ensures Lawful(b', gap)
  {
    hide Audited, OnHand, Active, DrawnOn, DrawnFrom, Total;
    ActiveIsHeld(b, r, gap);
    ResolvedCovered(b, r, to, b', gap);
    ResolvedBalanced(b, r, to, b');
    ClaimsStable(b.units, b'.units, b.reservations);
    ResolvedAudited(b, r, to, b');
  }

  // ---- events that no law counts

  predicate Quiet(e: Event) {
    e.StockReceived? || e.LocationRecorded? || e.DiscrepancyDetected? || e.ItemUnlocated? || e.CycleCountCompleted?
  }

  lemma QuietTallies(log: seq<Event>, events: seq<Event>, sku: Sku)
    requires forall i :: 0 <= i < |events| ==> Quiet(events[i])
    ensures Tally(log + events, StowedQty(sku)) == Tally(log, StowedQty(sku))
    ensures Tally(log + events, PickedQty(sku)) == Tally(log, PickedQty(sku))
  {
    TallyConcat(log, events, StowedQty(sku));
    TallyConcat(log, events, PickedQty(sku));
    TallyZero(events, StowedQty(sku));
    TallyZero(events, PickedQty(sku));
  }

  /** Events that concern no reservation, and unchanged reservations, keep the counts. */
  lemma QuietCounts(b: Books, b': Books, events: seq<Event>, sku: Sku)
    requires SkuCounted(b, sku) && b'.reservations == b.reservations && b'.log == b.log + events
    requires forall i :: 0 <= i < |events| ==> events[i].ItemStowed? || Quiet(events[i])
    ensures SkuCounted(b', sku)
  {
    TallyConcat(b.log, events, CreatedFor(sku));
    TallyZero(events, CreatedFor(sku));
    forall t | t != ACTIVE ensures Tally(b'.log, EndedAs(sku, t)) == Tally(b.log, EndedAs(sku, t)) {
      TallyConcat(b.log, events, EndedAs(sku, t));
      TallyZero(events, EndedAs(sku, t));
    }
  }

  lemma QuietResolutions(log: seq<Event>, events: seq<Event>, r: ResId, to: Status)
    requires forall i :: 0 <= i < |events| ==> events[i].ItemStowed? || events[i].StockReserved? || Quiet(events[i])
    ensures Tally(log + events, ResolutionOf(r, to)) == Tally(log, ResolutionOf(r, to))
  {
    TallyConcat(log, events, ResolutionOf(r, to));
    TallyZero(events, ResolutionOf(r, to));
  }

  // ---- reserving

  /** A reserve draws on one unit, ahead of the reservation it is for. */
  ghost predicate Draws(b: Books, u: UnitId, take: Quantity, b': Books) {
    && take > 0 && u in b.units && b.units[u].Reserve(take).Ok?
    && b' == b.(units := b.units[u := b.units[u].Reserve(take).value])
  }

  /** Drawing on a unit widens the gap on that unit by exactly the draw. */
  lemma DrawnLawful(b: Books, u: UnitId, take: Quantity, b': Books, gap: UnitId -> nat, gap': UnitId -> nat)
    requires Lawful(b, gap) && Draws(b, u, take, b')
    requires forall x :: gap'(x) == gap(x) + if x == u then take else 0
    ensures Lawful(b', gap')
  {
    hide OnHand, Active, SkuAudited, SkuCounted, ResolutionsLogged, DrawsOn, Total;
    DrawnCovered(b, u, take, b', gap, gap');
    assert b'.log == b.log + [];
    QuietLawful(b, b', [], gap');
  }

  lemma DrawnCovered(b: Books, u: UnitId, take: Quantity, b': Books, gap: UnitId -> nat, gap': UnitId -> nat)
    requires UnitsSound(b.units) && Covered(b.units, b.reservations, gap) && Draws(b, u, take, b')
    requires forall x :: gap'(x) == gap(x) + if x == u then take else 0
    ensures UnitsSound(b'.units) && Covered(b'.units, b'.reservations, gap')
  {
    forall x | x in b'.units
      ensures b'.units[x].Sound() && b'.units[x].reserved == Active(b'.reservations, x) + gap'(x)
    {
      assert b.units[x].Sound() && b.units[x].reserved == Active(b.reservations, x) + gap(x);
    }
  }

  /** A reservation is recorded for draws made before: it takes them out of the gap. */
  ghost predicate Records(b: Books, r: ResId, data: ResData, b': Books) {
    && r !in b.reservations && data.status == ACTIVE
    && DrawsOn(data.allocations, b.units, data.sku) && Total(data.allocations) == data.quantity
    && b' == b.(reservations := b.reservations[r := data], log := b.log + [StockReserved(r, data.sku, data.quantity)])
  }

  lemma RecordedLawful(b: Books, r: ResId, data: ResData, b': Books, gap: UnitId -> nat, gap': UnitId -> nat)
    requires Lawful(b, gap) && Records(b, r, data, b')
    requires forall x :: gap(x) == gap'(x) + DrawnOn(data.allocations, x)
    ensures Lawful(b', gap')
  {
    hide OnHand, Audited;
    forall u | u in b'.units ensures b'.units[u].reserved == Active(b'.reservations, u) + gap'(u) {
      SumUpdate(b.reservations, r, data, ActiveDraw(u));
    }
    RecordedAudited(b, r, data, b');
  }

  lemma RecordedAudited(b: Books, r: ResId, data: ResData, b': Books)
    requires Audited(b) && Records(b, r, data, b')
    ensures Audited(b')
  {
    hide DrawsOn, Total;
    var event := StockReserved(r, data.sku, data.quantity);
    forall sku ensures SkuAudited(b', sku) && SkuCounted(b', sku) {
      assert SkuAudited(b, sku) && SkuCounted(b, sku);
      TallyAppend(b.log, event, StowedQty(sku));
      TallyAppend(b.log, event, PickedQty(sku));
      SumUpdate(b.reservations, r, data, ConfirmedQty(sku));
      RecordedCounted(b, r, data, b', sku);
    }
    forall x, t | t != ACTIVE
      ensures Tally(b'.log, ResolutionOf(x, t)) == if x in b'.reservations && b'.reservations[x].status == t then 1 else 0
    {
      QuietResolutions(b.log, [event], x, t);
    }
  }

  lemma RecordedCounted(b: Books, r: ResId, data: ResData, b': Books, sku: Sku)
    requires Records(b, r, data, b') && SkuCounted(b, sku)
    ensures SkuCounted(b', sku)
  {
    var event := StockReserved(r, data.sku, data.quantity);
    TallyAppend(b.log, event, CreatedFor(sku));
    SumUpdate(b.reservations, r, data, MadeOf(sku));
    forall t | t != ACTIVE ensures Tally(b'.log, EndedAs(sku, t)) == Sum(b'.reservations, EndedOf(sku, t)) {
      TallyAppend(b.log, event, EndedAs(sku, t));
      SumUpdate(b.reservations, r, data, EndedOf(sku, t));
    }
  }

  // ---- changes that move no stock and resolve nothing: draws, cycle counts

  /** Units keep place and quantity, reservations and bins stay, and the new events are quiet. */
  ghost predicate Unmoved(b: Books, b': Books, events: seq<Event>) {
    && b'.units.Keys == b.units.Keys && SamePlaces(b.units, b'.units)
    && (forall u :: u in b.units ==> b'.units[u].quantity == b.units[u].quantity)
    && b'.reservations == b.reservations && b'.bins == b.bins
    && b'.log == b.log + events && (forall i :: 0 <= i < |events| ==> Quiet(events[i]))
  }

  lemma QuietLawful(b: Books, b': Books, events: seq<Event>, gap': UnitId -> nat)
    requires ClaimsSound(b.units, b.reservations) && BinsBalanced(b.units, b.bins) && Audited(b)
    requires Unmoved(b, b', events)
    requires UnitsSound(b'.units) && Covered(b'.units, b'.reservations, gap')
    ensures Lawful(b', gap')
  {
    ClaimsStable(b.units, b'.units, b.reservations);
    forall k | k in b.bins ensures OnHand(b'.units, InBin(k)) == b'.bins[k].occupied {
      SameOnHand(b.units, b'.units, InBin(k));
    }
    forall sku ensures SkuAudited(b', sku) && SkuCounted(b', sku) {
      assert SkuAudited(b, sku) && SkuCounted(b, sku);
      SameOnHand(b.units, b'.units, OfSku(sku));
      QuietTallies(b.log, events, sku);
      QuietCounts(b, b', events, sku);
    }
    forall x, t | t != ACTIVE
      ensures Tally(b'.log, ResolutionOf(x, t)) == if x in b'.reservations && b'.reservations[x].status == t then 1 else 0
    {
      QuietResolutions(b.log, events, x, t);
    }
  }

  /** A cycle count flags some locatable units as unlocated and changes nothing else about them. */
  ghost predicate Flags(b: Books, lost: set<UnitId>, b': Books, events: seq<Event>) {
    && Unmoved(b, b', events)
    && forall u :: u in b.units ==>
         && (u in lost ==> b.units[u].Locatable())
         && b'.units[u] == if u in lost then b.units[u].MarkUnlocated() else b.units[u]
  }

  lemma FlaggedLawful(b: Books, lost: set<UnitId>, b': Books, events: seq<Event>, gap: UnitId -> nat)
    requires Lawful(b, gap) && Flags(b, lost, b', events)
    ensures Lawful(b', gap)
  {
    FlaggedCovered(b, lost, b', events, gap);
    hide OnHand, Active, SkuAudited, SkuCounted, ResolutionsLogged, DrawsOn, Total, Flags;
    QuietLawful(b, b', events, gap);
  }

  lemma FlaggedCovered(b: Books, lost: set<UnitId>, b': Books, events: seq<Event>, gap: UnitId -> nat)
    requires UnitsSound(b.units) && Covered(b.units, b.reservations, gap) && Flags(b, lost, b', events)
    ensures UnitsSound(b'.units) && Covered(b'.units, b'.reservations, gap) && Unmoved(b, b', events)
  {
    hide Active;
  }

  // ---- stowing and registering

  /** New stock enters a bin: the unit, the bin's occupancy and both events. */
  ghost predicate Stows(b: Books, id: UnitId, unit: UnitData, b': Books) {
    && id !in b.units && unit.bin in b.bins
    && NewUnit(unit.sku, unit.bin, unit.quantity) == Ok(unit)
    && b.bins[unit.bin].Occupy(unit.quantity).Ok?
    && b' == Books(b.units[id := unit], b.bins[unit.bin := b.bins[unit.bin].Occupy(unit.quantity).value], b.reservations,
                   b.log + [ItemStowed(unit.sku, unit.bin, unit.quantity), LocationRecorded(id, unit.bin)])
  }

  lemma StowedAudited(b: Books, id: UnitId, unit: UnitData, b': Books)
    requires Audited(b) && Stows(b, id, unit, b')
    ensures Audited(b')
  {
    var stowed, recorded := ItemStowed(unit.sku, unit.bin, unit.quantity), LocationRecorded(id, unit.bin);
    assert b'.log == (b.log + [stowed]) + [recorded];
    forall sku ensures SkuAudited(b', sku) && SkuCounted(b', sku) {
      assert SkuAudited(b, sku) && SkuCounted(b, sku);
      TallyAppend(b.log, stowed, StowedQty(sku));
      TallyAppend(b.log, stowed, PickedQty(sku));
      QuietTallies(b.log + [stowed], [recorded], sku);
      QuietCounts(b, b', [stowed, recorded], sku);
      SumUpdate(b.units, id, unit, Quantities(OfSku(sku)));
    }
    forall x, t | t != ACTIVE
      ensures Tally(b'.log, ResolutionOf(x, t)) == if x in b'.reservations && b'.reservations[x].status == t then 1 else 0
    {
      QuietResolutions(b.log, [stowed, recorded], x, t);
    }
  }

  /** A fresh unit that nothing was drawn on keeps every law. */
  lemma StowedLawful(b: Books, id: UnitId, unit: UnitData, b': Books, gap: UnitId -> nat)
    requires Lawful(b, gap) && Stows(b, id, unit, b') && gap(id) == 0
    ensures Lawful(b', gap)
  {
    StowedAudited(b, id, unit, b');
    ClaimsStable(b.units, b'.units, b.reservations);
    StowedBalanced(b, id, unit, b');
    StowedCovered(b, id, unit, b', gap);
  }

  lemma StowedCovered(b: Books, id: UnitId, unit: UnitData, b': Books, gap: UnitId -> nat)
    requires UnitsSound(b.units) && ClaimsSound(b.units, b.reservations) && Covered(b.units, b.reservations, gap)
    requires Stows(b, id, unit, b') && gap(id) == 0
    ensures UnitsSound(b'.units) && Covered(b'.units, b'.reservations, gap)
  {
    NothingDrawn(b.units, b.reservations, id);
    forall x | x in b'.units ensures b'.units[x].Sound() && b'.units[x].reserved == Active(b'.reservations, x) + gap(x) {
      if x != id {
        assert b.units[x].Sound() && b.units[x].reserved == Active(b.reservations, x) + gap(x);
      }
    }
  }

  lemma StowedBalanced(b: Books, id: UnitId, unit: UnitData, b': Books)
    requires BinsBalanced(b.units, b.bins) && Stows(b, id, unit, b')
    ensures BinsBalanced(b'.units, b'.bins)
  {
    forall k | k in b'.bins
      ensures b'.bins[k].occupied == OnHand(b'.units, InBin(k)) && b'.bins[k].occupied <= b'.bins[k].capacity
    {
      SumUpdate(b.units, id, unit, Quantities(InBin(k)));
    }
  }

  /** No reservation has drawn on a unit that does not exist. */
  lemma NothingDrawn(units: Units, reservations: Reservations, id: UnitId)
    requires ClaimsSound(units, reservations) && id !in units
    ensures Active(reservations, id) == 0
  {
    forall r | r in reservations ensures ActiveDraw(id)(reservations[r]) == 0 {
      assert DrawsOn(reservations[r].allocations, units, reservations[r].sku);
      DrawnOnAbsent(reservations[r].allocations, id);
    }
    SumZero(reservations, ActiveDraw(id));
  }

  /** A bin is created, or resized: its occupancy is what it was, and an absent or empty bin holds nothing. */
  ghost predicate SetsBin(b: Books, k: BinId, data: BinData, b': Books) {
    && data.occupied == (if k in b.bins then b.bins[k].occupied else 0)
    && data.occupied <= data.capacity
    && b' == b.(bins := b.bins[k := data])
  }

  lemma BinSetLawful(b: Books, k: BinId, data: BinData, b': Books, gap: UnitId -> nat)
    requires Lawful(b, gap) && SetsBin(b, k, data, b')
    ensures Lawful(b', gap)
  {
    assert Audited(b') by {
      forall sku ensures SkuAudited(b', sku) && SkuCounted(b', sku) {
        assert SkuAudited(b, sku) && SkuCounted(b, sku);
      }
    }
    if k !in b.bins {
      SumZero(b.units, Quantities(InBin(k)));
    }
  }

  // ---- segregation

  lemma SegregatedStable(units: Units, units': Units, apart: (Sku, Sku) -> bool)
    requires Segregated(units, apart) && units'.Keys == units.Keys && SamePlaces(units, units')
    ensures Segregated(units', apart)
  {
  }

  /** A new unit checked against every occupant of its bin keeps the bin segregated: this needs a symmetric matrix. */
  lemma SegregatedStow(units: Units, id: UnitId, unit: UnitData, apart: (Sku, Sku) -> bool)
    requires Segregated(units, apart)
    requires forall s, t :: apart(s, t) == apart(t, s)
    requires forall u :: u in units && units[u].bin == unit.bin && units[u].sku != unit.sku ==> !apart(unit.sku, units[u].sku)
    ensures Segregated(units[id := unit], apart)
  {
  }
}
