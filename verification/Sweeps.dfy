/**
 The loop that gives back or picks a reservation's allocations one by one, with every error it could meet, and the
 proof that on lawful books it meets none of them.
 */
module Sweeps {
  import opened Shared
  import opened Claims
  import opened Sums
  import opened Ledger
  import opened Transitions

  /** Units and bins as the loop leaves them, and how it ended. */
  datatype Swept = Swept(units: Units, bins: Bins, out: Outcome)

  /** One allocation's slice: the unit is looked up, changed and saved, and for a pick its bin after it. */
  function SweepOne(units: Units, bins: Bins, a: Allocation, to: Status): Swept {
    if a.unit !in units then Swept(units, bins, Fail(StockUnitNotFound))
    else
      match if to == CONFIRMED then units[a.unit].Pick(a.quantity) else units[a.unit].ReleaseReservation(a.quantity)
      case Err(e) => Swept(units, bins, Fail(e))
      case Ok(unit) =>
        var saved := units[a.unit := unit];
        if to != CONFIRMED then Swept(saved, bins, Pass)
        else if unit.bin !in bins then Swept(saved, bins, Fail(BinNotFound))
        else
          match bins[unit.bin].Release(a.quantity)
          case Err(e) => Swept(saved, bins, Fail(e))
          case Ok(bin) => Swept(saved, bins[unit.bin := bin], Pass)
  }

  /** The loop: it stops at the first error, and what it saved before stays saved. */
  function Sweep(units: Units, bins: Bins, allocs: seq<Allocation>, to: Status): Swept {
    if allocs == [] then Swept(units, bins, Pass)
    else
      var before := Sweep(units, bins, allocs[..|allocs| - 1], to);
      if before.out.Fail? then before else SweepOne(before.units, before.bins, allocs[|allocs| - 1], to)
  }

  lemma SweepNothing(units: Units, bins: Bins, allocs: seq<Allocation>, to: Status)
    ensures Sweep(units, bins, allocs[..0], to) == Swept(units, bins, Pass)
  {
  }

  lemma SweepNext(units: Units, bins: Bins, allocs: seq<Allocation>, n: nat, to: Status)
    requires n < |allocs|
    ensures var before := Sweep(units, bins, allocs[..n], to);
      before.out == Pass ==> Sweep(units, bins, allocs[..n + 1], to) == SweepOne(before.units, before.bins, allocs[n], to)
  {
    assert allocs[..n + 1][..n] == allocs[..n];
  }

  /** Once the loop has stopped, the rest of the list changes nothing. */
  lemma {:induction false} SweepStops(units: Units, bins: Bins, allocs: seq<Allocation>, n: nat, to: Status)
    requires n <= |allocs| && Sweep(units, bins, allocs[..n], to).out.Fail?
    ensures Sweep(units, bins, allocs, to) == Sweep(units, bins, allocs[..n], to)
    decreases |allocs|
  {
    if n < |allocs| {
      assert allocs[..|allocs| - 1][..n] == allocs[..n];
      SweepStops(units, bins, allocs[..|allocs| - 1], n, to);
    } else {
      assert allocs[..n] == allocs;
    }
  }

  /** Every bin holds at least what the allocations would free in it. */
  ghost predicate BinsHold(bins: Bins, allocs: seq<Allocation>) {
    forall i :: 0 <= i < |allocs| ==> allocs[i].bin in bins && DrawnFrom(allocs, allocs[i].bin) <= bins[allocs[i].bin].occupied
  }

  lemma {:induction false} DrawnFromGrowsTo(allocs: seq<Allocation>, n: nat, k: BinId)
    requires n <= |allocs|
    ensures DrawnFrom(allocs[..n], k) <= DrawnFrom(allocs, k)
    decreases |allocs|
  {
    if n < |allocs| {
      assert allocs[..|allocs| - 1][..n] == allocs[..n];
      DrawnFromGrowsTo(allocs[..|allocs| - 1], n, k);
    } else {
      assert allocs[..n] == allocs;
    }
  }

  /** One more allocation settled. */
  lemma SweepOneSettles(units: Units, bins: Bins, allocs: seq<Allocation>, sku: Sku, to: Status, m: Swept)
    requires allocs != [] && DrawsOn(allocs, units, sku) && Holds(units, allocs) && to != ACTIVE
    requires to == CONFIRMED ==> BinsHold(bins, allocs)
    requires var front := allocs[..|allocs| - 1];
      UnitsSettled(units, front, to, m.units) && BinsSettled(bins, front, to, m.bins)
    ensures var r := SweepOne(m.units, m.bins, allocs[|allocs| - 1], to);
      r.out == Pass && UnitsSettled(units, allocs, to, r.units) && BinsSettled(bins, allocs, to, r.bins)
  {
    DrawnOnButLast(allocs);
    var n := |allocs| - 1;
    var a := allocs[n];
    assert a.unit in units && a.quantity > 0 && DrawnOn(allocs, a.unit) == a.quantity && DrawnOn(allocs[..n], a.unit) == 0;
    assert m.units[a.unit] == units[a.unit];
    if to == CONFIRMED {
      assert a.bin in bins && DrawnFrom(allocs, a.bin) <= bins[a.bin].occupied;
      DrawnFromByLast(allocs);
    }
    hide DrawnOn, DrawnFrom;
  }

  lemma DrawnFromByLast(allocs: seq<Allocation>)
    requires allocs != []
    ensures var n := |allocs| - 1;
      forall k :: DrawnFrom(allocs, k) == DrawnFrom(allocs[..n], k) + if allocs[n].bin == k then allocs[n].quantity else 0
  {
  }

  /** On units and bins that hold what was allocated, the loop ends without error and settles everything. */
  lemma {:induction false} SweepSettles(units: Units, bins: Bins, allocs: seq<Allocation>, sku: Sku, to: Status)
    requires DrawsOn(allocs, units, sku) && Holds(units, allocs) && to != ACTIVE
    requires to == CONFIRMED ==> BinsHold(bins, allocs)
    ensures var r := Sweep(units, bins, allocs, to);
      r.out == Pass && UnitsSettled(units, allocs, to, r.units) && BinsSettled(bins, allocs, to, r.bins)
    decreases |allocs|
  {
    if allocs == [] {
    } else {
      hide SweepOne, DrawnOn, UnitsSettled, BinsSettled;
      var front := allocs[..|allocs| - 1];
      HeldButLast(units, bins, allocs, sku, to);
      SweepSettles(units, bins, front, sku, to);
      SweepOneSettles(units, bins, allocs, sku, to, Sweep(units, bins, front, to));
    }
  }

  lemma HeldButLast(units: Units, bins: Bins, allocs: seq<Allocation>, sku: Sku, to: Status)
    requires allocs != [] && DrawsOn(allocs, units, sku) && Holds(units, allocs)
    requires to == CONFIRMED ==> BinsHold(bins, allocs)
    ensures var front := allocs[..|allocs| - 1];
      DrawsOn(front, units, sku) && Holds(units, front) && (to == CONFIRMED ==> BinsHold(bins, front))
  {
    DrawnOnButLast(allocs);
    DrawnFromByLast(allocs);
    hide DrawnOn, DrawnFrom;
    var front := allocs[..|allocs| - 1];
    if to == CONFIRMED {
      forall i | 0 <= i < |front|
        ensures front[i].bin in bins && DrawnFrom(front, front[i].bin) <= bins[front[i].bin].occupied
      {
        assert front[i] == allocs[i];
      }
    }
  }

  /** What is allocated within a selection is on hand there. */
  lemma ChosenIsOnHand(units: Units, allocs: seq<Allocation>, sku: Sku, sel: Selector)
    requires DrawsOn(allocs, units, sku) && Holds(units, allocs)
    ensures Chosen(allocs, units, sel) <= OnHand(units, sel)
  {
    var units' := map u | u in units :: Settled(CONFIRMED, units[u], DrawnOn(allocs, u));
    PickedOnHand(units, allocs, sku, sel, units');
    SumNonNegative(units', Quantities(sel));
  }

  /** An ACTIVE reservation's bins exist and hold what it allocated there. */
  lemma ActiveBinsHold(b: Books, r: ResId)
    requires Lawful(b, NoGap()) && r in b.reservations && b.reservations[r].status == ACTIVE
    ensures BinsHold(b.bins, b.reservations[r].allocations)
  {
    hide OnHand, Active, Audited, DrawnOn, DrawnFrom, Total;
    ActiveIsHeld(b, r, NoGap());
    var allocs, sku := b.reservations[r].allocations, b.reservations[r].sku;
    assert DrawsOn(allocs, b.units, sku);
    forall i | 0 <= i < |allocs|
      ensures allocs[i].bin in b.bins && DrawnFrom(allocs, allocs[i].bin) <= b.bins[allocs[i].bin].occupied
    {
      var k := allocs[i].bin;
      assert b.units[allocs[i].unit].bin == k;
      ChosenInBin(allocs, b.units, sku, k);
      ChosenIsOnHand(b.units, allocs, sku, InBin(k));
    }
  }

  /**
   No stuck resolution: on lawful books, giving back or picking an ACTIVE reservation meets no missing unit or bin,
   no short reserve and no short occupancy, and leaves exactly what the resolution should.
   */
  lemma ActiveResolves(b: Books, r: ResId, to: Status)
    requires Lawful(b, NoGap()) && r in b.reservations && b.reservations[r].status == ACTIVE && to != ACTIVE
    ensures var swept := Sweep(b.units, b.bins, b.reservations[r].allocations, to);
      && swept.out == Pass
      && Resolves(b, r, to, Books(swept.units, swept.bins, b.reservations[r := b.reservations[r].(status := to)],
                                  b.log + [ResolutionEvent(r, b.reservations[r], to)]))
  {
    hide Sweep, UnitsSettled, BinsSettled, DrawnOn, Covered, BinsBalanced, Audited, Total, DrawsOn, BinsHold;
    ActiveIsHeld(b, r, NoGap());
    ActiveBinsHold(b, r);
    hide Lawful, Holds;
    ClaimsAreSound(b, r);
    SweepSettles(b.units, b.bins, b.reservations[r].allocations, b.reservations[r].sku, to);
  }

  lemma ClaimsAreSound(b: Books, r: ResId)
    requires Lawful(b, NoGap()) && r in b.reservations
    ensures DrawsOn(b.reservations[r].allocations, b.units, b.reservations[r].sku)
  {
    hide Covered, BinsBalanced, Audited, Total, DrawsOn;
  }
}
