/** The loops of a cycle count, over stock units changed in place. */
module CountLoop {
  import opened Shared
  import opened Stock
  import opened Claims
  import opened Sums
  import opened Ledger
  import opened CycleCounting
  import opened UseCases
  import opened CallPromises
  import opened Repositories

  /** The located, still present units among those found, and the quantity they record. */
  method LocatableUnits(stock: StockRepo, found: seq<StockUnit>) returns (systemQty: Quantity, located: seq<StockUnit>)
    requires stock.Valid() && stock.Holds(found)
    ensures stock.Holds(located) && UnitIds(located) == Locatables(UnitIds(found), stock.View())
    ensures systemQty == SystemQty(UnitIds(located), stock.View())
  {
    hide StockRepo.View, Locatables, SystemQty;
    ghost var ids := UnitIds(found);
    AllStored(stock, found);
    systemQty, located := 0, [];
    NothingLocated(ids, stock.View());
    var i := 0;
    while i < |found|
      invariant 0 <= i <= |found| && stock.Holds(located)
      invariant UnitIds(located) == Locatables(ids[..i], stock.View())
      invariant systemQty == SystemQty(UnitIds(located), stock.View())
    {
      var unit := found[i];
      StoredAs(stock, unit);
      LocatedNext(ids, stock.View(), i);
      if unit.state != UNLOCATED && unit.state != REMOVED {
        assert UnitIds(located + [unit]) == UnitIds(located) + [unit.id];
        systemQty := systemQty + unit.quantity;
        located := located + [unit];
      }
      i := i + 1;
    }
    assert ids[..i] == ids;
  }

  lemma NothingLocated(ids: seq<UnitId>, units: Units)
    requires forall u :: u in ids ==> u in units
    ensures Locatables(ids[..0], units) == [] && SystemQty([], units) == 0
  {
  }

  lemma LocatedNext(ids: seq<UnitId>, units: Units, n: nat)
    requires (forall u :: u in ids ==> u in units) && n < |ids|
    ensures var front, u := Locatables(ids[..n], units), ids[n];
      && Locatables(ids[..n + 1], units) == front + (if units[u].Locatable() then [u] else [])
      && SystemQty(front + [u], units) == SystemQty(front, units) + units[u].quantity
  {
    assert ids[..n + 1][..n] == ids[..n];
    var front := Locatables(ids[..n], units);
    assert (front + [ids[n]])[..|front|] == front;
  }

  /** Flag one unit and save it. */
  method FlagOne(stock: StockRepo, unit: StockUnit)
    requires stock.Valid() && unit.id in stock.units && stock.units[unit.id] == unit
    modifies stock`units, unit
    ensures stock.Valid() && stock.units == old(stock.units)
    ensures var units := old(stock.View());
      unit.id in units && stock.View() == units[unit.id := units[unit.id].MarkUnlocated()]
  {
    ghost var before := stock.View();
    unit.MarkUnlocated();
    assert stock.View() == before[unit.id := before[unit.id].MarkUnlocated()];
    stock.Save(unit);
  }

  /** Flag located units in order until the shortfall is covered, and report each with the part it covers. */
  method MarkShortfall(stock: StockRepo, located: seq<StockUnit>, shortfall: Quantity, bin: BinId) returns (events: seq<Event>)
    requires stock.Valid() && stock.Holds(located) && Distinct(UnitIds(located))
    modifies stock`units, located
    ensures stock.Valid() && stock.units == old(stock.units)
    ensures var units := old(stock.View());
      var lost := Losses(UnitIds(located), units, shortfall);
      && (forall i :: 0 <= i < |lost| ==> lost[i].unit in units)
      && stock.View() == Flagged(units, LostUnits(lost)) && events == LossEvents(lost, units, bin)
  {
    hide StockRepo.View, Losses, LossEvents, LostUnits, Flagged, Total;
    ghost var units, ids := stock.View(), UnitIds(located);
    ghost var lost: seq<Allocation> := [];
    var remaining := shortfall;
    events := [];
    AllStored(stock, located);
    NothingLost(ids, units, shortfall, bin);
    var i := 0;
    while i < |located| && remaining != 0
      invariant 0 <= i <= |located|
      invariant stock.Valid() && stock.units == old(stock.units)
      invariant lost == Losses(ids[..i], units, shortfall) && remaining == shortfall - Total(lost)
      invariant forall k :: 0 <= k < |lost| ==> lost[k].unit in units
      invariant stock.View() == Flagged(units, LostUnits(lost)) && events == LossEvents(lost, units, bin)
    {
      var unit := located[i];
      StoredAs(stock, unit);
      LossNext(ids, units, shortfall, i, bin);
      var take := if remaining > unit.quantity then unit.quantity else remaining;
      FlagOne(stock, unit);
      events := events + [ItemUnlocated(unit.id, unit.sku, bin, take)];
      lost := lost + [Allocation(unit.id, unit.bin, take)];
      remaining := remaining - take;
      i := i + 1;
    }
    LossesStop(ids, units, shortfall, i);
  }

  lemma NothingLost(ids: seq<UnitId>, units: Units, shortfall: Quantity, bin: BinId)
    requires forall u :: u in ids ==> u in units
    ensures Losses(ids[..0], units, shortfall) == [] && Total([]) == 0 && LossEvents([], units, bin) == []
    ensures Flagged(units, LostUnits([])) == units
  {
    assert LostUnits([]) == {};
  }

  /** What the next unit in the order adds: it is still as it was, and covers what it can. */
  lemma LossNext(ids: seq<UnitId>, units: Units, shortfall: Quantity, n: nat, bin: BinId)
    requires Distinct(ids) && (forall u :: u in ids ==> u in units) && n < |ids|
    requires Total(Losses(ids[..n], units, shortfall)) < shortfall
    ensures var lost, u := Losses(ids[..n], units, shortfall), ids[n];
      var take := if shortfall - Total(lost) > units[u].quantity then units[u].quantity else shortfall - Total(lost);
      var more := lost + [Allocation(u, units[u].bin, take)];
      && Losses(ids[..n + 1], units, shortfall) == more && Total(more) == Total(lost) + take
      && (forall k :: 0 <= k < |more| ==> more[k].unit in units)
      && Flagged(units, LostUnits(lost))[u] == units[u]
      && Flagged(units, LostUnits(more)) == Flagged(units, LostUnits(lost))[u := units[u].MarkUnlocated()]
      && LossEvents(more, units, bin) == LossEvents(lost, units, bin) + [ItemUnlocated(u, units[u].sku, bin, take)]
  {
    hide Losses, LostUnits, LossEvents, Flagged, Total, Distinct;
    var next := ids[..n + 1];
    assert next[..|next| - 1] == ids[..n] && next[|next| - 1] == ids[n];
    var lost, u := Losses(ids[..n], units, shortfall), ids[n];
    var take := if shortfall - Total(lost) > units[u].quantity then units[u].quantity else shortfall - Total(lost);
    LossesOf(next, units, shortfall);
    NotLostYet(ids, units, shortfall, n);
    LostOneMore(lost, Allocation(u, units[u].bin, take), units, bin);
  }

  lemma NotLostYet(ids: seq<UnitId>, units: Units, shortfall: Quantity, n: nat)
    requires Distinct(ids) && (forall u :: u in ids ==> u in units) && n < |ids|
    ensures var lost := Losses(ids[..n], units, shortfall);
      forall k :: 0 <= k < |lost| ==> lost[k].unit in units && lost[k].unit != ids[n]
  {
    hide Losses, Total;
    LossesFollow(ids[..n], units, shortfall);
  }

  lemma LossesOf(ids: seq<UnitId>, units: Units, shortfall: Quantity)
    requires (forall u :: u in ids ==> u in units) && ids != []
    ensures var front, u := Losses(ids[..|ids| - 1], units, shortfall), ids[|ids| - 1];
      var remaining := shortfall - Total(front);
      Losses(ids, units, shortfall) ==
        if remaining == 0 then front
        else front + [Allocation(u, units[u].bin, if remaining > units[u].quantity then units[u].quantity else remaining)]
  {
    hide Total;
  }

  lemma LostOneMore(lost: seq<Allocation>, a: Allocation, units: Units, bin: BinId)
    requires a.unit in units && forall k :: 0 <= k < |lost| ==> lost[k].unit in units && lost[k].unit != a.unit
    ensures var more := lost + [a];
      && Total(more) == Total(lost) + a.quantity
      && (forall k :: 0 <= k < |more| ==> more[k].unit in units)
      && Flagged(units, LostUnits(lost))[a.unit] == units[a.unit]
      && Flagged(units, LostUnits(more)) == Flagged(units, LostUnits(lost))[a.unit := units[a.unit].MarkUnlocated()]
      && LossEvents(more, units, bin) ==
         LossEvents(lost, units, bin) + [ItemUnlocated(a.unit, units[a.unit].sku, bin, a.quantity)]
  {
    var more := lost + [a];
    assert more[..|more| - 1] == lost && more[|more| - 1] == a;
    LostGrows(lost, a);
    assert a.unit !in LostUnits(lost);
    hide LostUnits;
    assert Flagged(units, LostUnits(more)) == Flagged(units, LostUnits(lost))[a.unit := units[a.unit].MarkUnlocated()];
  }

  lemma LostGrows(lost: seq<Allocation>, a: Allocation)
    ensures LostUnits(lost + [a]) == LostUnits(lost) + {a.unit}
  {
    var more := lost + [a];
    assert more[|lost|].unit == a.unit;
    forall u | u in LostUnits(lost) ensures u in LostUnits(more) {
      var i :| 0 <= i < |lost| && lost[i].unit == u;
      assert more[i].unit == u;
    }
  }

  /** Once the shortfall is covered, the rest of the units are left alone. */
  lemma {:induction false} LossesStop(ids: seq<UnitId>, units: Units, shortfall: Quantity, n: nat)
    requires (forall u :: u in ids ==> u in units) && n <= |ids|
    ensures Total(Losses(ids[..n], units, shortfall)) == shortfall || n == |ids| ==>
      Losses(ids, units, shortfall) == Losses(ids[..n], units, shortfall)
    decreases |ids|
  {
    if n < |ids| {
      assert ids[..|ids| - 1][..n] == ids[..n];
      LossesStop(ids[..|ids| - 1], units, shortfall, n);
      LossesOf(ids, units, shortfall);
      hide Losses;
    } else {
      assert ids[..n] == ids;
    }
  }
}
