/** The allocation loop of a reserve, over stock units changed in place. */
module AllocationLoop {
  import opened Shared
  import opened Stock
  import opened Claims
  import opened Sums
  import opened Ledger
  import opened GreedyAllocation
  import opened UseCases
  import opened Repositories

  /** Usable stock of the listed units. */
  method SumUsable(stock: StockRepo, found: seq<StockUnit>) returns (total: Quantity)
    requires stock.Valid() && stock.Holds(found)
    ensures total == TotalUsable(UnitIds(found), stock.View())
  {
    ghost var ids := UnitIds(found);
    total := 0;
    var i := 0;
    while i < |found|
      invariant 0 <= i <= |found|
      invariant total == TotalUsable(ids[..i], stock.View())
    {
      assert ids[..i + 1][..i] == ids[..i];
      total := total + found[i].Value().Usable();
      i := i + 1;
    }
    assert ids[..i] == ids;
  }

  /** One unit gives what it can towards the remaining quantity. */
  method DrawFrom(stock: StockRepo, unit: StockUnit, remaining: Quantity) returns (r: Outcome, take: Quantity)
    requires stock.Valid() && unit.id in stock.units && stock.units[unit.id] == unit
    modifies unit
    ensures var units := old(stock.View()); var usable := units[unit.id].Usable();
      && take == (if remaining > usable then usable else remaining)
      && r == Pass
      && stock.View() == if take == 0 then units else units[unit.id := units[unit.id].Reserve(take).value]
    ensures take > 0 ==> old(stock.View())[unit.id].Reserve(take).Ok?
  {
    var usable := unit.Value().Usable();
    take := if remaining > usable then usable else remaining;
    if take == 0 {
      return Pass, 0;
    }
    r := unit.Reserve(take);
  }

  /** The units touched are those the allocations name, in the same order. */
  ghost predicate Touches(touched: seq<StockUnit>, allocs: seq<Allocation>) {
    |touched| == |allocs| && forall i :: 0 <= i < |allocs| ==> touched[i].id == allocs[i].unit
  }

  /** Draw the quantity from the listed units, in order, until it is covered. */
  method Allocate(stock: StockRepo, found: seq<StockUnit>, qty: Quantity)
    returns (r: Result<seq<Allocation>>, touched: seq<StockUnit>)
    requires stock.Valid() && stock.Holds(found) && Distinct(UnitIds(found))
    modifies found
    ensures var units, ids := old(stock.View()), UnitIds(found);
      if qty > TotalUsable(ids, units) then r == Err(InsufficientUsable) && stock.View() == units
      else r == Ok(Greedy(ids, units, qty)) && UnitsDrawn(units, Greedy(ids, units, qty), stock.View())
    ensures stock.Holds(touched)
    ensures r.Ok? ==> Touches(touched, r.value)
  {
    hide Greedy, DrawnOn, TotalUsable, Total, UnitsDrawn, Distinct, StockRepo.View;
    AllStored(stock, found);
    ghost var units, ids := stock.View(), UnitIds(found);
    touched := [];
    var totalUsable := SumUsable(stock, found);
    if qty > totalUsable {
      return Err(InsufficientUsable), [];
    }
    var remaining := qty;
    var allocations: seq<Allocation> := [];
    NothingGreedy(ids, units, qty);
    var i := 0;
    while i < |found| && remaining != 0
      invariant 0 <= i <= |found| && stock.Holds(touched)
      invariant allocations == Greedy(ids[..i], units, qty) && remaining == qty - Total(allocations)
      invariant UnitsDrawn(units, allocations, stock.View()) && Touches(touched, allocations)
    {
      var unit := found[i];
      ghost var before := stock.View();
      StoredAs(stock, unit);
      GreedyNext(ids, units, qty, i, before);
      var drawn, take := DrawFrom(stock, unit, remaining);
      assert drawn == Pass;
      if take > 0 {
        DrawnOneMore(units, allocations, Allocation(unit.id, unit.bin, take), before, stock.View());
        allocations := allocations + [Allocation(unit.id, unit.bin, take)];
        touched := touched + [unit];
        remaining := remaining - take;
      }
      i := i + 1;
    }
    GreedyCovers(ids, units, qty);
    GreedyStops(ids, units, qty, i);
    assert remaining == 0;
    return Ok(allocations), touched;
  }

  lemma NothingGreedy(order: seq<UnitId>, units: Units, want: Quantity)
    requires forall u :: u in order ==> u in units
    ensures order[..0] == [] && Greedy(order[..0], units, want) == [] && Total([]) == 0
    ensures UnitsDrawn(units, [], units)
  {
  }

  /** What the next unit in the order adds: it has not been drawn on yet, and gives what it can. */
  lemma GreedyNext(order: seq<UnitId>, units: Units, want: Quantity, n: nat, before: Units)
    requires Distinct(order) && (forall u :: u in order ==> u in units) && n < |order|
    requires Total(Greedy(order[..n], units, want)) < want
    requires UnitsDrawn(units, Greedy(order[..n], units, want), before)
    ensures var front, u := Greedy(order[..n], units, want), order[n];
      var remaining, usable := want - Total(front), units[u].Usable();
      var take := if remaining > usable then usable else remaining;
      var more := front + [Allocation(u, units[u].bin, take)];
      && before[u] == units[u] && DrawnOn(front, u) == 0
      && Greedy(order[..n + 1], units, want) == (if take == 0 then front else more)
      && Total(more) == Total(front) + take
  {
    NotDrawn(order[..n], units, want, order[n]);
    GreedyOneMore(order, units, want, n);
    hide Greedy, DrawnOn, Total;
  }

  lemma GreedyOneMore(order: seq<UnitId>, units: Units, want: Quantity, n: nat)
    requires (forall u :: u in order ==> u in units) && n < |order| && Total(Greedy(order[..n], units, want)) < want
    ensures var front, u := Greedy(order[..n], units, want), order[n];
      var remaining, usable := want - Total(front), units[u].Usable();
      var take := if remaining > usable then usable else remaining;
      var more := front + [Allocation(u, units[u].bin, take)];
      && Greedy(order[..n + 1], units, want) == (if take == 0 then front else more)
      && Total(more) == Total(front) + take
  {
    hide Greedy, Total;
    var next := order[..n + 1];
    assert next[..|next| - 1] == order[..n] && next[|next| - 1] == order[n];
    var front, u := Greedy(order[..n], units, want), order[n];
    var take := if want - Total(front) > units[u].Usable() then units[u].Usable() else want - Total(front);
    TotalOneMore(front, Allocation(u, units[u].bin, take));
    GreedyOf(next, units, want);
  }

  lemma TotalOneMore(allocs: seq<Allocation>, a: Allocation)
    ensures Total(allocs + [a]) == Total(allocs) + a.quantity
  {
    assert (allocs + [a])[..|allocs|] == allocs;
  }

  lemma GreedyOf(order: seq<UnitId>, units: Units, want: Quantity)
    requires (forall u :: u in order ==> u in units) && order != []
    ensures var front, u := Greedy(order[..|order| - 1], units, want), order[|order| - 1];
      var remaining, usable := want - Total(front), units[u].Usable();
      Greedy(order, units, want) == if remaining == 0 || usable == 0 then front
                                    else front + [Allocation(u, units[u].bin, if remaining > usable then usable else remaining)]
  {
    hide Total;
  }

  /** Once the quantity is covered, the rest of the units are left alone. */
  lemma {:induction false} GreedyStops(order: seq<UnitId>, units: Units, want: Quantity, n: nat)
    requires (forall u :: u in order ==> u in units) && n <= |order|
    ensures Total(Greedy(order[..n], units, want)) == want || n == |order| ==>
      Greedy(order, units, want) == Greedy(order[..n], units, want)
    decreases |order|
  {
    if n < |order| {
      assert order[..|order| - 1][..n] == order[..n];
      GreedyStops(order[..|order| - 1], units, want, n);
    } else {
      assert order[..n] == order;
    }
  }

  lemma DrawnOneMore(units: Units, allocs: seq<Allocation>, a: Allocation, before: Units, after: Units)
    requires UnitsDrawn(units, allocs, before) && a.unit in units && DrawnOn(allocs, a.unit) == 0
    requires 0 < a.quantity <= units[a.unit].Usable() && after == before[a.unit := before[a.unit].Reserve(a.quantity).value]
    ensures UnitsDrawn(units, allocs + [a], after)
  {
    assert (allocs + [a])[..|allocs|] == allocs;
    forall u | u in units ensures after[u] == DrawnUnit(units[u], DrawnOn(allocs + [a], u)) {
    }
  }
}
