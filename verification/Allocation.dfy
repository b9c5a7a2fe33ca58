/** Greedy allocation of a reserve over a SKU's units, in whatever order a repository returned them. */
module GreedyAllocation {
  import opened Shared
  import opened Claims
  import opened Sums
  import opened Ledger

  /** Usable stock of the listed units. */
  function TotalUsable(order: seq<UnitId>, units: Units): nat
    requires forall u :: u in order ==> u in units
  {
    if order == [] then 0
    else TotalUsable(order[..|order| - 1], units) + units[order[|order| - 1]].Usable()
  }

  /** The allocations drawn from the listed units: each gives what it has until the wanted quantity is covered. */
  function Greedy(order: seq<UnitId>, units: Units, want: Quantity): (allocs: seq<Allocation>)
    requires forall u :: u in order ==> u in units
    ensures Total(allocs) <= want
  {
    if order == [] then []
    else
      var front := Greedy(order[..|order| - 1], units, want);
      var u := order[|order| - 1];
      var remaining := want - Total(front);
      var usable := units[u].Usable();
      if remaining == 0 || usable == 0 then front
      else
        var last := Allocation(u, units[u].bin, if remaining > usable then usable else remaining);
        assert (front + [last])[..|front|] == front;
        front + [last]
  }

  /** An allocation list within the listed units: distinct, positive, within each unit's usable, on the unit's own bin. */
  predicate FairDraw(allocs: seq<Allocation>, order: seq<UnitId>, units: Units)
    requires forall u :: u in order ==> u in units
  {
    && DistinctUnits(allocs)
    && forall i :: 0 <= i < |allocs| ==>
         && allocs[i].unit in order
         && 0 < allocs[i].quantity <= units[allocs[i].unit].Usable()
         && allocs[i].bin == units[allocs[i].unit].bin
  }

  /** One unit more: the allocations grow by at most one, on that unit. */
  lemma GreedyGrows(order: seq<UnitId>, units: Units, want: Quantity)
    requires forall u :: u in order ==> u in units
    ensures order == [] ==> Greedy(order, units, want) == []
    ensures order != [] ==>
      var u := order[|order| - 1];
      var front, all := Greedy(order[..|order| - 1], units, want), Greedy(order, units, want);
      || all == front
      || (&& |all| == |front| + 1 && all[..|front|] == front
          && all[|front|].unit == u && all[|front|].bin == units[u].bin
          && 0 < all[|front|].quantity <= units[u].Usable())
  {
  }

  lemma {:induction false} GreedyIsFair(order: seq<UnitId>, units: Units, want: Quantity)
    requires Distinct(order) && forall u :: u in order ==> u in units
    ensures FairDraw(Greedy(order, units, want), order, units)
  {
    hide Greedy;
    GreedyGrows(order, units, want);
    if order != [] {
      var n := |order| - 1;
      var front, all := Greedy(order[..n], units, want), Greedy(order, units, want);
      GreedyIsFair(order[..n], units, want);
      forall i | 0 <= i < |all|
        ensures all[i].unit in order && 0 < all[i].quantity <= units[all[i].unit].Usable()
        ensures all[i].bin == units[all[i].unit].bin
      {
        assert i < |front| ==> all[i] == front[i] && front[i].unit in order[..n];
      }
      forall i, j | 0 <= i < j < |all| ensures all[i].unit != all[j].unit {
        assert all[i] == front[i] && front[i].unit in order[..n];
        assert j < |front| ==> all[j] == front[j];
      }
    }
  }

  /** It covers the whole quantity exactly when the listed units have that much usable between them. */
  lemma {:induction false} GreedyCovers(order: seq<UnitId>, units: Units, want: Quantity)
    requires forall u :: u in order ==> u in units
    ensures Total(Greedy(order, units, want)) == if want <= TotalUsable(order, units) then want else TotalUsable(order, units)
  {
    if order != [] {
      GreedyCovers(order[..|order| - 1], units, want);
      var front, all := Greedy(order[..|order| - 1], units, want), Greedy(order, units, want);
      assert all != front ==> all[..|all| - 1] == front;
    }
  }

  /** Every unit listed before the last one drawn on is drained: what it could give, it gave. */
  lemma {:induction false} GreedyDrains(order: seq<UnitId>, units: Units, want: Quantity)
    requires Distinct(order) && forall u :: u in order ==> u in units
    ensures var allocs := Greedy(order, units, want);
      forall i, j :: 0 <= i < j < |order| && DrawnOn(allocs, order[j]) > 0 ==>
        DrawnOn(allocs, order[i]) == units[order[i]].Usable()
  {
    var allocs := Greedy(order, units, want);
    forall i, j | 0 <= i < j < |order| && DrawnOn(allocs, order[j]) > 0
      ensures DrawnOn(allocs, order[i]) == units[order[i]].Usable()
    {
      DrainedBefore(order, units, want, i, j);
    }
  }

  lemma {:induction false} DrainedBefore(order: seq<UnitId>, units: Units, want: Quantity, i: nat, j: nat)
    requires Distinct(order) && (forall u :: u in order ==> u in units)
    requires i < j < |order| && DrawnOn(Greedy(order, units, want), order[j]) > 0
    ensures DrawnOn(Greedy(order, units, want), order[i]) == units[order[i]].Usable()
  {
    hide Greedy, DrawnOn;
    var n := |order| - 1;
    LastDraw(order, units, want);
    if j == n {
      AllDrained(order[..n], units, want, i);
    } else {
      DrainedBefore(order[..n], units, want, i, j);
    }
  }

  /** The last listed unit's draw, and that every other unit's draw is what it was without it. */
  lemma LastDraw(order: seq<UnitId>, units: Units, want: Quantity)
    requires order != [] && Distinct(order) && forall u :: u in order ==> u in units
    ensures var n := |order| - 1;
      var front, all := Greedy(order[..n], units, want), Greedy(order, units, want);
      && (DrawnOn(all, order[n]) > 0 ==> Total(front) < want)
      && (Total(all) < want ==> Total(front) < want && DrawnOn(all, order[n]) == units[order[n]].Usable())
      && forall i :: 0 <= i < n ==> DrawnOn(all, order[i]) == DrawnOn(front, order[i])
  {
    var n := |order| - 1;
    var front, all := Greedy(order[..n], units, want), Greedy(order, units, want);
    assert all != front ==> all[..|all| - 1] == front;
    NotDrawn(order[..n], units, want, order[n]);
  }

  lemma NotDrawn(order: seq<UnitId>, units: Units, want: Quantity, u: UnitId)
    requires Distinct(order) && u !in order && forall x :: x in order ==> x in units
    ensures DrawnOn(Greedy(order, units, want), u) == 0
  {
    hide Greedy;
    GreedyIsFair(order, units, want);
    DrawnOnAbsent(Greedy(order, units, want), u);
  }

  /** As long as the quantity is not covered, every listed unit has been drained. */
  lemma {:induction false} AllDrained(order: seq<UnitId>, units: Units, want: Quantity, i: nat)
    requires Distinct(order) && (forall u :: u in order ==> u in units)
    requires Total(Greedy(order, units, want)) < want && i < |order|
    ensures DrawnOn(Greedy(order, units, want), order[i]) == units[order[i]].Usable()
  {
    hide Greedy, DrawnOn;
    var n := |order| - 1;
    LastDraw(order, units, want);
    if i < n {
      AllDrained(order[..n], units, want, i);
    }
  }

  /** Allocations drawn from units of one SKU are a sound claim on them. */
  lemma GreedyDrawsOn(order: seq<UnitId>, units: Units, want: Quantity, sku: Sku)
    requires Distinct(order) && forall u :: u in order ==> u in units && units[u].sku == sku
    ensures DrawsOn(Greedy(order, units, want), units, sku)
  {
    GreedyIsFair(order, units, want);
  }
}
