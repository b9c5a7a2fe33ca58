/** What a cycle count decides from the units of one bin, in whatever order a repository returned them. */
module CycleCounting {
  import opened Shared
  import opened Claims
  import opened Sums
  import opened Ledger
  import opened Transitions

  /** The listed units that are located and still present. */
  function Locatables(order: seq<UnitId>, units: Units): (ids: seq<UnitId>)
    requires forall u :: u in order ==> u in units
    ensures forall u :: u in ids <==> u in order && units[u].Locatable()
  {
    if order == [] then []
    else
      var u := order[|order| - 1];
      Locatables(order[..|order| - 1], units) + if units[u].Locatable() then [u] else []
  }

  lemma {:induction false} LocatablesDistinct(order: seq<UnitId>, units: Units)
    requires Distinct(order) && forall u :: u in order ==> u in units
    ensures Distinct(Locatables(order, units))
  {
    if order != [] {
      LocatablesDistinct(order[..|order| - 1], units);
    }
  }

  function SystemQty(ids: seq<UnitId>, units: Units): nat
    requires forall u :: u in ids ==> u in units
  {
    if ids == [] then 0 else SystemQty(ids[..|ids| - 1], units) + units[ids[|ids| - 1]].quantity
  }

  /** The units flagged as lost, in order, each with the part of the shortfall it covers. */
  function Losses(ids: seq<UnitId>, units: Units, shortfall: Quantity): (lost: seq<Allocation>)
    requires forall u :: u in ids ==> u in units
    ensures Total(lost) <= shortfall
    ensures forall i :: 0 <= i < |lost| ==> lost[i].unit in units
  {
    if ids == [] then []
    else
      var front := Losses(ids[..|ids| - 1], units, shortfall);
      var u := ids[|ids| - 1];
      var remaining := shortfall - Total(front);
      if remaining == 0 then front
      else
        var take := if remaining > units[u].quantity then units[u].quantity else remaining;
        assert (front + [Allocation(u, units[u].bin, take)])[..|front|] == front;
        front + [Allocation(u, units[u].bin, take)]
  }

  function LossEvents(lost: seq<Allocation>, units: Units, bin: BinId): (events: seq<Event>)
    requires forall i :: 0 <= i < |lost| ==> lost[i].unit in units
    ensures forall i :: 0 <= i < |events| ==> events[i].ItemUnlocated?
  {
    if lost == [] then []
    else
      var a := lost[|lost| - 1];
      LossEvents(lost[..|lost| - 1], units, bin) + [ItemUnlocated(a.unit, units[a.unit].sku, bin, a.quantity)]
  }

  /** The flagged units and the events of a count that found `counted` in the bin. */
  datatype CountResult<L, E> = CountResult(systemQty: Quantity, lost: L, events: E)

  /** What a count decides once the located units are listed and their quantity added up. */
  function CountFrom(bin: BinId, counted: Quantity, system: Quantity, ids: seq<UnitId>, units: Units)
    : (c: CountResult<seq<Allocation>, seq<Event>>)
    requires forall u :: u in ids ==> u in units
    ensures c.systemQty == system && forall i :: 0 <= i < |c.events| ==> Quiet(c.events[i])
  {
    if counted == system then CountResult(system, [], [CycleCountCompleted(bin, counted, system, false)])
    else if counted > system then
      CountResult(system, [],
                  [DiscrepancyDetected(bin, counted, system), CycleCountCompleted(bin, counted, system, true)])
    else
      var lost := Losses(ids, units, system - counted);
      CountResult(system, lost, [DiscrepancyDetected(bin, counted, system)] + LossEvents(lost, units, bin)
                                + [CycleCountCompleted(bin, counted, system, true)])
  }

  function Count(bin: BinId, counted: Quantity, order: seq<UnitId>, units: Units)
    : (c: CountResult<seq<Allocation>, seq<Event>>)
    requires forall u :: u in order ==> u in units
    ensures forall i :: 0 <= i < |c.events| ==> Quiet(c.events[i])
  {
    var ids := Locatables(order, units);
    CountFrom(bin, counted, SystemQty(ids, units), ids, units)
  }

  /** Losses follow the list from its start, and take from each unit at most what it holds. */
  lemma {:induction false} LossesFollow(ids: seq<UnitId>, units: Units, shortfall: Quantity)
    requires forall u :: u in ids ==> u in units
    ensures var lost := Losses(ids, units, shortfall);
      && |lost| <= |ids|
      && (Total(lost) < shortfall ==> |lost| == |ids|)
      && forall i :: 0 <= i < |lost| ==> lost[i].unit == ids[i] && lost[i].quantity <= units[ids[i]].quantity
  {
    if ids != [] {
      LossesFollow(ids[..|ids| - 1], units, shortfall);
    }
  }

  /** One unit more: the losses grow by at most one, on that unit, by what it can cover. */
  lemma LossesGrow(ids: seq<UnitId>, units: Units, shortfall: Quantity)
    requires forall u :: u in ids ==> u in units
    ensures ids == [] ==> Losses(ids, units, shortfall) == []
    ensures ids != [] ==>
      var u := ids[|ids| - 1];
      var front, lost := Losses(ids[..|ids| - 1], units, shortfall), Losses(ids, units, shortfall);
      var remaining := shortfall - Total(front);
      if remaining == 0 then lost == front
      else
        && |lost| == |front| + 1 && lost[..|front|] == front && lost[|front|].unit == u
        && lost[|front|].quantity == if remaining > units[u].quantity then units[u].quantity else remaining
  {
    hide Total;
  }

  /** Together they come to the whole shortfall, or to everything listed when that is less. */
  lemma {:induction false} LossesCover(ids: seq<UnitId>, units: Units, shortfall: Quantity)
    requires forall u :: u in ids ==> u in units
    ensures Total(Losses(ids, units, shortfall)) ==
            if shortfall <= SystemQty(ids, units) then shortfall else SystemQty(ids, units)
  {
    hide Losses;
    LossesGrow(ids, units, shortfall);
    if ids != [] {
      LossesCover(ids[..|ids| - 1], units, shortfall);
    }
  }

  /** Without the last flagged unit, the shortfall would not be covered: no shorter prefix does. */
  lemma {:induction false} LossesAreNeeded(ids: seq<UnitId>, units: Units, shortfall: Quantity)
    requires forall u :: u in ids ==> u in units
    ensures var lost := Losses(ids, units, shortfall);
      |lost| <= |ids| && (lost != [] ==> SystemQty(ids[..|lost| - 1], units) < shortfall)
  {
    hide Losses, Total, SystemQty;
    LossesFollow(ids, units, shortfall);
    LossesGrow(ids, units, shortfall);
    if ids != [] {
      var n := |ids| - 1;
      var front, lost := Losses(ids[..n], units, shortfall), Losses(ids, units, shortfall);
      LossesFollow(ids[..n], units, shortfall);
      LossesAreNeeded(ids[..n], units, shortfall);
      if shortfall == Total(front) {
        assert lost != [] ==> ids[..n][..|lost| - 1] == ids[..|lost| - 1];
      } else {
        LossesCover(ids[..n], units, shortfall);
        assert ids[..|lost| - 1] == ids[..n];
      }
    }
  }

  /** What a prefix gives up is at most what it holds, so the flagged prefix holds at least the shortfall. */
  lemma {:induction false} TakenWithin(lost: seq<Allocation>, ids: seq<UnitId>, units: Units)
    requires forall u :: u in ids ==> u in units
    requires |lost| <= |ids| && forall i :: 0 <= i < |lost| ==> lost[i].quantity <= units[ids[i]].quantity
    ensures Total(lost) <= SystemQty(ids[..|lost|], units)
  {
    if lost != [] {
      var n := |lost| - 1;
      TakenWithin(lost[..n], ids, units);
      assert ids[..|lost|][..n] == ids[..n];
    }
  }
}
