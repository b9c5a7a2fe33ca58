/** What a cycle count reports, publishes and flags, said of the bin's units and of the events alone. */
module CountAnswers {
  import opened Shared
  import opened Stock
  import opened Claims
  import opened Sums
  import opened Ledger
  import opened Transitions
  import opened CycleCounting
  import opened UseCases
  import opened CallPromises

  /** Each event reports one located unit of the bin as lost, under its own SKU, with at most what it holds; no unit twice. */
  ghost predicate ReportsLosses(units: Units, bin: BinId, losses: seq<Event>) {
    && (forall i :: 0 <= i < |losses| ==>
          var e := losses[i];
          && e.ItemUnlocated? && e.unit in units && e.bin == bin == units[e.unit].bin && e.sku == units[e.unit].sku
          && units[e.unit].state != UNLOCATED && units[e.unit].state != REMOVED
          && 0 < e.quantity <= units[e.unit].quantity)
    && forall i, j :: 0 <= i < j < |losses| ==> LostUnit(losses[i]) != LostUnit(losses[j])
  }

  function LostUnit(e: Event): Option<UnitId> {
    match e
    case ItemUnlocated(unit, _, _, _) => Some(unit)
    case _ => None
  }

  ghost function LostIn(losses: seq<Event>): set<UnitId> {
    set i | 0 <= i < |losses| && losses[i].ItemUnlocated? :: losses[i].unit
  }

  /** The reported units are UNLOCATED now; no other unit changed, and those not otherwise. */
  ghost predicate FlagsLost(units: Units, losses: seq<Event>, units': Units) {
    && units'.Keys == units.Keys
    && forall u :: u in units ==>
         units'[u] == if u in LostIn(losses) then units[u].(state := UNLOCATED) else units[u]
  }

  /** The events of a count: the discrepancy if there is one, the losses, and the completion that says which. */
  ghost predicate Publishes(log: seq<Event>, bin: BinId, counted: Quantity, system: Quantity, losses: seq<Event>,
                            log': seq<Event>)
  {
    if counted == system then losses == [] && log' == log + [CycleCountCompleted(bin, counted, system, false)]
    else log' == log + [DiscrepancyDetected(bin, counted, system)] + losses + [CycleCountCompleted(bin, counted, system, true)]
  }

  lemma {:induction false} LossEventAt(lost: seq<Allocation>, units: Units, bin: BinId, i: nat)
    requires i < |lost| && forall k :: 0 <= k < |lost| ==> lost[k].unit in units
    ensures |LossEvents(lost, units, bin)| == |lost|
    ensures LossEvents(lost, units, bin)[i] == ItemUnlocated(lost[i].unit, units[lost[i].unit].sku, bin, lost[i].quantity)
  {
    var n := |lost| - 1;
    if n > 0 {
      LossEventAt(lost[..n], units, bin, if i < n then i else 0);
    }
  }

  lemma {:induction false} LossesPositive(ids: seq<UnitId>, units: Units, shortfall: Quantity, i: nat)
    requires (forall u :: u in ids ==> u in units && units[u].quantity > 0) && i < |Losses(ids, units, shortfall)|
    ensures Losses(ids, units, shortfall)[i].quantity > 0
  {
    hide Losses;
    LossesGrow(ids, units, shortfall);
    if ids != [] && i < |Losses(ids[..|ids| - 1], units, shortfall)| {
      LossesPositive(ids[..|ids| - 1], units, shortfall, i);
    }
  }

  lemma LossesReported(ids: seq<UnitId>, units: Units, bin: BinId, shortfall: Quantity)
    requires forall u :: u in ids ==> u in units && units[u].bin == bin && units[u].Locatable() && units[u].quantity > 0
    requires Distinct(ids) && 0 < shortfall <= SystemQty(ids, units)
    ensures var lost := Losses(ids, units, shortfall);
      var losses := LossEvents(lost, units, bin);
      ReportsLosses(units, bin, losses) && LostIn(losses) == LostUnits(lost) && Tally(losses, UnlocatedQty()) == shortfall
  {
    hide Losses, LossEvents, SystemQty;
    var lost := Losses(ids, units, shortfall);
    var losses := LossEvents(lost, units, bin);
    LossesFollow(ids, units, shortfall);
    LossesCover(ids, units, shortfall);
    LossEventsTally(lost, units, bin);
    if lost == [] {
      NoLosses(units, bin);
    }
    forall i | 0 <= i < |lost|
      ensures |losses| == |lost| && losses[i] == ItemUnlocated(lost[i].unit, units[lost[i].unit].sku, bin, lost[i].quantity)
      ensures lost[i].quantity > 0
    {
      LossEventAt(lost, units, bin, i);
      LossesPositive(ids, units, shortfall, i);
    }
    assert |losses| == |lost|;
    assert LostIn(losses) == LostUnits(lost) by {
      forall u | u in LostUnits(lost) ensures u in LostIn(losses) {
        var i :| 0 <= i < |lost| && lost[i].unit == u;
        assert losses[i].unit == u;
      }
    }
  }

  lemma NoLosses(units: Units, bin: BinId)
    ensures LossEvents([], units, bin) == []
  {
  }

  /**
   A count reports what the bin records and whether it differs. A difference in either direction is published as one
   DiscrepancyDetected and one CycleCountCompleted saying so; agreement as a completion alone. A shortfall is published
   unit by unit and comes to exactly what is missing, and those units are UNLOCATED; nothing else changes.
   */
  lemma CountAnswers(b: Books, bin: BinId, counted: Quantity, b': Books, out: CountReport)
    requires UnitsSound(b.units) && Counted(b, bin, counted, b', out)
    ensures out.system == LocatedIn(b.units, bin) && (out.discrepancy <==> counted != LocatedIn(b.units, bin))
    ensures b'.bins == b.bins && b'.reservations == b.reservations
    ensures exists losses: seq<Event> ::
      && Publishes(b.log, bin, counted, out.system, losses, b'.log)
      && ReportsLosses(b.units, bin, losses) && FlagsLost(b.units, losses, b'.units)
      && Tally(losses, UnlocatedQty()) == if counted < out.system then out.system - counted else 0
  {
    hide Losses, LossEvents, SystemQty, LocatedIn, Locatables, ReportsLosses;
    var order: seq<UnitId> :| OrderOf(order, UnitsIn(b.units, bin)) && CountedInOrder(b, bin, counted, order, b', out);
    SystemInAnyOrder(order, b.units, bin);
    LocatablesOf(order, b.units, bin);
    var ids := Locatables(order, b.units);
    forall u | u in ids ensures b.units[u].quantity > 0 {
      assert b.units[u].Sound();
    }
    hide OrderOf;
    CountInOrderAnswers(b, bin, counted, ids, SystemQty(ids, b.units), b');
  }

  lemma CountInOrderAnswers(b: Books, bin: BinId, counted: Quantity, ids: seq<UnitId>, system: Quantity, b': Books)
    requires forall u :: u in ids ==> u in b.units && b.units[u].bin == bin && b.units[u].Locatable() && b.units[u].quantity > 0
    requires Distinct(ids) && system == SystemQty(ids, b.units)
    requires var c := CountFrom(bin, counted, system, ids, b.units); Flags(b, LostUnits(c.lost), b', c.events)
    ensures exists losses: seq<Event> ::
      && Publishes(b.log, bin, counted, system, losses, b'.log)
      && ReportsLosses(b.units, bin, losses) && FlagsLost(b.units, losses, b'.units)
      && Tally(losses, UnlocatedQty()) == if counted < system then system - counted else 0
  {
    hide Losses, LossEvents, SystemQty, ReportsLosses, LostUnits, LostIn;
    var losses: seq<Event> := [];
    if counted < system {
      losses := LossEvents(Losses(ids, b.units, system - counted), b.units, bin);
      LossesReported(ids, b.units, bin, system - counted);
      var first, last := [DiscrepancyDetected(bin, counted, system)], [CycleCountCompleted(bin, counted, system, true)];
      assert b.log + (first + losses + last) == b.log + first + losses + last;
    } else {
      NothingLost(b.units, bin);
      var first, last := [DiscrepancyDetected(bin, counted, system)], [CycleCountCompleted(bin, counted, system, true)];
      assert first + last == [first[0], last[0]];
      assert b.log + (first + last) == b.log + first + [] + last;
    }
    assert Publishes(b.log, bin, counted, system, losses, b'.log);
    assert FlagsLost(b.units, losses, b'.units);
  }

  lemma NothingLost(units: Units, bin: BinId)
    ensures ReportsLosses(units, bin, []) && LostIn([]) == {} && LostUnits([]) == {}
  {
  }
}
