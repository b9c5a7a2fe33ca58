/** The in-memory repositories: maps from ids to the aggregates themselves, which callers change in place. */
module Repositories {
  import opened Shared
  import opened Stock
  import opened Location
  import opened Claims
  import opened Ledger
  import opened UseCases

  function UnitIds(found: seq<StockUnit>): (ids: seq<UnitId>)
    ensures |ids| == |found| && forall i :: 0 <= i < |ids| ==> ids[i] == found[i].id
  {
    seq(|found|, i requires 0 <= i < |found| => found[i].id)
  }

  function ResIds(found: seq<Reservation>): (ids: seq<ResId>)
    ensures |ids| == |found| && forall i :: 0 <= i < |ids| ==> ids[i] == found[i].id
  {
    seq(|found|, i requires 0 <= i < |found| => found[i].id)
  }

  class StockRepo {
    var units: map<UnitId, StockUnit>
    var nextId: nat

    /** Each unit is stored under its own id, and ids not handed out yet are unused. */
    ghost predicate Valid()
      reads this
    {
      forall k :: k in units ==> units[k].id == k && k <= nextId
    }

    ghost function View(): Units
      reads this, units.Values
    {
      map k | k in units :: units[k].Value()
    }

    /** The units are the stored objects of these ids. */
    ghost predicate Holds(found: seq<StockUnit>)
      reads this
    {
      forall i :: 0 <= i < |found| ==> found[i].id in units && units[found[i].id] == found[i]
    }

    constructor ()
      ensures Valid() && units == map[] && View() == map[]
    {
      units, nextId := map[], 0;
    }

    method Save(unit: StockUnit)
      modifies `units
      ensures units == old(units)[unit.id := unit]
      ensures unit.id in old(units) && old(units)[unit.id] == unit ==> units == old(units) && View() == old(View())
    {
      units := units[unit.id := unit];
    }

    method FindById(id: UnitId) returns (unit: StockUnit?)
      ensures unit == if id in units then units[id] else null
    {
      unit := if id in units then units[id] else null;
    }

    /** The units of a SKU, in whatever order the map is walked. */
    method FindBySku(sku: Sku) returns (found: seq<StockUnit>)
      requires Valid()
      ensures Holds(found) && OrderOf(UnitIds(found), UnitsOf(View(), sku))
    {
      found := [];
      var rest := units.Keys;
      while rest != {}
        invariant rest <= units.Keys && Holds(found)
        invariant forall k :: k in units && k !in rest && units[k].sku == sku ==> k in UnitIds(found)
        invariant forall i :: 0 <= i < |found| ==> found[i].sku == sku && found[i].id !in rest
        invariant forall i, j :: 0 <= i < j < |found| ==> found[i].id != found[j].id
        decreases |rest|
      {
        var k :| k in rest;
        rest := rest - {k};
        if units[k].sku == sku {
          assert UnitIds(found + [units[k]]) == UnitIds(found) + [k];
          found := found + [units[k]];
        }
      }
      forall k ensures k in UnitsOf(View(), sku) <==> k in UnitIds(found) {
        if k in UnitIds(found) {
          var i :| 0 <= i < |found| && UnitIds(found)[i] == k;
          assert found[i].id in units && found[i].sku == sku;
        }
      }
    }

    /** The units in a bin, in whatever order the map is walked. */
    method FindByBin(bin: BinId) returns (found: seq<StockUnit>)
      requires Valid()
      ensures Holds(found) && OrderOf(UnitIds(found), UnitsIn(View(), bin))
    {
      found := [];
      var rest := units.Keys;
      while rest != {}
        invariant rest <= units.Keys && Holds(found)
        invariant forall k :: k in units && k !in rest && units[k].bin == bin ==> k in UnitIds(found)
        invariant forall i :: 0 <= i < |found| ==> found[i].bin == bin && found[i].id !in rest
        invariant forall i, j :: 0 <= i < j < |found| ==> found[i].id != found[j].id
        decreases |rest|
      {
        var k :| k in rest;
        rest := rest - {k};
        if units[k].bin == bin {
          assert UnitIds(found + [units[k]]) == UnitIds(found) + [k];
          found := found + [units[k]];
        }
      }
      forall k ensures k in UnitsIn(View(), bin) <==> k in UnitIds(found) {
        if k in UnitIds(found) {
          var i :| 0 <= i < |found| && UnitIds(found)[i] == k;
          assert found[i].id in units && found[i].bin == bin;
        }
      }
    }

    method NextId() returns (id: UnitId)
      requires Valid()
      modifies `nextId
      ensures Valid() && units == old(units) && View() == old(View()) && id == nextId && id !in units && id !in View()
    {
      nextId := nextId + 1;
      id := nextId;
    }
  }

  lemma AllStored(stock: StockRepo, found: seq<StockUnit>)
    requires stock.Holds(found)
    ensures forall u :: u in UnitIds(found) ==> u in stock.View()
  {
    forall u | u in UnitIds(found) ensures u in stock.View() {
      var i :| 0 <= i < |found| && UnitIds(found)[i] == u;
      assert found[i].id in stock.units;
    }
  }

  lemma StoredAs(stock: StockRepo, unit: StockUnit)
    requires unit.id in stock.units && stock.units[unit.id] == unit
    ensures unit.id in stock.View() && stock.View()[unit.id] == unit.Value()
  {
  }

  class LocationRepo {
    var bins: map<BinId, Bin>

    ghost predicate Valid()
      reads this
    {
      forall k :: k in bins ==> bins[k].id == k
    }

    ghost function View(): Bins
      reads this, bins.Values
    {
      map k | k in bins :: bins[k].Value()
    }

    constructor ()
      ensures Valid() && bins == map[] && View() == map[]
    {
      bins := map[];
    }

    method Save(bin: Bin)
      modifies `bins
      ensures bins == old(bins)[bin.id := bin]
      ensures bin.id in old(bins) && old(bins)[bin.id] == bin ==> bins == old(bins) && View() == old(View())
    {
      bins := bins[bin.id := bin];
    }

    method FindById(id: BinId) returns (bin: Bin?)
      ensures bin == if id in bins then bins[id] else null
    {
      bin := if id in bins then bins[id] else null;
    }
  }

  class ReservationRepo {
    var items: map<ResId, Reservation>
    var nextId: nat

    ghost predicate Valid()
      reads this
    {
      forall k :: k in items ==> items[k].id == k && k <= nextId
    }

    ghost function View(): Reservations
      reads this, items.Values
    {
      map k | k in items :: items[k].Value()
    }

    ghost predicate Holds(found: seq<Reservation>)
      reads this
    {
      forall i :: 0 <= i < |found| ==> found[i].id in items && items[found[i].id] == found[i]
    }

    constructor ()
      ensures Valid() && items == map[] && View() == map[]
    {
      items, nextId := map[], 0;
    }

    method Save(res: Reservation)
      modifies `items
      ensures items == old(items)[res.id := res]
      ensures res.id in old(items) && old(items)[res.id] == res ==> items == old(items) && View() == old(View())
    {
      items := items[res.id := res];
    }

    method FindById(id: ResId) returns (res: Reservation?)
      ensures res == if id in items then items[id] else null
    {
      res := if id in items then items[id] else null;
    }

    /** Every reservation made for a demand, resolved ones included, in whatever order the map is walked. */
    method FindByDemandRef(ref: string) returns (found: seq<Reservation>)
      requires Valid()
      ensures Holds(found) && OrderOf(ResIds(found), set r | r in items && items[r].demandRef == ref)
    {
      found := [];
      var rest := items.Keys;
      while rest != {}
        invariant rest <= items.Keys && Holds(found)
        invariant forall k :: k in items && k !in rest && items[k].demandRef == ref ==> k in ResIds(found)
        invariant forall i :: 0 <= i < |found| ==> found[i].demandRef == ref && found[i].id !in rest
        invariant forall i, j :: 0 <= i < j < |found| ==> found[i].id != found[j].id
        decreases |rest|
      {
        var k :| k in rest;
        rest := rest - {k};
        if items[k].demandRef == ref {
          assert ResIds(found + [items[k]]) == ResIds(found) + [k];
          found := found + [items[k]];
        }
      }
      forall k ensures k in (set r | r in items && items[r].demandRef == ref) <==> k in ResIds(found) {
        if k in ResIds(found) {
          var i :| 0 <= i < |found| && ResIds(found)[i] == k;
          assert found[i].id in items && found[i].demandRef == ref;
        }
      }
    }

    method NextId() returns (id: ResId)
      requires Valid()
      modifies `nextId
      ensures Valid() && items == old(items) && View() == old(View()) && id == nextId && id !in items && id !in View()
    {
      nextId := nextId + 1;
      id := nextId;
    }
  }
}
