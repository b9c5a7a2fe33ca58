/** A request that begins starts out sound: what it has just read is what is committed. */
module Beginnings {
  import opened Shared
  import opened Stock
  import opened Claims
  import opened Sums
  import opened Ledger
  import opened Transitions
  import opened GreedyAllocation
  import opened CycleCounting
  import opened Rows
  import opened Requests
  import opened Invariants
  import opened Safety

  /** What a count flags: distinct, locatable units, with quiet events. */
  lemma CountFlags(bin: BinId, counted: Quantity, order: seq<UnitId>, units: Units)
    requires Distinct(order) && forall u :: u in order ==> u in units
    ensures var lost := Count(bin, counted, order, units).lost;
      && DistinctUnits(lost)
      && forall i :: 0 <= i < |lost| ==> lost[i].unit in order && units[lost[i].unit].Locatable()
  {
    hide Losses, Total, SystemQty, LossEvents, Locatables;
    var ids := Locatables(order, units);
    LocatablesDistinct(order, units);
    var system := SystemQty(ids, units);
    if counted < system {
      LossesFollow(ids, units, system - counted);
      var lost := Losses(ids, units, system - counted);
      forall i | 0 <= i < |lost| ensures lost[i].unit in order && units[lost[i].unit].Locatable() {
        assert lost[i].unit == ids[i] && ids[i] in ids;
      }
    }
  }

  lemma CountBegins(db: Db, bin: BinId, counted: Quantity, order: seq<UnitId>)
    requires OrderOf(order, set u | u in db.units && db.units[u].content.bin == bin)
    ensures forall u :: u in order ==> u in Contents(db.units)
    ensures var c := Count(bin, counted, order, Contents(db.units));
      CountInv(db, Request(Counting(Held(c.lost), Held(c.events), db.units, 0), NOTHING))
  {
    assert forall u :: u in order ==> u in (set u | u in db.units && db.units[u].content.bin == bin);
    ContentsRead(db.units, map[]);
    hide Count, Contents;
    CountFlags(bin, counted, order, Contents(db.units));
    var c := Count(bin, counted, order, Contents(db.units));
    hide OrderOf;
    NothingStagedYet(db, c.lost, c.events);
  }

  lemma NothingStagedYet(db: Db, lost: seq<Allocation>, events: seq<Event>)
    requires DistinctUnits(lost) && forall i :: 0 <= i < |events| ==> Quiet(events[i])
    requires forall i :: 0 <= i < |lost| ==> lost[i].unit in db.units && db.units[lost[i].unit].content.Locatable()
    ensures CountInv(db, Request(Counting(Held(lost), Held(events), db.units, 0), NOTHING))
  {
  }

  /** A reserve begins with a fair draw of the whole quantity on the units it has just read. */
  lemma ReserveBegins(db: Db, p: nat, sku: Sku, qty: Quantity, ref: string, order: seq<UnitId>, now: Time, timeout: int)
    requires p !in db.reservations
    requires OrderOf(order, set u | u in db.units && db.units[u].content.sku == sku)
    ensures forall u :: u in order ==> u in Contents(db.units)
    ensures qty <= TotalUsable(order, Contents(db.units)) ==>
      var made := NewReservation(sku, qty, ref, Greedy(order, Contents(db.units), qty), now, timeout);
      made.Ok? ==> ReserveInv(db, p, Request(Reserving(made.value, db.units, 0, false, true), NOTHING))
  {
    assert forall u :: u in order ==> u in (set u | u in db.units && db.units[u].content.sku == sku);
    ContentsRead(db.units, map[]);
    if qty <= TotalUsable(order, Contents(db.units)) {
      hide Greedy, Contents, TotalUsable, Total;
      GreedyCovers(order, Contents(db.units), qty);
      GreedyDrawsOn(order, Contents(db.units), qty, sku);
    }
  }

  lemma ResolveBegins(db: Db, r: ResId, to: Status)
    requires ClaimsSound(BooksOf(db).units, BooksOf(db).reservations)
    requires r in db.reservations && db.reservations[r].content.status == ACTIVE && to != ACTIVE
    ensures ResolveInv(db, Request(Resolving(r, db.reservations[r], to, 0, AtUnit, false), NOTHING))
  {
    var b := BooksOf(db);
    assert DrawsOn(b.reservations[r].allocations, b.units, b.reservations[r].sku);
    assert DrawsOnRows(db.reservations[r].content.allocations, db.units, db.reservations[r].content.sku);
  }

  lemma RegisterBegins(s: System, bin: BinId, capacity: Quantity)
    requires BinsBalanced(BooksOf(s.db).units, BooksOf(s.db).bins) && StartRegister(s, bin, capacity).Some?
    ensures var s' := StartRegister(s, bin, capacity).value;
      && s.next in s'.requests && s'.requests[s.next].job.Registering? && s'.requests[s.next].writes == NOTHING
      && s' == Begin(s, s'.requests[s.next].job) && RegisterInv(s.db, s'.requests[s.next])
  {
    if bin in s.db.bins {
      var b := BooksOf(s.db);
      assert b.bins[bin].occupied <= b.bins[bin].capacity;
    }
  }

  /** A new request of any kind keeps the invariant. */
  lemma BeginningKeeps(s: System, a: Action, apart: (Sku, Sku) -> bool)
    requires Inv(s, apart) && !a.Advance? && !a.Fail? && Act(s, a, apart).Some?
    ensures Inv(Act(s, a, apart).value, apart) && Act(s, a, apart).value.db == s.db
  {
    match a
    case BeginStow(sku, qty, bin) =>
      var job := Stowing(NewUnit(sku, bin, qty).value, s.db.bins[bin], Opened);
      assert RequestInv(s.db, s.next, Request(job, NOTHING), apart);
      BeginKeeps(s, job, apart);
    case BeginReserve(sku, qty, ref, order, now, timeout) =>
      ReserveBeginningKeeps(s, sku, qty, ref, order, now, timeout, apart);
    case BeginResolve(res, to) =>
      ResolveBegins(s.db, res, to);
      hide ResolveInv;
      var job := Resolving(res, s.db.reservations[res], to, 0, AtUnit, false);
      assert RequestInv(s.db, s.next, Request(job, NOTHING), apart);
      BeginKeeps(s, job, apart);
    case BeginCount(bin, counted, order) =>
      CountBegins(s.db, bin, counted, order);
      hide CountInv;
      var c := Count(bin, counted, order, Contents(s.db.units));
      var job := Counting(Held(c.lost), Held(c.events), s.db.units, 0);
      assert RequestInv(s.db, s.next, Request(job, NOTHING), apart);
      BeginKeeps(s, job, apart);
    case BeginRegister(bin, capacity) =>
      RegisterBegins(s, bin, capacity);
      hide RegisterInv;
      var job := StartRegister(s, bin, capacity).value.requests[s.next].job;
      assert RequestInv(s.db, s.next, Request(job, NOTHING), apart);
      BeginKeeps(s, job, apart);
  }

  lemma ReserveBeginningKeeps(s: System, sku: Sku, qty: Quantity, ref: string, order: seq<UnitId>, now: Time, timeout: int,
                              apart: (Sku, Sku) -> bool)
    requires Inv(s, apart) && StartReserve(s, sku, qty, ref, order, now, timeout).Some?
    ensures Inv(StartReserve(s, sku, qty, ref, order, now, timeout).value, apart)
    ensures StartReserve(s, sku, qty, ref, order, now, timeout).value.db == s.db
  {
    ReserveBegins(s.db, s.next, sku, qty, ref, order, now, timeout);
    hide ReserveInv, Greedy, TotalUsable, Lawful;
    var made := NewReservation(sku, qty, ref, Greedy(order, Contents(s.db.units), qty), now, timeout);
    var job := Reserving(made.value, s.db.units, 0, false, true);
    assert RequestInv(s.db, s.next, Request(job, NOTHING), apart);
    NothingSavedYet(job);
    hide NewReservation, Contents, RequestsInv, DrawTerm;
    BeginKeeps(s, job, apart);
  }

  lemma NothingSavedYet(job: Job)
    requires job.Reserving? && job.saved == 0
    ensures forall u :: DrawTerm(u)(Request(job, NOTHING)) == 0
  {
    assert job.data.allocations[..0] == [];
  }
}
