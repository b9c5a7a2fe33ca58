/** What holds of every request and of the database between any two statements. */
module Invariants {
  import opened Shared
  import opened Stock
  import opened Location
  import opened Claims
  import opened Ledger
  import opened Transitions
  import opened Rows
  import opened Requests

  /** The listed allocations draw on rows of the table. */
  ghost predicate DrawsOnRows(allocs: seq<Allocation>, units: Table<UnitId, UnitData>, sku: Sku) {
    && DistinctUnits(allocs)
    && forall i :: 0 <= i < |allocs| ==>
         && allocs[i].quantity > 0
         && allocs[i].unit in units
         && units[allocs[i].unit].content.sku == sku
         && units[allocs[i].unit].content.bin == allocs[i].bin
  }

  ghost predicate StowInv(db: Db, p: nat, q: Request, apart: (Sku, Sku) -> bool)
    requires q.job.Stowing?
  {
    var unit, bin, stage := q.job.unit, q.job.bin, q.job.stage;
    && NewUnit(unit.sku, unit.bin, unit.quantity) == Ok(unit)
    && p !in db.units
    && Seen(db.bins, unit.bin, bin)
    && q.writes.reservations == map[]
    && (stage != Opened ==>
          && bin.content.Occupy(unit.quantity).Ok?
          && (db.bins[unit.bin] == bin ==> Clear(db.units, unit.sku, unit.bin, apart)))
    && (if stage == Opened || stage == Checked then q.writes.bins == map[]
        else db.bins[unit.bin] == bin
             && q.writes.bins == map[unit.bin := Row(bin.content.Occupy(unit.quantity).value, bin.version + 1)])
    && (if stage == UnitSaved then q.writes.units == map[p := Row(unit, 1)] else q.writes.units == map[])
  }

  ghost predicate ReserveInv(db: Db, p: nat, q: Request)
    requires q.job.Reserving?
  {
    var data, base, saved := q.job.data, q.job.base, q.job.saved;
    && saved <= |data.allocations|
    && data.status == ACTIVE
    && DrawsOnRows(data.allocations, db.units, data.sku)
    && Total(data.allocations) == data.quantity
    && p !in db.reservations
    && q.writes.units == map[] && q.writes.bins == map[]
    && (forall i :: saved <= i < |data.allocations| ==>
          && data.allocations[i].unit in base
          && Seen(db.units, data.allocations[i].unit, base[data.allocations[i].unit]))
    && (if q.job.filed then q.job.live && saved == |data.allocations| && q.writes.reservations == map[p := Row(data, 1)]
        else q.writes.reservations == map[])
  }

  /** How many allocations of a resolution have their unit staged. */
  function UnitsDone(job: Job): nat
    requires job.Resolving?
  {
    job.done + if job.at.UnitStaged? || job.at.BinRead? then 1 else 0
  }

  /** The first n allocations have their unit staged, each from the row as it still is, and no other unit is. */
  ghost predicate UnitsStaged(db: Db, staged: Table<UnitId, UnitData>, allocs: seq<Allocation>, n: nat, to: Status)
    requires n <= |allocs|
  {
    && (forall u :: u in staged ==> exists i :: 0 <= i < n && allocs[i].unit == u)
    && forall i :: 0 <= i < n ==>
         var u := allocs[i].unit;
         && u in staged && u in db.units
         && allocs[i].quantity <= db.units[u].content.reserved
         && (to == CONFIRMED ==> allocs[i].quantity <= db.units[u].content.quantity)
         && staged[u].content == Settled(to, db.units[u].content, allocs[i].quantity)
         && staged[u].version == db.units[u].version + 1
  }

  /** How many of the allocations sit in one bin: each saves the bin once. */
  function SavesOf(allocs: seq<Allocation>, k: BinId): nat {
    if allocs == [] then 0
    else SavesOf(allocs[..|allocs| - 1], k) + if allocs[|allocs| - 1].bin == k then 1 else 0
  }

  /** The bins of the first n allocations are staged with what was picked from them freed, one version per pick. */
  ghost predicate BinsStaged(db: Db, staged: Table<BinId, BinData>, allocs: seq<Allocation>, n: nat)
    requires n <= |allocs|
  {
    && (forall k :: k in staged ==> exists i :: 0 <= i < n && allocs[i].bin == k)
    && (forall i :: 0 <= i < n ==> allocs[i].bin in staged)
    && forall k :: k in staged ==>
         && k in db.bins
         && staged[k].version == db.bins[k].version + SavesOf(allocs[..n], k)
         && staged[k].content.capacity == db.bins[k].content.capacity
         && staged[k].content.occupied == db.bins[k].content.occupied - DrawnFrom(allocs[..n], k)
  }

  ghost predicate ResolveInv(db: Db, q: Request)
    requires q.job.Resolving?
  {
    var job, w := q.job, q.writes;
    var data := job.row.content;
    var allocs := data.allocations;
    && data.status == ACTIVE && job.to != ACTIVE
    && Seen(db.reservations, job.res, job.row)
    && DrawsOnRows(allocs, db.units, data.sku)
    && UnitsDone(job) <= |allocs|
    && (job.at != AtUnit ==> job.done < |allocs|)
    && (job.at.UnitRead? ==> Seen(db.units, allocs[job.done].unit, job.at.unitRow))
    && UnitsStaged(db, w.units, allocs, UnitsDone(job), job.to)
    && (if job.to == CONFIRMED then BinsStaged(db, w.bins, allocs, job.done)
        else w.bins == map[] && !job.at.UnitStaged? && !job.at.BinRead?)
    && (job.at.BinRead? ==>
          if allocs[job.done].bin in w.bins then job.at.binRow == w.bins[allocs[job.done].bin]
          else Seen(db.bins, allocs[job.done].bin, job.at.binRow))
    && (if job.recorded then
          && job.done == |allocs| && job.at == AtUnit
          && db.reservations[job.res] == job.row
          && w.reservations == map[job.res := Row(data.(status := job.to), job.row.version + 1)]
        else w.reservations == map[])
  }

  /** Every staged unit is one of the first n listed. */
  ghost predicate Among(staged: Table<UnitId, UnitData>, lost: seq<Allocation>, n: nat)
    requires n <= |lost|
  {
    forall u :: u in staged ==> exists i :: 0 <= i < n && lost[i].unit == u
  }

  ghost predicate CountInv(db: Db, q: Request)
    requires q.job.Counting?
  {
    var lost, read, n := q.job.lost.items, q.job.read, q.job.staged;
    && n <= |lost|
    && DistinctUnits(lost)
    && (forall i :: 0 <= i < |q.job.events.items| ==> Quiet(q.job.events.items[i]))
    && q.writes.bins == map[] && q.writes.reservations == map[]
    && Among(q.writes.units, lost, n)
    && forall i :: 0 <= i < |lost| ==>
         var u := lost[i].unit;
         && u in read && read[u].content.Locatable()
         && Seen(db.units, u, read[u])
         && (i < n ==>
               && db.units[u] == read[u]
               && u in q.writes.units && q.writes.units[u] == Row(read[u].content.MarkUnlocated(), read[u].version + 1))
  }

  ghost predicate RegisterInv(db: Db, q: Request)
    requires q.job.Registering?
  {
    var k, found, next := q.job.binId, q.job.found, q.job.next;
    && q.writes.units == map[] && q.writes.reservations == map[]
    && next.occupied <= next.capacity
    && (if found.Some? then Seen(db.bins, k, found.value) && next.occupied == found.value.content.occupied
        else next.occupied == 0)
    && if q.job.binStaged then
         && q.writes.bins.Keys == {k}
         && q.writes.bins[k].content == next
         && next.occupied == (if k in db.bins then db.bins[k].content.occupied else 0)
         && q.writes.bins[k].version == (if k in db.bins then db.bins[k].version + 1 else 1)
       else q.writes.bins == map[]
  }

  ghost predicate RequestInv(db: Db, p: nat, q: Request, apart: (Sku, Sku) -> bool) {
    match q.job
    case Stowing(_, _, _) => StowInv(db, p, q, apart)
    case Reserving(_, _, _, _, _) => ReserveInv(db, p, q)
    case Resolving(_, _, _, _, _, _) => ResolveInv(db, q)
    case Counting(_, _, _, _) => CountInv(db, q)
    case Registering(_, _, _, _) => RegisterInv(db, q)
  }

  /** A bin still at its first version has never held stock. */
  ghost predicate FirstVersions(db: Db) {
    forall k :: k in db.bins ==>
      && db.bins[k].version >= 1
      && (db.bins[k].version == 1 ==> forall u :: u in db.units ==> db.units[u].content.bin != k)
  }

  /** No row is staged by two requests at once. */
  ghost predicate Exclusive(requests: map<nat, Request>) {
    forall p, q :: p in requests && q in requests && p != q ==> Apart(requests[p].writes, requests[q].writes)
  }

  ghost predicate Apart(w: Writes, v: Writes) {
    w.units.Keys !! v.units.Keys && w.bins.Keys !! v.bins.Keys && w.reservations.Keys !! v.reservations.Keys
  }

  /** Ids are request numbers, so a request that has not started has created nothing. */
  ghost predicate Numbered(s: System) {
    && (forall p :: p in s.requests ==> p < s.next)
    && (forall u :: u in s.db.units ==> u < s.next)
    && (forall r :: r in s.db.reservations ==> r < s.next)
  }

  ghost predicate RequestsInv(s: System, apart: (Sku, Sku) -> bool) {
    forall p :: p in s.requests ==> RequestInv(s.db, p, s.requests[p], apart)
  }

  /** How the requests stand to the rows and to each other. */
  ghost predicate Orderly(s: System, apart: (Sku, Sku) -> bool) {
    && Numbered(s)
    && Exclusive(s.requests)
    && RequestsInv(s, apart)
    && FirstVersions(s.db)
  }

  ghost predicate Inv(s: System, apart: (Sku, Sku) -> bool) {
    && Orderly(s, apart)
    && Lawful(BooksOf(s.db), Gap(s.requests))
    && Segregated(BooksOf(s.db).units, apart)
  }

  ghost predicate Symmetric(apart: (Sku, Sku) -> bool) {
    forall s, t :: apart(s, t) == apart(t, s)
  }

  // ---- what one request relies on while others commit

  /** Rows move on, units stay in place, and a bin that receives a new unit moves on with it. */
  ghost predicate DbAhead(db: Db, db': Db) {
    && Ahead(db.units, db'.units) && Ahead(db.bins, db'.bins) && Ahead(db.reservations, db'.reservations)
    && (forall u :: u in db.units ==>
          db'.units[u].content.sku == db.units[u].content.sku && db'.units[u].content.bin == db.units[u].content.bin)
    && (forall u :: u in db'.units && u !in db.units && db'.units[u].content.bin in db.bins ==>
          db'.bins[db'.units[u].content.bin].version > db.bins[db'.units[u].content.bin].version)
  }

  ghost predicate SameAt<K, V>(t: Table<K, V>, t': Table<K, V>, k: K) {
    (k in t <==> k in t') && (k in t ==> t'[k] == t[k])
  }

  /** Rows a request has staged are locked: nobody else's commit touches them. */
  ghost predicate LocksKept(db: Db, db': Db, w: Writes) {
    && (forall u :: u in w.units ==> SameAt(db.units, db'.units, u))
    && (forall k :: k in w.bins ==> SameAt(db.bins, db'.bins, k))
    && (forall r :: r in w.reservations ==> SameAt(db.reservations, db'.reservations, r))
  }

  lemma StowStable(db: Db, db': Db, p: nat, q: Request, apart: (Sku, Sku) -> bool)
    requires q.job.Stowing? && StowInv(db, p, q, apart)
    requires DbAhead(db, db') && LocksKept(db, db', q.writes) && p !in db'.units
    ensures StowInv(db', p, q, apart)
  {
    assert Seen(db'.bins, q.job.unit.bin, db.bins[q.job.unit.bin]);
    assert q.job.stage == BinSaved || q.job.stage == UnitSaved ==> q.job.unit.bin in q.writes.bins;
  }

  lemma ReserveStable(db: Db, db': Db, p: nat, q: Request)
    requires q.job.Reserving? && ReserveInv(db, p, q)
    requires DbAhead(db, db') && LocksKept(db, db', q.writes) && p !in db'.reservations
    ensures ReserveInv(db', p, q)
  {
    var allocs := q.job.data.allocations;
    forall i | 0 <= i < |allocs|
      ensures allocs[i].unit in db'.units
      ensures db'.units[allocs[i].unit].content.sku == q.job.data.sku && db'.units[allocs[i].unit].content.bin == allocs[i].bin
      ensures q.job.saved <= i ==> Seen(db'.units, allocs[i].unit, q.job.base[allocs[i].unit])
    {
      assert Seen(db'.units, allocs[i].unit, db.units[allocs[i].unit]);
    }
  }

  lemma DrawsOnRowsStable(allocs: seq<Allocation>, units: Table<UnitId, UnitData>, units': Table<UnitId, UnitData>, sku: Sku)
    requires DrawsOnRows(allocs, units, sku)
    requires forall u :: u in units ==>
      && u in units' && units'[u].content.sku == units[u].content.sku && units'[u].content.bin == units[u].content.bin
    ensures DrawsOnRows(allocs, units', sku)
  {
  }

  lemma UnitsStagedStable(db: Db, db': Db, staged: Table<UnitId, UnitData>, allocs: seq<Allocation>, n: nat, to: Status)
    requires n <= |allocs| && UnitsStaged(db, staged, allocs, n, to)
    requires forall u :: u in staged ==> SameAt(db.units, db'.units, u)
    ensures UnitsStaged(db', staged, allocs, n, to)
  {
  }

  lemma BinsStagedStable(db: Db, db': Db, staged: Table<BinId, BinData>, allocs: seq<Allocation>, n: nat)
    requires n <= |allocs| && BinsStaged(db, staged, allocs, n)
    requires forall k :: k in staged ==> SameAt(db.bins, db'.bins, k)
    ensures BinsStaged(db', staged, allocs, n)
  {
  }

  lemma ResolveStable(db: Db, db': Db, q: Request)
    requires q.job.Resolving? && ResolveInv(db, q)
    requires DbAhead(db, db') && LocksKept(db, db', q.writes)
    ensures ResolveInv(db', q)
  {
    var allocs := q.job.row.content.allocations;
    SeenStays(db.reservations, db'.reservations, q.job.res, q.job.row);
    assert forall u :: u in db.units ==> Seen(db'.units, u, db.units[u]);
    DrawsOnRowsStable(allocs, db.units, db'.units, q.job.row.content.sku);
    UnitsStagedStable(db, db', q.writes.units, allocs, UnitsDone(q.job), q.job.to);
    if q.job.to == CONFIRMED {
      BinsStagedStable(db, db', q.writes.bins, allocs, q.job.done);
    }
    if q.job.at.BinRead? && allocs[q.job.done].bin !in q.writes.bins {
      SeenStays(db.bins, db'.bins, allocs[q.job.done].bin, q.job.at.binRow);
    }
    if q.job.at.UnitRead? {
      SeenStays(db.units, db'.units, allocs[q.job.done].unit, q.job.at.unitRow);
    }
    assert q.job.recorded ==> q.job.res in q.writes.reservations;
  }

  lemma CountStable(db: Db, db': Db, q: Request)
    requires q.job.Counting? && CountInv(db, q)
    requires DbAhead(db, db') && LocksKept(db, db', q.writes)
    ensures CountInv(db', q)
  {
    var lost := q.job.lost.items;
    forall i | 0 <= i < |lost| ensures Seen(db'.units, lost[i].unit, q.job.read[lost[i].unit]) {
      assert Seen(db'.units, lost[i].unit, db.units[lost[i].unit]);
    }
  }

  lemma RegisterStable(db: Db, db': Db, q: Request)
    requires q.job.Registering? && RegisterInv(db, q)
    requires DbAhead(db, db') && LocksKept(db, db', q.writes)
    ensures RegisterInv(db', q)
  {
  }

  /** Whatever others commit, a request's invariant survives. */
  lemma RequestStable(db: Db, db': Db, p: nat, q: Request, apart: (Sku, Sku) -> bool)
    requires RequestInv(db, p, q, apart) && DbAhead(db, db') && LocksKept(db, db', q.writes)
    requires q.job.Stowing? ==> p !in db'.units
    requires q.job.Reserving? ==> p !in db'.reservations
    ensures RequestInv(db', p, q, apart)
  {
    match q.job
    case Stowing(_, _, _) => StowStable(db, db', p, q, apart);
    case Reserving(_, _, _, _, _) => ReserveStable(db, db', p, q);
    case Resolving(_, _, _, _, _, _) => ResolveStable(db, db', q);
    case Counting(_, _, _, _) => CountStable(db, db', q);
    case Registering(_, _, _, _) => RegisterStable(db, db', q);
  }
}
