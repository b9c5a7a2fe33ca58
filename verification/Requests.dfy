/**
 The use cases over Postgres, as a state machine: any number of requests, each with its own transactions, taking
 turns one statement at a time. A staged write locks its row until its transaction commits or rolls back; a
 statement outside a transaction commits at once; a read sees committed rows and the transaction's own writes.
 */
module Requests {
  import opened Shared
  import opened Stock
  import opened Location
  import opened Claims
  import opened Sums
  import opened Ledger
  import opened Transitions
  import opened GreedyAllocation
  import opened CycleCounting
  import opened Rows

  datatype DbWith<L> = Db(units: Table<UnitId, UnitData>, bins: Table<BinId, BinData>,
                          reservations: Table<ResId, ResData>, outbox: L)
  type Db = DbWith<seq<Event>>

  function BooksOf(db: Db): Books {
    Books(Contents(db.units), Contents(db.bins), Contents(db.reservations), db.outbox)
  }

  /** Rows written by a transaction, or by one statement. */
  datatype Writes = Writes(units: Table<UnitId, UnitData>, bins: Table<BinId, BinData>, reservations: Table<ResId, ResData>)

  const NOTHING := Writes(map[], map[], map[])

  function Commit(db: Db, w: Writes, events: seq<Event>): Db {
    Db(db.units + w.units, db.bins + w.bins, db.reservations + w.reservations, db.outbox + events)
  }

  /** A list held by a request; boxed so that requests have no structural order on sequences. */
  datatype Held<+S> = Held(items: S)

  datatype StowStage = Opened | Checked | BinSaved | UnitSaved

  /** Where a resolution stands within the allocation it is working on. */
  datatype Progress = AtUnit | UnitRead(unitRow: Row<UnitData>) | UnitStaged | BinRead(binRow: Row<BinData>)

  datatype Job =
    // read the bin, check the occupants, then stage the bin and the new unit
    | Stowing(unit: UnitData, bin: Row<BinData>, stage: StowStage)
    // units read in one statement and saved one by one, each committing at once; then the reservation
    | Reserving(data: ResData, base: Table<UnitId, UnitData>, saved: nat, filed: bool, live: bool)
    // revoke, expire or confirm a reservation read before its transaction began
    | Resolving(res: ResId, row: Row<ResData>, to: Status, done: nat, at: Progress, recorded: bool)
    // units read before the transaction, the flagged ones staged in it
    | Counting(lost: Held<seq<Allocation>>, events: Held<seq<Event>>, read: Table<UnitId, UnitData>, staged: nat)
    // read-modify-write of one bin inside the transaction; None when no row was found
    | Registering(binId: BinId, found: Option<Row<BinData>>, next: BinData, binStaged: bool)

  datatype Request = Request(job: Job, writes: Writes)

  /** Requests are numbered; a request's number also serves as the fresh id of what it creates. */
  datatype System = System(db: Db, requests: map<nat, Request>, next: nat)

  const EMPTY: System := System(Db(map[], map[], map[], []), map[], 0)

  /** The events a transaction inserts into the outbox with its writes. */
  function Published(p: nat, job: Job): seq<Event> {
    match job
    case Stowing(u, _, _) => [ItemStowed(u.sku, u.bin, u.quantity), LocationRecorded(p, u.bin)]
    case Reserving(d, _, _, _, _) => [StockReserved(p, d.sku, d.quantity)]
    case Resolving(r, row, to, _, _, _) => [ResolutionEvent(r, row.content, to)]
    case Counting(_, events, _, _) => events.items
    case Registering(_, _, _, _) => []
  }

  /** What a request has drawn without a recorded reservation behind it. */
  ghost function DrawTerm(u: UnitId): Request -> int {
    (q: Request) =>
      if q.job.Reserving? && q.job.saved <= |q.job.data.allocations| then DrawnOn(q.job.data.allocations[..q.job.saved], u)
      else 0
  }

  /** Draws of reserves that are in flight, or failed and left their draws behind. */
  ghost function Drawn(requests: map<nat, Request>, u: UnitId): nat {
    SumNonNegative(requests, DrawTerm(u));
    Sum(requests, DrawTerm(u))
  }

  ghost function Gap(requests: map<nat, Request>): UnitId -> nat {
    (u: UnitId) => Drawn(requests, u)
  }

  // ---- statements

  /** The row's lock is free, or the request's own. */
  ghost predicate UnitFree(s: System, p: nat, u: UnitId) {
    forall q :: q in s.requests && q != p ==> u !in s.requests[q].writes.units
  }

  ghost predicate BinFree(s: System, p: nat, k: BinId) {
    forall q :: q in s.requests && q != p ==> k !in s.requests[q].writes.bins
  }

  ghost predicate ReservationFree(s: System, p: nat, r: ResId) {
    forall q :: q in s.requests && q != p ==> r !in s.requests[q].writes.reservations
  }

  function Continue(s: System, p: nat, job: Job, writes: Writes): System {
    s.(requests := s.requests[p := Request(job, writes)])
  }

  function Begin(s: System, job: Job): System {
    System(s.db, s.requests[s.next := Request(job, NOTHING)], s.next + 1)
  }

  /** An error or a crash: staged writes are rolled back; a reserve that had saved units leaves their draws behind. */
  function Abort(s: System, p: nat): System
    requires p in s.requests
  {
    var job := s.requests[p].job;
    if job.Reserving? then Continue(s, p, job.(live := false, filed := false), NOTHING)
    else s.(requests := s.requests - {p})
  }

  /** COMMIT: the staged rows and the events become visible together, and the request is done. */
  function Finish(s: System, p: nat): System
    requires p in s.requests
  {
    System(Commit(s.db, s.requests[p].writes, Published(p, s.requests[p].job)), s.requests - {p}, s.next)
  }

  datatype ActionWith<O> =
    | BeginStow(sku: Sku, quantity: Quantity, bin: BinId)
    | BeginReserve(sku: Sku, quantity: Quantity, demandRef: string, order: O, now: Time, timeout: int)
    | BeginResolve(res: ResId, to: Status)
    | BeginCount(bin: BinId, counted: Quantity, order: O)
    | BeginRegister(bin: BinId, capacity: Quantity)
    | Advance(p: nat)
    | Fail(p: nat)
  type Action = ActionWith<seq<UnitId>>

  /** The system after an action, or None when the action is not possible (or its row lock is taken) in this state. */
  ghost function Act(s: System, a: Action, apart: (Sku, Sku) -> bool): Option<System> {
    match a
    case BeginStow(sku, qty, bin) =>
      if bin in s.db.bins && NewUnit(sku, bin, qty).Ok? then
        Some(Begin(s, Stowing(NewUnit(sku, bin, qty).value, s.db.bins[bin], Opened)))
      else None
    case BeginReserve(sku, qty, ref, order, now, timeout) => StartReserve(s, sku, qty, ref, order, now, timeout)
    case BeginResolve(res, to) =>
      if res in s.db.reservations && s.db.reservations[res].content.Resolve(to).Ok? && to != ACTIVE then
        Some(Begin(s, Resolving(res, s.db.reservations[res], to, 0, AtUnit, false)))
      else None
    case BeginCount(bin, counted, order) =>
      if OrderOf(order, set u | u in s.db.units && s.db.units[u].content.bin == bin) then
        var c := Count(bin, counted, order, Contents(s.db.units));
        Some(Begin(s, Counting(Held(c.lost), Held(c.events), s.db.units, 0)))
      else None
    case BeginRegister(bin, capacity) => StartRegister(s, bin, capacity)
    case Fail(p) => if p in s.requests then Some(Abort(s, p)) else None
    case Advance(p) =>
      if p !in s.requests then None
      else match s.requests[p].job
        case Stowing(_, _, _) => StepStow(s, p, apart)
        case Reserving(_, _, _, _, _) => StepReserve(s, p)
        case Resolving(_, _, _, _, _, _) => StepResolve(s, p)
        case Counting(_, _, _, _) => StepCount(s, p)
        case Registering(_, _, _, _) => StepRegister(s, p)
  }

  ghost function StartReserve(s: System, sku: Sku, qty: Quantity, ref: string, order: seq<UnitId>, now: Time, timeout: int)
    : Option<System>
  {
    if qty > 0 && OrderOf(order, set u | u in s.db.units && s.db.units[u].content.sku == sku) then
      var units := Contents(s.db.units);
      if qty > TotalUsable(order, units) then None
      else
        var made := NewReservation(sku, qty, ref, Greedy(order, units, qty), now, timeout);
        if made.Ok? then Some(Begin(s, Reserving(made.value, s.db.units, 0, false, true))) else None
    else None
  }

  function StartRegister(s: System, bin: BinId, capacity: Quantity): Option<System> {
    if bin !in s.db.bins then
      match NewBin(bin, capacity)
      case Ok(data) => Some(Begin(s, Registering(bin, None, data, false)))
      case Err(_) => None
    else if s.db.bins[bin].content.capacity == capacity then None
    else
      match s.db.bins[bin].content.Resize(capacity)
      case Ok(data) => Some(Begin(s, Registering(bin, Some(s.db.bins[bin]), data, false)))
      case Err(_) => None
  }

  /** No committed occupant of the bin has to be kept apart from the SKU. */
  ghost predicate Clear(units: Table<UnitId, UnitData>, sku: Sku, bin: BinId, apart: (Sku, Sku) -> bool) {
    forall u :: u in units && units[u].content.bin == bin && units[u].content.sku != sku ==> !apart(sku, units[u].content.sku)
  }

  ghost function StepStow(s: System, p: nat, apart: (Sku, Sku) -> bool): Option<System>
    requires p in s.requests && s.requests[p].job.Stowing?
  {
    var job, w := s.requests[p].job, s.requests[p].writes;
    match job.stage
    case Opened =>
      if Clear(s.db.units, job.unit.sku, job.unit.bin, apart) && job.bin.content.Occupy(job.unit.quantity).Ok? then
        Some(Continue(s, p, job.(stage := Checked), w))
      else Some(Abort(s, p))
    case Checked =>
      if !BinFree(s, p, job.unit.bin) || job.bin.content.Occupy(job.unit.quantity).Err? then None
      else
        var saved := Save(s.db.bins + w.bins, job.unit.bin, job.bin.content.Occupy(job.unit.quantity).value, job.bin.version);
        if saved.Err? then Some(Abort(s, p))
        else Some(Continue(s, p, job.(stage := BinSaved), w.(bins := w.bins[job.unit.bin := saved.value])))
    case BinSaved =>
      if !UnitFree(s, p, p) then None
      else
        var saved := Save(s.db.units + w.units, p, job.unit, 1);
        if saved.Err? then Some(Abort(s, p))
        else Some(Continue(s, p, job.(stage := UnitSaved), w.(units := w.units[p := saved.value])))
    case UnitSaved => Some(Finish(s, p))
  }

  ghost function StepReserve(s: System, p: nat): Option<System>
    requires p in s.requests && s.requests[p].job.Reserving?
  {
    var job, w := s.requests[p].job, s.requests[p].writes;
    if !job.live || job.saved > |job.data.allocations| then None
    else if job.filed then Some(Finish(s, p))
    else if job.saved == |job.data.allocations| then
      if !ReservationFree(s, p, p) then None
      else
        match Save(s.db.reservations + w.reservations, p, job.data, 1)
        case Ok(row) => Some(Continue(s, p, job.(filed := true), w.(reservations := w.reservations[p := row])))
        case Err(_) => Some(Abort(s, p))
    else
      var a := job.data.allocations[job.saved];
      if !UnitFree(s, p, a.unit) || a.unit !in job.base then None
      else
        match job.base[a.unit].content.Reserve(a.quantity)
        case Err(_) => Some(Abort(s, p))
        case Ok(drawn) =>
          match Save(s.db.units, a.unit, drawn, job.base[a.unit].version)
          case Err(_) => Some(Abort(s, p))
          case Ok(row) =>
            Some(Continue(s, p, job.(saved := job.saved + 1), w)
                 .(db := Commit(s.db, Writes(map[a.unit := row], map[], map[]), [])))
  }

  ghost function StepResolve(s: System, p: nat): Option<System>
    requires p in s.requests && s.requests[p].job.Resolving?
  {
    var job, w := s.requests[p].job, s.requests[p].writes;
    var allocs := job.row.content.allocations;
    if job.recorded then Some(Finish(s, p))
    else if job.done < |allocs| then StepAllocation(s, p, allocs[job.done])
    else if !ReservationFree(s, p, job.res) then None
    else
      match Save(s.db.reservations + w.reservations, job.res, job.row.content.(status := job.to), job.row.version)
      case Ok(row) => Some(Continue(s, p, job.(recorded := true), w.(reservations := w.reservations[job.res := row])))
      case Err(_) => Some(Abort(s, p))
  }

  /** One allocation's slice: read and save the unit, and for a pick read and save its bin too. */
  ghost function StepAllocation(s: System, p: nat, a: Allocation): Option<System>
    requires p in s.requests && s.requests[p].job.Resolving?
  {
    var job, w := s.requests[p].job, s.requests[p].writes;
    var units, bins := s.db.units + w.units, s.db.bins + w.bins;
    match job.at
    case AtUnit =>
      if a.unit in units then Some(Continue(s, p, job.(at := UnitRead(units[a.unit])), w)) else Some(Abort(s, p))
    case UnitRead(row) =>
      var changed := if job.to == CONFIRMED then row.content.Pick(a.quantity) else row.content.ReleaseReservation(a.quantity);
      if !UnitFree(s, p, a.unit) then None
      else if changed.Err? || Save(units, a.unit, changed.value, row.version).Err? then Some(Abort(s, p))
      else
        var staged := w.(units := w.units[a.unit := Save(units, a.unit, changed.value, row.version).value]);
        Some(Continue(s, p,
                      if job.to == CONFIRMED then job.(at := UnitStaged) else job.(done := job.done + 1, at := AtUnit),
                      staged))
    case UnitStaged =>
      if a.unit !in units then None
      else
        var k := units[a.unit].content.bin;
        if k in bins then Some(Continue(s, p, job.(at := BinRead(bins[k])), w)) else Some(Abort(s, p))
    case BinRead(row) =>
      if a.unit !in units then None
      else
        var k, freed := units[a.unit].content.bin, row.content.Release(a.quantity);
        if !BinFree(s, p, k) then None
        else if freed.Err? || Save(bins, k, freed.value, row.version).Err? then Some(Abort(s, p))
        else
          Some(Continue(s, p, job.(done := job.done + 1, at := AtUnit),
                        w.(bins := w.bins[k := Save(bins, k, freed.value, row.version).value])))
  }

  ghost function StepCount(s: System, p: nat): Option<System>
    requires p in s.requests && s.requests[p].job.Counting?
  {
    var job, w := s.requests[p].job, s.requests[p].writes;
    if job.staged >= |job.lost.items| then Some(Finish(s, p))
    else
      var u := job.lost.items[job.staged].unit;
      if !UnitFree(s, p, u) || u !in job.read then None
      else
        match Save(s.db.units + w.units, u, job.read[u].content.MarkUnlocated(), job.read[u].version)
        case Ok(row) => Some(Continue(s, p, job.(staged := job.staged + 1), w.(units := w.units[u := row])))
        case Err(_) => Some(Abort(s, p))
  }

  ghost function StepRegister(s: System, p: nat): Option<System>
    requires p in s.requests && s.requests[p].job.Registering?
  {
    var job, w := s.requests[p].job, s.requests[p].writes;
    if job.binStaged then Some(Finish(s, p))
    else if !BinFree(s, p, job.binId) then None
    else
      match Save(s.db.bins + w.bins, job.binId, job.next, if job.found.Some? then job.found.value.version else 1)
      case Ok(row) => Some(Continue(s, p, job.(binStaged := true), w.(bins := w.bins[job.binId := row])))
      case Err(_) => Some(Abort(s, p))
  }

  /** One step of some request, or a new one arriving. */
  ghost predicate Step(s: System, s': System, apart: (Sku, Sku) -> bool) {
    exists a: Action :: Act(s, a, apart) == Some(s')
  }

  /** A run from the empty warehouse. */
  ghost predicate Run(trace: seq<System>, apart: (Sku, Sku) -> bool) {
    && trace != [] && trace[0] == EMPTY
    && forall i :: 0 <= i < |trace| - 1 ==> Step(trace[i], trace[i + 1], apart)
  }
}
