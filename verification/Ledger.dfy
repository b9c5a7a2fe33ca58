/**
 The warehouse's books as plain values: stock units, bins, reservations and the published events, the laws that
 tie them together, and what each kind of change does to those laws. Both the in-memory use cases and the
 concurrent row store are proved against these.
 */
module Ledger {
  import opened Shared
  import opened Stock
  import opened Location
  import opened Claims
  import opened Sums

  /** A published event as it reaches the outbox; reservation events already carry the SKU looked up for them. */
  datatype Event =
    | StockReceived(sku: Sku, quantity: Quantity)
    | ItemStowed(sku: Sku, bin: BinId, quantity: Quantity)
    | LocationRecorded(unit: UnitId, bin: BinId)
    | StockReserved(res: ResId, sku: Sku, quantity: Quantity)
    | ReservationExpired(res: ResId, sku: Sku)
    | ReservationRevoked(res: ResId, sku: Sku)
    | StockPicked(res: ResId, sku: Sku, quantity: Quantity)
    | DiscrepancyDetected(bin: BinId, counted: Quantity, system: Quantity)
    | ItemUnlocated(unit: UnitId, sku: Sku, bin: BinId, quantity: Quantity)
    | CycleCountCompleted(bin: BinId, counted: Quantity, system: Quantity, discrepancy: bool)

  type Units = map<UnitId, UnitData>
  type Bins = map<BinId, BinData>
  type Reservations = map<ResId, ResData>

  datatype BooksWith<L> = Books(units: Units, bins: Bins, reservations: Reservations, log: L)

  /** The log is kept as a type argument: it spares the solver the structural order on sequences. */
  type Books = BooksWith<seq<Event>>

  // ---- allocations

  /** How much of an allocation list was drawn from one unit. */
  function DrawnOn(allocs: seq<Allocation>, u: UnitId): nat {
    if allocs == [] then 0
    else DrawnOn(allocs[..|allocs| - 1], u) + if allocs[|allocs| - 1].unit == u then allocs[|allocs| - 1].quantity else 0
  }

  function Total(allocs: seq<Allocation>): nat {
    if allocs == [] then 0 else Total(allocs[..|allocs| - 1]) + allocs[|allocs| - 1].quantity
  }

  /** How much of an allocation list sits in one bin. */
  function DrawnFrom(allocs: seq<Allocation>, b: BinId): nat {
    if allocs == [] then 0
    else DrawnFrom(allocs[..|allocs| - 1], b) + if allocs[|allocs| - 1].bin == b then allocs[|allocs| - 1].quantity else 0
  }

  predicate DistinctUnits(allocs: seq<Allocation>) {
    forall i, j :: 0 <= i < j < |allocs| ==> allocs[i].unit != allocs[j].unit
  }

  /** Each allocation is positive, names a distinct existing unit of the SKU, and records that unit's bin. */
  predicate DrawsOn(allocs: seq<Allocation>, units: Units, sku: Sku) {
    && DistinctUnits(allocs)
    && forall i :: 0 <= i < |allocs| ==>
         && allocs[i].quantity > 0
         && allocs[i].unit in units
         && units[allocs[i].unit].sku == sku
         && units[allocs[i].unit].bin == allocs[i].bin
  }

  lemma {:induction false} DrawnOnAbsent(allocs: seq<Allocation>, u: UnitId)
    requires forall i :: 0 <= i < |allocs| ==> allocs[i].unit != u
    ensures DrawnOn(allocs, u) == 0
  {
    if allocs != [] {
      DrawnOnAbsent(allocs[..|allocs| - 1], u);
    }
  }

  /** With distinct units, what was drawn on a unit is the one allocation that names it. */
  lemma {:induction false} DrawnOnAt(allocs: seq<Allocation>, i: nat)
    requires DistinctUnits(allocs) && i < |allocs|
    ensures DrawnOn(allocs, allocs[i].unit) == allocs[i].quantity
  {
    var front := allocs[..|allocs| - 1];
    if i == |allocs| - 1 {
      DrawnOnAbsent(front, allocs[i].unit);
    } else {
      DrawnOnAt(front, i);
    }
  }

  // ---- the laws

  /** Which units a sum of quantities ranges over. */
  datatype Selector = InBin(bin: BinId) | OfSku(sku: Sku) {
    predicate Has(u: UnitData) {
      match this
      case InBin(b) => u.bin == b
      case OfSku(s) => u.sku == s
    }
  }

  ghost function Quantities(sel: Selector): UnitData -> int {
    (u: UnitData) => if sel.Has(u) then u.quantity else 0
  }

  /** Stock on hand in a bin or of a SKU. */
  ghost function OnHand(units: Units, sel: Selector): int {
    Sum(units, Quantities(sel))
  }

  ghost function ActiveDraw(u: UnitId): ResData -> int {
    (r: ResData) => if r.status == ACTIVE then DrawnOn(r.allocations, u) else 0
  }

  /** The sum of ACTIVE allocations on one unit. */
  ghost function Active(reservations: Reservations, u: UnitId): int {
    Sum(reservations, ActiveDraw(u))
  }

  /** Reserved stock with no ACTIVE reservation behind it (yet): nothing, in a sequential run. */
  function NoGap(): UnitId -> nat {
    (u: UnitId) => 0
  }

  ghost predicate UnitsSound(units: Units) {
    forall u :: u in units ==> units[u].Sound()
  }

  ghost predicate ClaimsSound(units: Units, reservations: Reservations) {
    forall r :: r in reservations ==>
      && DrawsOn(reservations[r].allocations, units, reservations[r].sku)
      && Total(reservations[r].allocations) == reservations[r].quantity
  }

  /** The reservation ledger: what a unit says is reserved is what ACTIVE reservations (and the gap) say. */
  ghost predicate Covered(units: Units, reservations: Reservations, gap: UnitId -> nat) {
    forall u :: u in units ==> units[u].reserved == Active(reservations, u) + gap(u)
  }

  /** Bin conservation: a bin's occupancy is the stock recorded in it, within capacity. */
  ghost predicate BinsBalanced(units: Units, bins: Bins) {
    && (forall b :: b in bins ==> bins[b].occupied == OnHand(units, InBin(b)) && bins[b].occupied <= bins[b].capacity)
    && (forall u :: u in units ==> units[u].bin in bins)
  }

  // ---- what the log must say

  ghost function StowedQty(sku: Sku): Event -> int {
    (e: Event) => if e.ItemStowed? && e.sku == sku then e.quantity else 0
  }

  ghost function PickedQty(sku: Sku): Event -> int {
    (e: Event) => if e.StockPicked? && e.sku == sku then e.quantity else 0
  }

  /** +1 for a reservation created, -1 for one expired or revoked. */
  ghost function NetCreated(sku: Sku): Event -> int {
    (e: Event) =>
      if e.StockReserved? && e.sku == sku then 1
      else if (e.ReservationExpired? || e.ReservationRevoked?) && e.sku == sku then -1
      else 0
  }

  /** 1 for an event that reports reservation r leaving ACTIVE for the given status. */
  ghost function ResolutionOf(r: ResId, to: Status): Event -> int {
    (e: Event) =>
      match e
      case ReservationExpired(x, _) => if x == r && to == EXPIRED then 1 else 0
      case ReservationRevoked(x, _) => if x == r && to == REVOKED then 1 else 0
      case StockPicked(x, _, _) => if x == r && to == CONFIRMED then 1 else 0
      case _ => 0
  }

  ghost function Standing(sku: Sku): ResData -> int {
    (r: ResData) => if r.sku == sku && (r.status == ACTIVE || r.status == CONFIRMED) then 1 else 0
  }

  ghost function ConfirmedQty(sku: Sku): ResData -> int {
    (r: ResData) => if r.sku == sku && r.status == CONFIRMED then r.quantity else 0
  }

  /** Per SKU: stowed minus picked is on hand; picked is confirmed. */
  ghost predicate SkuAudited(b: Books, sku: Sku) {
    && Tally(b.log, StowedQty(sku)) - Tally(b.log, PickedQty(sku)) == OnHand(b.units, OfSku(sku))
    && Tally(b.log, PickedQty(sku)) == Sum(b.reservations, ConfirmedQty(sku))
  }

  ghost function CreatedFor(sku: Sku): Event -> int {
    (e: Event) => if e.StockReserved? && e.sku == sku then 1 else 0
  }

  /** 1 for an event that reports a reservation of the SKU ending as this. */
  ghost function EndedAs(sku: Sku, to: Status): Event -> int {
    (e: Event) =>
      match e
      case ReservationExpired(_, s) => if s == sku && to == EXPIRED then 1 else 0
      case ReservationRevoked(_, s) => if s == sku && to == REVOKED then 1 else 0
      case StockPicked(_, s, _) => if s == sku && to == CONFIRMED then 1 else 0
      case _ => 0
  }

  ghost function MadeOf(sku: Sku): ResData -> int {
    (r: ResData) => if r.sku == sku then 1 else 0
  }

  ghost function EndedOf(sku: Sku, to: Status): ResData -> int {
    (r: ResData) => if r.sku == sku && r.status == to then 1 else 0
  }

  /** Per SKU: as many reservations as were reported created, and of each resolved status as many as were reported. */
  ghost predicate SkuCounted(b: Books, sku: Sku) {
    && Tally(b.log, CreatedFor(sku)) == Sum(b.reservations, MadeOf(sku))
    && forall to :: to != ACTIVE ==> Tally(b.log, EndedAs(sku, to)) == Sum(b.reservations, EndedOf(sku, to))
  }

  lemma {:induction false} NetIsCreatedLessEnded(log: seq<Event>, sku: Sku)
    ensures Tally(log, NetCreated(sku)) ==
            Tally(log, CreatedFor(sku)) - Tally(log, EndedAs(sku, EXPIRED)) - Tally(log, EndedAs(sku, REVOKED))
  {
    if log != [] {
      NetIsCreatedLessEnded(log[..|log| - 1], sku);
    }
  }

  /** Created minus expired minus revoked is what stands. */
  lemma NetIsStanding(b: Books, sku: Sku)
    requires SkuCounted(b, sku)
    ensures Tally(b.log, NetCreated(sku)) == Sum(b.reservations, Standing(sku))
  {
    NetIsCreatedLessEnded(b.log, sku);
    SumOfThree(b.reservations, MadeOf(sku), Standing(sku), EndedOf(sku, EXPIRED), EndedOf(sku, REVOKED));
  }

  /** Each resolved reservation is reported exactly once, as what it became; an ACTIVE one not at all. */
  ghost predicate ResolutionsLogged(b: Books) {
    forall r, to :: to != ACTIVE ==>
      Tally(b.log, ResolutionOf(r, to)) == if r in b.reservations && b.reservations[r].status == to then 1 else 0
  }

  ghost predicate Audited(b: Books) {
    && (forall sku :: SkuAudited(b, sku))
    && (forall sku :: SkuCounted(b, sku))
    && ResolutionsLogged(b)
  }

  /** All the laws at once. */
  ghost predicate Lawful(b: Books, gap: UnitId -> nat) {
    && UnitsSound(b.units)
    && ClaimsSound(b.units, b.reservations)
    && Covered(b.units, b.reservations, gap)
    && BinsBalanced(b.units, b.bins)
    && Audited(b)
  }

  // ---- hazard segregation

  /** No two units of different SKUs share a bin when their hazard classes must be kept apart. */
  ghost predicate Segregated(units: Units, apart: (Sku, Sku) -> bool) {
    forall u, v :: u in units && v in units && units[u].bin == units[v].bin && units[u].sku != units[v].sku ==>
      !apart(units[u].sku, units[v].sku)
  }
}
