/**
 What one use case does to the books when it runs alone over repositories that never fail, and what that guarantees
 over any sequence of them.
 */
module UseCases {
  import opened Shared
  import opened Stock
  import opened Location
  import opened Claims
  import opened Sums
  import opened Ledger
  import opened Transitions
  import opened GreedyAllocation
  import opened CycleCounting

  // ---- sums over whatever order a repository listed the keys in

  /** Listing exactly the keys that contribute gives the sum over the whole map, in any order. */
  lemma {:induction false} ListedSum<K(!new), V>(order: seq<K>, m: map<K, V>, f: V -> int)
    requires Distinct(order) && forall k :: k in order ==> k in m
    requires forall k :: k in m && k !in order ==> f(m[k]) == 0
    ensures Sum(m, f) == ListTally(order, m, f)
    decreases |order|
  {
    if order == [] {
      SumZero(m, f);
    } else {
      var n := |order| - 1;
      SumRemove(m, order[n], f);
      ListedSum(order[..n], m - {order[n]}, f);
      TallySameValues(order[..n], m, m - {order[n]}, f);
    }
  }

  ghost function ListTally<K, V>(order: seq<K>, m: map<K, V>, f: V -> int): int
    requires forall k :: k in order ==> k in m
  {
    if order == [] then 0 else ListTally(order[..|order| - 1], m, f) + f(m[order[|order| - 1]])
  }

  lemma {:induction false} TallySameValues<K, V>(order: seq<K>, m: map<K, V>, n: map<K, V>, f: V -> int)
    requires forall k :: k in order ==> k in m && k in n && m[k] == n[k]
    ensures ListTally(order, m, f) == ListTally(order, n, f)
  {
    if order != [] {
      TallySameValues(order[..|order| - 1], m, n, f);
    }
  }

  // ---- usable stock

  ghost function UsableQty(sku: Sku): UnitData -> int {
    (u: UnitData) => if u.sku == sku then u.Usable() else 0
  }

  /** Usable stock of a SKU. */
  ghost function UsableOf(units: Units, sku: Sku): int {
    Sum(units, UsableQty(sku))
  }

  ghost function UnitsOf(units: Units, sku: Sku): set<UnitId> {
    set u | u in units && units[u].sku == sku
  }

  /** Adding up usable quantities unit by unit gives the SKU's usable stock, in any order of the units. */
  lemma UsableInAnyOrder(order: seq<UnitId>, units: Units, sku: Sku)
    requires OrderOf(order, UnitsOf(units, sku))
    ensures TotalUsable(order, units) == UsableOf(units, sku)
  {
    ListedSum(order, units, UsableQty(sku));
    UsableListed(order, units, sku);
  }

  lemma {:induction false} UsableListed(order: seq<UnitId>, units: Units, sku: Sku)
    requires forall u :: u in order ==> u in units && units[u].sku == sku
    ensures TotalUsable(order, units) == ListTally(order, units, UsableQty(sku))
  {
    if order != [] {
      UsableListed(order[..|order| - 1], units, sku);
    }
  }

  // ---- expiring what is due

  ghost predicate IsDue(d: ResData, ref: string, now: Time) {
    d.demandRef == ref && d.status == ACTIVE && d.IsExpired(now)
  }

  /** The clock readings of one call: the one taken when a reservation was looked at. */
  type Clock = ResId -> Time

  ghost function DueOf(b: Books, ref: string, clock: Clock): set<ResId> {
    set r | r in b.reservations && IsDue(b.reservations[r], ref, clock(r))
  }

  /** The listed reservations expire one after the other. */
  ghost predicate Expires(b: Books, order: seq<ResId>, b': Books)
    decreases |order|
  {
    if order == [] then b' == b
    else
      var front, last := order[..|order| - 1], order[|order| - 1];
      exists m: Books :: Expires(b, front, m) && Resolves(m, last, EXPIRED, b')
  }

  /** Every due reservation of the demand is expired, in some order. */
  ghost predicate ExpiresDue(b: Books, ref: string, clock: Clock, b': Books) {
    exists order: seq<ResId> :: OrderOf(order, DueOf(b, ref, clock)) && Expires(b, order, b')
  }

  /** Expiring a list changes the status of exactly those reservations. */
  lemma {:induction false} ExpiredStatuses(b: Books, order: seq<ResId>, b': Books)
    requires Expires(b, order, b')
    ensures b'.reservations.Keys == b.reservations.Keys
    ensures forall r :: r in order ==> r in b.reservations && b.reservations[r].status == ACTIVE
    ensures forall r :: r in b.reservations ==>
      b'.reservations[r] == if r in order then b.reservations[r].(status := EXPIRED) else b.reservations[r]
    decreases |order|
  {
    hide UnitsSettled, BinsSettled;
    if order != [] {
      var n := |order| - 1;
      var m: Books :| Expires(b, order[..n], m) && Resolves(m, order[n], EXPIRED, b');
      ExpiredStatuses(b, order[..n], m);
    }
  }

  lemma {:induction false} ExpiredLawful(b: Books, order: seq<ResId>, b': Books)
    requires Lawful(b, NoGap()) && Expires(b, order, b')
    ensures Lawful(b', NoGap())
    decreases |order|
  {
    hide Lawful, Resolves;
    if order != [] {
      var m: Books :| Expires(b, order[..|order| - 1], m) && Resolves(m, order[|order| - 1], EXPIRED, b');
      ExpiredLawful(b, order[..|order| - 1], m);
      ResolvedLawful(m, order[|order| - 1], EXPIRED, b', NoGap());
    }
  }

  // ---- revoking and confirming

  /** Revocation with one clock reading: what is due expires instead, and only then is the status looked at. */
  ghost predicate Revoked(b: Books, r: ResId, now: Time, b': Books, out: Outcome) {
    if r !in b.reservations then b' == b && out == Fail(ReservationNotFound)
    else if b.reservations[r].status != ACTIVE then b' == b && out == Fail(AlreadyResolved)
    else if b.reservations[r].IsExpired(now) then Resolves(b, r, EXPIRED, b') && out == Fail(AlreadyResolved)
    else Resolves(b, r, REVOKED, b') && out == Pass
  }

  /** Confirmation reads the clock twice: a reservation may run out between the two readings and stay as it was. */
  ghost predicate Confirmed(b: Books, r: ResId, first: Time, second: Time, b': Books, out: Outcome) {
    if r !in b.reservations then b' == b && out == Fail(ReservationNotFound)
    else if b.reservations[r].status != ACTIVE then b' == b && out == Fail(AlreadyResolved)
    else if b.reservations[r].IsExpired(first) then Resolves(b, r, EXPIRED, b') && out == Fail(AlreadyResolved)
    else if b.reservations[r].IsExpired(second) then b' == b && out == Fail(Expired)
    else Resolves(b, r, CONFIRMED, b') && out == Pass
  }

  // ---- reserving

  const DEFAULT_TIMEOUT := 30 * 60 * 1_000_000_000

  function TimeoutOr(timeout: int): int {
    if timeout <= 0 then DEFAULT_TIMEOUT else timeout
  }

  /** An open reservation that a repeated request would have created. */
  predicate IsReplay(d: ResData, sku: Sku, qty: Quantity, ref: string) {
    d.status == ACTIVE && d.demandRef == ref && d.sku == sku && d.quantity == qty
  }

  ghost predicate NoReplay(b: Books, sku: Sku, qty: Quantity, ref: string) {
    forall r :: r in b.reservations ==> !IsReplay(b.reservations[r], sku, qty, ref)
  }

  /** A unit after a draw of q from it. */
  function DrawnUnit(d: UnitData, q: Quantity): UnitData {
    if q == 0 then d
    else match d.Reserve(q)
         case Ok(v) => v
         case Err(_) => d
  }

  /** The units after these draws, and no other change. */
  ghost predicate UnitsDrawn(units: Units, allocs: seq<Allocation>, units': Units) {
    && units'.Keys == units.Keys
    && forall u :: u in units ==> units'[u] == DrawnUnit(units[u], DrawnOn(allocs, u))
  }

  /** A new reservation: drawn greedily from the SKU's units in some order, covering the quantity, and reported. */
  ghost predicate Allocates(b: Books, r: ResId, data: ResData, order: seq<UnitId>, b': Books) {
    && r !in b.reservations && data.status == ACTIVE
    && OrderOf(order, UnitsOf(b.units, data.sku))
    && data.allocations == Greedy(order, b.units, data.quantity)
    && data.quantity <= UsableOf(b.units, data.sku)
    && UnitsDrawn(b.units, data.allocations, b'.units)
    && b'.bins == b.bins
    && b'.reservations == b.reservations[r := data]
    && b'.log == b.log + [StockReserved(r, data.sku, data.quantity)]
  }

  /** A reserve once due reservations are out of the way: a replay, a new reservation, or not enough stock. */
  ghost predicate ReservesOrReplays(b: Books, sku: Sku, qty: Quantity, ref: string, now: Time, timeout: int,
                                    b': Books, out: Result<ResId>)
  {
    match out
    case Ok(r) =>
      if r in b.reservations then IsReplay(b.reservations[r], sku, qty, ref) && b' == b
      else
        && NoReplay(b, sku, qty, ref)
        && r in b'.reservations
        && b'.reservations[r].(allocations := []) == ResData(sku, qty, ref, [], ACTIVE, now, now + TimeoutOr(timeout))
        && exists order: seq<UnitId> :: Allocates(b, r, b'.reservations[r], order, b')
    case Err(e) => e == InsufficientUsable && NoReplay(b, sku, qty, ref) && qty > UsableOf(b.units, sku) && b' == b
  }

  ghost predicate Reserved(b: Books, sku: Sku, qty: Quantity, ref: string, clock: Clock, now: Time, timeout: int,
                           b': Books, out: Result<ResId>)
  {
    if qty == 0 then b' == b && out == Err(ZeroQuantity)
    else exists m: Books :: ExpiresDue(b, ref, clock, m) && ReservesOrReplays(m, sku, qty, ref, now, timeout, b', out)
  }

  // ---- stowing, registering, counting

  /** A stow that passed its placement and segregation checks. */
  ghost predicate Stowed(b: Books, sku: Sku, qty: Quantity, bin: BinId, placement: Outcome, b': Books, out: Result<UnitId>) {
    if bin !in b.bins then b' == b && out == Err(BinNotFound)
    else if placement.Fail? then b' == b && out == Err(placement.error)
    else match NewUnit(sku, bin, qty)
      case Err(e) => b' == b && out == Err(e)
      case Ok(unit) =>
        match b.bins[bin].Occupy(qty)
        case Err(e) => b' == b && out == Err(e)
        case Ok(_) => out.Ok? && Stows(b, out.value, unit, b')
  }

  datatype BinOutcome = BinCreated | BinUnchanged | BinResized

  /** Registration converges the bin to the wanted capacity, and never below what it holds. */
  ghost predicate Registered(b: Books, bin: BinId, capacity: Quantity, b': Books, out: Result<BinOutcome>) {
    if bin == "" then b' == b && out == Err(EmptyBinId)
    else if capacity == 0 then b' == b && out == Err(InvalidCapacity)
    else if bin !in b.bins then SetsBin(b, bin, BinData(capacity, 0), b') && out == Ok(BinCreated)
    else if b.bins[bin].capacity == capacity then b' == b && out == Ok(BinUnchanged)
    else if b.bins[bin].occupied > capacity then b' == b && out == Err(CapacityBelowOccupancy)
    else SetsBin(b, bin, BinData(capacity, b.bins[bin].occupied), b') && out == Ok(BinResized)
  }

  ghost function UnitsIn(units: Units, bin: BinId): set<UnitId> {
    set u | u in units && units[u].bin == bin
  }

  ghost function LostUnits(lost: seq<Allocation>): set<UnitId> {
    set i | 0 <= i < |lost| :: lost[i].unit
  }

  datatype CountReport = CountReport(system: Quantity, discrepancy: bool)

  /** A cycle count, deciding from the bin's units in some order. */
  ghost predicate Counted(b: Books, bin: BinId, counted: Quantity, b': Books, out: CountReport) {
    exists order: seq<UnitId> :: OrderOf(order, UnitsIn(b.units, bin)) && CountedInOrder(b, bin, counted, order, b', out)
  }

  ghost predicate CountedInOrder(b: Books, bin: BinId, counted: Quantity, order: seq<UnitId>, b': Books, out: CountReport)
    requires forall u :: u in order ==> u in b.units
  {
    var c := Count(bin, counted, order, b.units);
    && Flags(b, LostUnits(c.lost), b', c.events)
    && out == CountReport(c.systemQty, counted != c.systemQty)
  }

  // ---- any sequence of calls

  /** At most one open reservation for the same demand, SKU and quantity. */
  ghost predicate OneOpenEach(b: Books) {
    forall r, s :: r in b.reservations && s in b.reservations && SameDemand(b.reservations[r], b.reservations[s]) ==> r == s
  }

  predicate SameDemand(d: ResData, e: ResData) {
    e.status == ACTIVE && IsReplay(d, e.sku, e.quantity, e.demandRef)
  }

  /** Nothing in the bin has to be kept apart from the SKU. */
  ghost predicate NoClash(units: Units, sku: Sku, bin: BinId, apart: (Sku, Sku) -> bool) {
    forall u :: u in units && units[u].bin == bin && units[u].sku != sku ==> !apart(sku, units[u].sku)
  }

  /** One use case ran, with some arguments and clock readings. */
  ghost predicate CallStep(b: Books, b': Books, apart: (Sku, Sku) -> bool) {
    || (exists sku, qty, bin, placement, out ::
          Stowed(b, sku, qty, bin, placement, b', out) && (placement == Pass ==> NoClash(b.units, sku, bin, apart)))
    || (exists sku, qty, ref, clock, now, timeout, out :: Reserved(b, sku, qty, ref, clock, now, timeout, b', out))
    || (exists r, now, out :: Revoked(b, r, now, b', out))
    || (exists r, first, second, out :: Confirmed(b, r, first, second, b', out))
    || (exists bin, counted, out :: Counted(b, bin, counted, b', out))
    || (exists bin, capacity, out :: Registered(b, bin, capacity, b', out))
    || (exists ref, clock :: ExpiresDue(b, ref, clock, b'))
  }

  const NO_BOOKS: Books := Books(map[], map[], map[], [])

  ghost predicate CallRun(trace: seq<Books>, apart: (Sku, Sku) -> bool) {
    && trace != [] && trace[0] == NO_BOOKS
    && forall i :: 0 <= i < |trace| - 1 ==> CallStep(trace[i], trace[i + 1], apart)
  }
}
