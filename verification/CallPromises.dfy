/** What single use cases promise: usable stock comes back, retries replay, counts reconcile, removed units stay. */
module CallPromises {
  import opened Shared
  import opened Stock
  import opened Claims
  import opened Sums
  import opened Ledger
  import opened Transitions
  import opened GreedyAllocation
  import opened CycleCounting
  import opened UseCases
  import opened Sequential

  // ---- return to usable

  /** How much of an allocation list lies on units that can still be located. */
  function OnLocatable(allocs: seq<Allocation>, units: Units): nat {
    if allocs == [] then 0
    else
      var a := allocs[|allocs| - 1];
      OnLocatable(allocs[..|allocs| - 1], units) + if a.unit in units && units[a.unit].Locatable() then a.quantity else 0
  }

  lemma ReleasedUsable(units: Units, u: UnitId, q: Quantity, to: Status, sku: Sku)
    requires u in units && 0 < q <= units[u].reserved <= units[u].quantity && to != CONFIRMED
    ensures UsableOf(units[u := Settled(to, units[u], q)], sku) ==
            UsableOf(units, sku) + if units[u].sku == sku && units[u].Locatable() then q else 0
  {
    SumUpdate(units, u, Settled(to, units[u], q), UsableQty(sku));
  }

  lemma {:induction false} ReleasedUsableAll(units: Units, allocs: seq<Allocation>, sku: Sku, to: Status, units': Units, s: Sku)
    requires DrawsOn(allocs, units, sku) && Holds(units, allocs) && UnitsSettled(units, allocs, to, units') && to != CONFIRMED
    ensures UsableOf(units', s) == UsableOf(units, s) + if s == sku then OnLocatable(allocs, units) else 0
    decreases |allocs|
  {
    hide UsableOf, DrawnOn, Settled;
    if allocs == [] {
      SettledByNone(units, to, units');
    } else {
      var n := |allocs| - 1;
      var a := allocs[n];
      var before := units'[a.unit := units[a.unit]];
      SettledButLast(units, allocs, sku, to, units');
      hide UnitsSettled, Holds;
      ReleasedUsableAll(units, allocs[..n], sku, to, before, s);
      ReleasedUsable(before, a.unit, a.quantity, to, s);
      assert units' == before[a.unit := units'[a.unit]];
    }
  }

  lemma SettledByNone(units: Units, to: Status, units': Units)
    requires UnitsSettled(units, [], to, units')
    ensures units' == units
  {
  }

  /**
   Return to usable, however late: a revocation or expiry lowers each allocated unit's reserved by exactly its
   allocation, leaves all quantities and bins alone, and raises usable stock by the allocations on located units.
   */
  lemma ReleaseReturnsToUsable(b: Books, r: ResId, to: Status, b': Books, sku: Sku)
    requires Lawful(b, NoGap()) && Resolves(b, r, to, b') && to != CONFIRMED
    ensures DrawsOn(b.reservations[r].allocations, b.units, b.reservations[r].sku)
    ensures forall u :: u in b.units ==>
      && u in b'.units && b'.units[u].quantity == b.units[u].quantity
      && b'.units[u].reserved == b.units[u].reserved - DrawnOn(b.reservations[r].allocations, u)
      && (b'.units[u].Locatable() <==> b.units[u].Locatable())
    ensures b'.bins == b.bins
    ensures UsableOf(b'.units, sku) == UsableOf(b.units, sku)
      + if sku == b.reservations[r].sku then OnLocatable(b.reservations[r].allocations, b.units) else 0
  {
    hide UsableOf, DrawnOn, Active, OnHand, Audited, Total, OnLocatable;
    ActiveIsHeld(b, r, NoGap());
    var allocs := b.reservations[r].allocations;
    assert DrawsOn(allocs, b.units, b.reservations[r].sku);
    hide Lawful, DrawsOn;
    ReleasedUsableAll(b.units, allocs, b.reservations[r].sku, to, b'.units, sku);
    SameBins(b.bins, allocs, to, b'.bins);
  }

  lemma SameBins(bins: Bins, allocs: seq<Allocation>, to: Status, bins': Bins)
    requires BinsSettled(bins, allocs, to, bins') && to != CONFIRMED
    ensures bins' == bins
  {
    forall k | k in bins ensures bins'[k] == bins[k] {
    }
  }

  /**
   With nothing in between, reserving and then revoking restores every quantity and every reserved part. The state
   comes back too, except on a drawn unit that was PICKED: that one ends AVAILABLE or RESERVED.
   */
  lemma ReserveThenRevoke(b: Books, r: ResId, data: ResData, order: seq<UnitId>, b1: Books, b2: Books, u: UnitId)
    requires Lawful(b, NoGap()) && Allocates(b, r, data, order, b1) && Resolves(b1, r, REVOKED, b2) && u in b.units
    ensures u in b2.units && b2.units[u] == b.units[u].(state := b2.units[u].state)
    ensures b2.units[u] == b.units[u] <==> DrawnOn(data.allocations, u) == 0 || b.units[u].state != PICKED
  {
    AllocationFacts(b, r, data, order, b1);
    DrawWithinUsable(data.allocations, order, b.units, u);
    assert b.units[u].Sound() by {
      hide Covered, ClaimsSound, BinsBalanced, Audited;
    }
    hide Allocates, Lawful, FairDraw, DrawsOn, DrawnOn, Total, BinsSettled;
    DrawnThenSettled(b, r, data, b1, b2, u);
    RevertedUnit(b.units[u], DrawnOn(data.allocations, u));
  }

  lemma DrawnThenSettled(b: Books, r: ResId, data: ResData, b1: Books, b2: Books, u: UnitId)
    requires b1.units == DrawnFirst(b.units, data.allocations) && b1.reservations == b.reservations[r := data]
    requires Resolves(b1, r, REVOKED, b2) && u in b.units
    ensures u in b2.units
    ensures var q := DrawnOn(data.allocations, u); b2.units[u] == Settled(REVOKED, DrawnUnit(b.units[u], q), q)
  {
    hide DrawnOn, BinsSettled, Settled, DrawnUnit;
    assert b1.units[u] == DrawnUnit(b.units[u], DrawnOn(data.allocations, u));
  }

  lemma RevertedUnit(d: UnitData, q: Quantity)
    requires d.Sound() && q <= d.Usable()
    ensures var back := Settled(REVOKED, DrawnUnit(d, q), q);
      back == d.(state := back.state) && (back == d <==> q == 0 || d.state != PICKED)
  {
  }

  lemma DrawWithinUsable(allocs: seq<Allocation>, order: seq<UnitId>, units: Units, u: UnitId)
    requires (forall x :: x in order ==> x in units) && FairDraw(allocs, order, units) && u in units
    ensures DrawnOn(allocs, u) <= units[u].Usable()
  {
    if i :| 0 <= i < |allocs| && allocs[i].unit == u {
      DrawnOnAt(allocs, i);
    } else {
      DrawnOnAbsent(allocs, u);
    }
  }

  // ---- replay

  /** Expiring what is due leaves no due reservation of the demand, and touches no other. */
  lemma AfterExpiry(b: Books, ref: string, clock: Clock, m: Books)
    requires ExpiresDue(b, ref, clock, m)
    ensures m.reservations.Keys == b.reservations.Keys
    ensures forall r :: r in b.reservations ==>
      m.reservations[r] ==
      if IsDue(b.reservations[r], ref, clock(r)) then b.reservations[r].(status := EXPIRED) else b.reservations[r]
  {
    var due: seq<ResId> :| OrderOf(due, DueOf(b, ref, clock)) && Expires(b, due, m);
    ExpiredStatuses(b, due, m);
    hide Expires;
  }

  /**
   Repeating a reserve, whatever was called in between, as long as its reservation is open and has not run out, hands
   back that reservation and draws nothing: all that happens is the expiry of whatever else is due for the demand.
   */
  lemma RetryReplays(b: Books, r: ResId, sku: Sku, qty: Quantity, ref: string, clock: Clock, now: Time, timeout: int,
                     b': Books, out: Result<ResId>, apart: (Sku, Sku) -> bool)
    requires Sequential.Orderly(b, apart) && r in b.reservations && IsReplay(b.reservations[r], sku, qty, ref)
    requires clock(r) <= b.reservations[r].expiresAt
    requires qty > 0 && Reserved(b, sku, qty, ref, clock, now, timeout, b', out)
    ensures out == Ok(r) && ExpiresDue(b, ref, clock, b')
    ensures b'.reservations.Keys == b.reservations.Keys && b'.reservations[r] == b.reservations[r]
    ensures DueOf(b, ref, clock) == {} ==> b' == b
  {
    assert OneOpenEach(b) by {
      hide Lawful, Segregated, OneOpenEach;
    }
    hide Sequential.Orderly, ExpiresDue, ReservesOrReplays, OneOpenEach;
    var m: Books :| ExpiresDue(b, ref, clock, m) && ReservesOrReplays(m, sku, qty, ref, now, timeout, b', out);
    hide Reserved;
    ReplayFound(b, sku, qty, ref, clock, now, timeout, m, r, b', out);
    NothingDue(b, ref, clock, m);
  }

  /** The open reservation survives the expiries, so the retry finds it, and it alone. */
  lemma ReplayFound(b: Books, sku: Sku, qty: Quantity, ref: string, clock: Clock, now: Time, timeout: int, m: Books, r: ResId,
                    b': Books, out: Result<ResId>)
    requires OneOpenEach(b) && r in b.reservations && IsReplay(b.reservations[r], sku, qty, ref)
    requires clock(r) <= b.reservations[r].expiresAt && ExpiresDue(b, ref, clock, m)
    requires ReservesOrReplays(m, sku, qty, ref, now, timeout, b', out)
    ensures out == Ok(r) && b' == m
    ensures m.reservations[r] == b.reservations[r] && m.reservations.Keys == b.reservations.Keys
  {
    AfterExpiry(b, ref, clock, m);
    hide ExpiresDue, Allocates, UsableOf;
    assert IsReplay(m.reservations[r], sku, qty, ref);
    assert SameDemand(b.reservations[out.value], b.reservations[r]);
  }

  lemma NothingDue(b: Books, ref: string, clock: Clock, m: Books)
    requires ExpiresDue(b, ref, clock, m)
    ensures DueOf(b, ref, clock) == {} ==> m == b
  {
    var due: seq<ResId> :| OrderOf(due, DueOf(b, ref, clock)) && Expires(b, due, m);
    assert |due| > 0 ==> due[0] in due;
  }

  /** A reserve that succeeds hands back an open reservation of that demand, SKU and quantity. */
  lemma ReservedIsOpen(b: Books, sku: Sku, qty: Quantity, ref: string, clock: Clock, now: Time, timeout: int, b': Books,
                       r: ResId)
    requires Reserved(b, sku, qty, ref, clock, now, timeout, b', Ok(r))
    ensures r in b'.reservations && IsReplay(b'.reservations[r], sku, qty, ref)
  {
    hide ExpiresDue, Allocates;
  }

  /** The reservation is still there, with the same terms. */
  ghost predicate TermsKept(b: Books, b': Books, r: ResId)
    requires r in b.reservations
  {
    r in b'.reservations && b'.reservations[r] == b.reservations[r].(status := b'.reservations[r].status)
  }

  lemma CallKeepsTerms(b: Books, b': Books, apart: (Sku, Sku) -> bool, r: ResId)
    requires CallStep(b, b', apart) && r in b.reservations
    ensures TermsKept(b, b', r)
  {
    hide Reserved, NoClash, Expires, Count, UnitsSettled, BinsSettled;
    if sku, qty, bin, placement, out :|
      Stowed(b, sku, qty, bin, placement, b', out) && (placement == Pass ==> NoClash(b.units, sku, bin, apart)) {
    } else if sku, qty, ref, clock, now, timeout, out :| Reserved(b, sku, qty, ref, clock, now, timeout, b', out) {
      ReservedKeepsTerms(b, sku, qty, ref, clock, now, timeout, b', out, r);
    } else if s, now, out :| Revoked(b, s, now, b', out) {
    } else if s, first, second, out :| Confirmed(b, s, first, second, b', out) {
    } else if bin, counted, out :| Counted(b, bin, counted, b', out) {
      CountedKeepsReservations(b, bin, counted, b', out);
    } else if bin, capacity, out :| Registered(b, bin, capacity, b', out) {
    } else if ref, clock :| ExpiresDue(b, ref, clock, b') {
      AfterExpiry(b, ref, clock, b');
    }
  }

  lemma ReservedKeepsTerms(b: Books, sku: Sku, qty: Quantity, ref: string, clock: Clock, now: Time, timeout: int, b': Books,
                           out: Result<ResId>, r: ResId)
    requires Reserved(b, sku, qty, ref, clock, now, timeout, b', out) && r in b.reservations
    ensures TermsKept(b, b', r)
  {
    hide ExpiresDue, UnitsDrawn, Greedy, UsableOf, NoReplay;
    if qty > 0 {
      var m: Books :| ExpiresDue(b, ref, clock, m) && ReservesOrReplays(m, sku, qty, ref, now, timeout, b', out);
      AfterExpiry(b, ref, clock, m);
    }
  }

  lemma CountedKeepsReservations(b: Books, bin: BinId, counted: Quantity, b': Books, out: CountReport)
    requires Counted(b, bin, counted, b', out)
    ensures b'.reservations == b.reservations
  {
    hide Count, LostUnits, SamePlaces;
  }

  lemma {:induction false} RunKeepsTerms(trace: seq<Books>, apart: (Sku, Sku) -> bool, i: nat, j: nat, r: ResId)
    requires CallRun(trace, apart) && i <= j < |trace| && r in trace[i].reservations
    ensures TermsKept(trace[i], trace[j], r)
    decreases j
  {
    hide CallStep, CallRun;
    if i < j {
      RunKeepsTerms(trace, apart, i, j - 1, r);
      CallAt(trace, apart, j - 1);
      CallKeepsTerms(trace[j - 1], trace[j], apart, r);
    }
  }

  /**
   Over any sequence of use cases: the reservation a reserve returned is what every repetition of it returns, as long
   as it has been neither resolved nor run out.
   */
  lemma RetryReplaysLater(trace: seq<Books>, apart: (Sku, Sku) -> bool, i: nat, j: nat, r: ResId, sku: Sku, qty: Quantity,
                          ref: string, clock: Clock, now: Time, timeout: int,
                          clock': Clock, now': Time, timeout': int, b': Books, out: Result<ResId>)
    requires CallRun(trace, apart) && (forall s, t :: apart(s, t) == apart(t, s)) && i < j < |trace|
    requires Reserved(trace[i], sku, qty, ref, clock, now, timeout, trace[i + 1], Ok(r))
    requires r in trace[j].reservations && trace[j].reservations[r].status == ACTIVE
    requires clock'(r) <= trace[j].reservations[r].expiresAt
    requires Reserved(trace[j], sku, qty, ref, clock', now', timeout', b', out)
    ensures out == Ok(r) && ExpiresDue(trace[j], ref, clock', b')
  {
    ReservedIsOpen(trace[i], sku, qty, ref, clock, now, timeout, trace[i + 1], r);
    PositiveReserve(trace[i], sku, qty, ref, clock, now, timeout, trace[i + 1], r);
    hide Reserved, Sequential.Orderly, CallRun, ExpiresDue;
    RunKeepsTerms(trace, apart, i + 1, j, r);
    CallRunOrderly(trace, apart, j);
    RetryReplays(trace[j], r, sku, qty, ref, clock', now', timeout', b', out, apart);
  }

  lemma PositiveReserve(b: Books, sku: Sku, qty: Quantity, ref: string, clock: Clock, now: Time, timeout: int, b': Books, r: ResId)
    requires Reserved(b, sku, qty, ref, clock, now, timeout, b', Ok(r))
    ensures qty > 0
  {
    hide ExpiresDue, ReservesOrReplays;
  }

  // ---- when a reserve fails

  /** What a reservation's expiry gives back to a SKU's usable stock. */
  ghost function ReturnsTo(units: Units, sku: Sku): ResData -> int {
    (d: ResData) => if d.sku == sku then OnLocatable(d.allocations, units) else 0
  }

  ghost function DueClaims(b: Books, ref: string, clock: Clock): Reservations {
    map r | r in b.reservations && IsDue(b.reservations[r], ref, clock(r)) :: b.reservations[r]
  }

  /** What all due reservations of a demand give back to the SKU between them. */
  ghost function DueReturn(b: Books, ref: string, clock: Clock, sku: Sku): int {
    Sum(DueClaims(b, ref, clock), ReturnsTo(b.units, sku))
  }

  /** The same units can be located. */
  ghost predicate SameLocatable(units: Units, units': Units) {
    units'.Keys == units.Keys && forall u :: u in units ==> (units'[u].Locatable() <==> units[u].Locatable())
  }

  lemma {:induction false} SameOnLocatable(allocs: seq<Allocation>, units: Units, units': Units)
    requires SameLocatable(units, units')
    ensures OnLocatable(allocs, units') == OnLocatable(allocs, units)
  {
    if allocs != [] {
      SameOnLocatable(allocs[..|allocs| - 1], units, units');
    }
  }

  /** One expiry more: the SKU's usable stock rises by what that reservation gives back. */
  lemma ExpiryReturns(b: Books, m: Books, r: ResId, m': Books, sku: Sku)
    requires Lawful(m, NoGap()) && Resolves(m, r, EXPIRED, m') && SameLocatable(b.units, m.units)
    requires r in b.reservations && m.reservations[r] == b.reservations[r]
    ensures SameLocatable(b.units, m'.units)
    ensures UsableOf(m'.units, sku) == UsableOf(m.units, sku) + ReturnsTo(b.units, sku)(b.reservations[r])
  {
    hide Lawful, UsableOf, OnLocatable, BinsSettled, DrawnOn, Settled, DrawsOn;
    ReleaseReturnsToUsable(m, r, EXPIRED, m', sku);
    SameOnLocatable(b.reservations[r].allocations, b.units, m.units);
  }

  lemma {:induction false} ExpiredUsable(b: Books, order: seq<ResId>, m: Books, sku: Sku)
    requires Lawful(b, NoGap()) && Expires(b, order, m) && forall r :: r in order ==> r in b.reservations
    ensures SameLocatable(b.units, m.units)
    ensures UsableOf(m.units, sku) == UsableOf(b.units, sku) + ListTally(order, b.reservations, ReturnsTo(b.units, sku))
    decreases |order|
  {
    hide Lawful, Resolves, UsableOf, ReturnsTo, SameLocatable;
    if order == [] {
      SameUnitsLocatable(b.units);
    } else {
      var front, r := order[..|order| - 1], order[|order| - 1];
      var mid: Books :| Expires(b, front, mid) && Resolves(mid, r, EXPIRED, m);
      ExpiredUsable(b, front, mid, sku);
      ExpiredLawful(b, front, mid);
      ExpiredStatuses(b, front, mid);
      StillActive(mid, r, m);
      hide Expires;
      ExpiryReturns(b, mid, r, m, sku);
    }
  }

  lemma SameUnitsLocatable(units: Units)
    ensures SameLocatable(units, units)
  {
  }

  lemma StillActive(b: Books, r: ResId, b': Books)
    requires Resolves(b, r, EXPIRED, b')
    ensures r in b.reservations && b.reservations[r].status == ACTIVE
  {
    hide UnitsSettled, BinsSettled;
  }

  /** Usable stock once the demand's due reservations have expired, in whatever order. */
  lemma UsableAfterExpiry(b: Books, ref: string, clock: Clock, m: Books, sku: Sku)
    requires Lawful(b, NoGap()) && ExpiresDue(b, ref, clock, m)
    ensures UsableOf(m.units, sku) == UsableOf(b.units, sku) + DueReturn(b, ref, clock, sku)
  {
    hide Lawful, Expires, UsableOf, ReturnsTo;
    var due: seq<ResId> :| OrderOf(due, DueOf(b, ref, clock)) && Expires(b, due, m);
    var claims, f := DueClaims(b, ref, clock), ReturnsTo(b.units, sku);
    assert forall r :: r in due ==> r in DueOf(b, ref, clock);
    assert forall r :: r in claims ==> r in DueOf(b, ref, clock);
    ExpiredUsable(b, due, m, sku);
    TallySameValues(due, b.reservations, claims, f);
    ListedSum(due, claims, f);
  }

  /**
   A reserve fails if and only if no open reservation that has not run out replays it, and the quantity exceeds what
   is usable before the call together with what the demand's due reservations give back. Then nothing has happened
   but those expiries.
   */
  lemma ReserveFailsIffShort(b: Books, sku: Sku, qty: Quantity, ref: string, clock: Clock, now: Time, timeout: int, b': Books,
                             out: Result<ResId>)
    requires Lawful(b, NoGap()) && qty > 0 && Reserved(b, sku, qty, ref, clock, now, timeout, b', out)
    ensures out.Err? <==>
      && (forall r :: r in b.reservations && IsReplay(b.reservations[r], sku, qty, ref) ==> clock(r) > b.reservations[r].expiresAt)
      && qty > UsableOf(b.units, sku) + DueReturn(b, ref, clock, sku)
    ensures out.Err? ==> out == Err(InsufficientUsable) && ExpiresDue(b, ref, clock, b')
  {
    hide Lawful, ExpiresDue, UsableOf, DueReturn, Greedy, UnitsDrawn, NoReplay;
    var m: Books :| ExpiresDue(b, ref, clock, m) && ReservesOrReplays(m, sku, qty, ref, now, timeout, b', out);
    UsableAfterExpiry(b, ref, clock, m, sku);
    ReplaysAfterExpiry(b, sku, qty, ref, clock, m);
    OutcomeAfterExpiry(m, sku, qty, ref, now, timeout, b', out);
  }

  lemma OutcomeAfterExpiry(m: Books, sku: Sku, qty: Quantity, ref: string, now: Time, timeout: int, b': Books, out: Result<ResId>)
    requires ReservesOrReplays(m, sku, qty, ref, now, timeout, b', out)
    ensures out.Err? <==> NoReplay(m, sku, qty, ref) && qty > UsableOf(m.units, sku)
    ensures out.Err? ==> b' == m && out == Err(InsufficientUsable)
  {
    hide UsableOf, Greedy, UnitsDrawn;
  }

  /** After the expiries a replay is found exactly if an open one that has not run out was there before. */
  lemma ReplaysAfterExpiry(b: Books, sku: Sku, qty: Quantity, ref: string, clock: Clock, m: Books)
    requires ExpiresDue(b, ref, clock, m)
    ensures NoReplay(m, sku, qty, ref) <==>
      forall r :: r in b.reservations && IsReplay(b.reservations[r], sku, qty, ref) ==> clock(r) > b.reservations[r].expiresAt
  {
    AfterExpiry(b, ref, clock, m);
    hide ExpiresDue;
    if NoReplay(m, sku, qty, ref) {
      forall r | r in b.reservations && IsReplay(b.reservations[r], sku, qty, ref) ensures clock(r) > b.reservations[r].expiresAt {
        assert !IsReplay(m.reservations[r], sku, qty, ref);
      }
    }
  }

  // ---- cycle counts

  ghost function LocatedQty(bin: BinId): UnitData -> int {
    (u: UnitData) => if u.bin == bin && u.state != UNLOCATED && u.state != REMOVED then u.quantity else 0
  }

  /** The quantity a count of the bin is compared with. */
  ghost function LocatedIn(units: Units, bin: BinId): int {
    Sum(units, LocatedQty(bin))
  }

  lemma {:induction false} SystemListed(order: seq<UnitId>, units: Units, bin: BinId)
    requires forall u :: u in order ==> u in units && units[u].bin == bin
    ensures SystemQty(Locatables(order, units), units) == ListTally(order, units, LocatedQty(bin))
  {
    if order != [] {
      var n := |order| - 1;
      SystemListed(order[..n], units, bin);
      var front, ids := Locatables(order[..n], units), Locatables(order, units);
      assert ids != front ==> ids[..|ids| - 1] == front;
    }
  }

  /** The system quantity does not depend on the order in which the bin's units were listed. */
  lemma SystemInAnyOrder(order: seq<UnitId>, units: Units, bin: BinId)
    requires OrderOf(order, UnitsIn(units, bin))
    ensures SystemQty(Locatables(order, units), units) == LocatedIn(units, bin)
  {
    ListedSum(order, units, LocatedQty(bin));
    SystemListed(order, units, bin);
  }

  ghost function Members(ids: seq<UnitId>): set<UnitId> {
    set u | u in ids
  }

  function Flagged(units: Units, lost: set<UnitId>): Units {
    map u | u in units :: if u in lost then units[u].MarkUnlocated() else units[u]
  }

  /** Flagging a prefix of the listed units takes their whole quantities out of what is located. */
  lemma {:induction false} FlaggedLocated(units: Units, ids: seq<UnitId>, bin: BinId)
    requires Distinct(ids) && forall u :: u in ids ==> u in units && units[u].bin == bin && units[u].Locatable()
    ensures LocatedIn(Flagged(units, Members(ids)), bin) == LocatedIn(units, bin) - SystemQty(ids, units)
    decreases |ids|
  {
    if ids == [] {
      assert Flagged(units, Members(ids)) == units;
    } else {
      var n := |ids| - 1;
      var before := Flagged(units, Members(ids[..n]));
      FlaggedLocated(units, ids[..n], bin);
      assert ids == ids[..n] + [ids[n]];
      assert Flagged(units, Members(ids)) == before[ids[n] := units[ids[n]].MarkUnlocated()];
      SumUpdate(before, ids[n], units[ids[n]].MarkUnlocated(), LocatedQty(bin));
    }
  }

  ghost function UnlocatedQty(): Event -> int {
    (e: Event) => if e.ItemUnlocated? then e.quantity else 0
  }

  lemma {:induction false} LossEventsTally(lost: seq<Allocation>, units: Units, bin: BinId)
    requires forall i :: 0 <= i < |lost| ==> lost[i].unit in units
    ensures Tally(LossEvents(lost, units, bin), UnlocatedQty()) == Total(lost)
  {
    if lost != [] {
      var a := lost[|lost| - 1];
      LossEventsTally(lost[..|lost| - 1], units, bin);
      var reported := LossEvents(lost[..|lost| - 1], units, bin);
      TallyAppend(reported, ItemUnlocated(a.unit, units[a.unit].sku, bin, a.quantity), UnlocatedQty());
    }
  }

  /** The located units of a listing: distinct, of the bin, and each once. */
  lemma LocatablesOf(order: seq<UnitId>, units: Units, bin: BinId)
    requires OrderOf(order, UnitsIn(units, bin))
    ensures var ids := Locatables(order, units);
      Distinct(ids) && forall u :: u in ids ==> u in units && units[u].bin == bin && units[u].Locatable()
  {
    LocatablesDistinct(order, units);
  }

  /**
   A count that falls short flags the shortest prefix of the located units that covers the shortfall, and reports
   losses that come to exactly the shortfall.
   */
  lemma ShortfallIsCovered(order: seq<UnitId>, units: Units, bin: BinId, counted: Quantity)
    requires OrderOf(order, UnitsIn(units, bin)) && counted < LocatedIn(units, bin)
    ensures var ids, c := Locatables(order, units), Count(bin, counted, order, units);
      var shortfall := LocatedIn(units, bin) - counted;
      && 0 < |c.lost| <= |ids| && LostUnits(c.lost) == Members(ids[..|c.lost|])
      && SystemQty(ids[..|c.lost| - 1], units) < shortfall <= SystemQty(ids[..|c.lost|], units)
      && Tally(c.events, UnlocatedQty()) == shortfall
  {
    hide Locatables, Losses, LossEvents, SystemQty, LocatedIn, LostUnits;
    SystemInAnyOrder(order, units, bin);
    hide OrderOf;
    var ids := Locatables(order, units);
    var shortfall := LocatedIn(units, bin) - counted;
    LossesAreShortest(ids, units, shortfall);
    ShortfallEvents(bin, counted, SystemQty(ids, units), Losses(ids, units, shortfall), units);
  }

  lemma LossesAreShortest(ids: seq<UnitId>, units: Units, shortfall: Quantity)
    requires (forall u :: u in ids ==> u in units) && 0 < shortfall <= SystemQty(ids, units)
    ensures var lost := Losses(ids, units, shortfall);
      && 0 < |lost| <= |ids| && LostUnits(lost) == Members(ids[..|lost|]) && Total(lost) == shortfall
      && (forall i :: 0 <= i < |lost| ==> lost[i].unit in units)
      && SystemQty(ids[..|lost| - 1], units) < shortfall <= SystemQty(ids[..|lost|], units)
  {
    hide Losses, SystemQty, LostUnits, Members;
    var lost := Losses(ids, units, shortfall);
    LossesFollow(ids, units, shortfall);
    LossesCover(ids, units, shortfall);
    LossesAreNeeded(ids, units, shortfall);
    TakenWithin(lost, ids, units);
    PrefixIsLost(ids, lost);
  }

  lemma PrefixIsLost(ids: seq<UnitId>, lost: seq<Allocation>)
    requires |lost| <= |ids| && forall i :: 0 <= i < |lost| ==> lost[i].unit == ids[i]
    ensures LostUnits(lost) == Members(ids[..|lost|])
  {
    forall u | u in ids[..|lost|] ensures u in LostUnits(lost) {
      var i :| 0 <= i < |lost| && ids[..|lost|][i] == u;
      assert lost[i].unit == u;
    }
    forall u | u in LostUnits(lost) ensures u in ids[..|lost|] {
      var i :| 0 <= i < |lost| && lost[i].unit == u;
      assert ids[..|lost|][i] == u;
    }
  }

  lemma ShortfallEvents(bin: BinId, counted: Quantity, system: Quantity, lost: seq<Allocation>, units: Units)
    requires forall i :: 0 <= i < |lost| ==> lost[i].unit in units
    ensures Tally([DiscrepancyDetected(bin, counted, system)] + LossEvents(lost, units, bin)
                  + [CycleCountCompleted(bin, counted, system, true)], UnlocatedQty()) == Total(lost)
  {
    var first, middle := [DiscrepancyDetected(bin, counted, system)], LossEvents(lost, units, bin);
    TallyConcat(first, middle, UnlocatedQty());
    TallyAppend(first + middle, CycleCountCompleted(bin, counted, system, true), UnlocatedQty());
    LossEventsTally(lost, units, bin);
    assert first[..0] == [];
  }

  /**
   After a count the located stock of the bin is at most what was counted, unless more was counted than recorded;
   then nothing changed.
   */
  lemma CountReconciles(b: Books, bin: BinId, counted: Quantity, b': Books, out: CountReport)
    requires Counted(b, bin, counted, b', out)
    ensures out.system == LocatedIn(b.units, bin) && out.discrepancy == (counted != LocatedIn(b.units, bin))
    ensures counted < out.system ==> LocatedIn(b'.units, bin) <= counted
    ensures counted >= out.system ==> b'.units == b.units
  {
    hide Locatables, Losses, SystemQty, LocatedIn, LossEvents, Members;
    var order: seq<UnitId> :| OrderOf(order, UnitsIn(b.units, bin)) && CountedInOrder(b, bin, counted, order, b', out);
    SystemInAnyOrder(order, b.units, bin);
    var ids, c := Locatables(order, b.units), Count(bin, counted, order, b.units);
    hide LostUnits, OrderOf;
    FlagsAreFlagged(b, LostUnits(c.lost), b', c.events);
    if counted >= LocatedIn(b.units, bin) {
      NothingFlagged(b.units);
    } else {
      hide Count, Flags, Flagged;
      ShortfallIsCovered(order, b.units, bin, counted);
      LocatablesOf(order, b.units, bin);
      PrefixInPlace(ids, |c.lost|, b.units, bin);
      FlaggedLocated(b.units, ids[..|c.lost|], bin);
    }
  }

  lemma FlagsAreFlagged(b: Books, lost: set<UnitId>, b': Books, events: seq<Event>)
    requires Flags(b, lost, b', events)
    ensures b'.units == Flagged(b.units, lost)
  {
  }

  lemma NothingFlagged(units: Units)
    ensures Flagged(units, LostUnits([])) == units
  {
    assert LostUnits([]) == {};
  }

  lemma PrefixInPlace(ids: seq<UnitId>, n: nat, units: Units, bin: BinId)
    requires n <= |ids| && Distinct(ids) && forall u :: u in ids ==> u in units && units[u].bin == bin && units[u].Locatable()
    ensures Distinct(ids[..n]) && forall u :: u in ids[..n] ==> u in units && units[u].bin == bin && units[u].Locatable()
  {
  }

  /** Counting again what a count left located reports no discrepancy and changes no unit. */
  lemma RecountAgrees(b: Books, bin: BinId, again: Quantity, b': Books, out: CountReport)
    requires Counted(b, bin, again, b', out) && again == LocatedIn(b.units, bin)
    ensures !out.discrepancy && b'.units == b.units && b'.log == b.log + [CycleCountCompleted(bin, again, again, false)]
  {
    hide Locatables, Losses, SystemQty, LocatedIn, LossEvents;
    var order: seq<UnitId> :| OrderOf(order, UnitsIn(b.units, bin)) && CountedInOrder(b, bin, again, order, b', out);
    SystemInAnyOrder(order, b.units, bin);
  }

  // ---- removed units

  /** The unit is as it was. */
  ghost predicate Kept(b: Books, b': Books, u: UnitId)
    requires u in b.units
  {
    u in b'.units && b'.units[u] == b.units[u]
  }

  lemma ResolvedKeepsRemoved(b: Books, r: ResId, to: Status, b': Books, u: UnitId)
    requires Lawful(b, NoGap()) && Resolves(b, r, to, b') && u in b.units && b.units[u].state == REMOVED
    ensures Kept(b, b', u)
  {
    hide Active, DrawnOn, OnHand, Audited, BinsSettled, ClaimsSound, BinsBalanced;
    ActiveIsHeld(b, r, NoGap());
    assert b.units[u].Sound();
  }

  lemma {:induction false} ExpiredKeepsRemoved(b: Books, order: seq<ResId>, b': Books, u: UnitId)
    requires Lawful(b, NoGap()) && Expires(b, order, b') && u in b.units && b.units[u].state == REMOVED
    ensures Kept(b, b', u)
    decreases |order|
  {
    hide Lawful, Resolves;
    if order != [] {
      var m: Books :| Expires(b, order[..|order| - 1], m) && Resolves(m, order[|order| - 1], EXPIRED, b');
      ExpiredLawful(b, order[..|order| - 1], m);
      ExpiredKeepsRemoved(b, order[..|order| - 1], m, u);
      ResolvedKeepsRemoved(m, order[|order| - 1], EXPIRED, b', u);
    }
  }

  lemma AllocatedKeepsRemoved(b: Books, r: ResId, data: ResData, order: seq<UnitId>, b': Books, u: UnitId)
    requires Allocates(b, r, data, order, b') && u in b.units && b.units[u].state == REMOVED
    ensures Kept(b, b', u)
  {
    AllocationFacts(b, r, data, order, b');
    hide Allocates, DrawsOn, Total;
    DrawWithinUsable(data.allocations, order, b.units, u);
    hide FairDraw, DrawnOn;
  }

  lemma ReservedKeepsRemoved(b: Books, sku: Sku, qty: Quantity, ref: string, clock: Clock, now: Time, timeout: int, b': Books,
                             out: Result<ResId>, u: UnitId)
    requires Lawful(b, NoGap()) && Reserved(b, sku, qty, ref, clock, now, timeout, b', out)
    requires u in b.units && b.units[u].state == REMOVED
    ensures Kept(b, b', u)
  {
    hide Lawful, Allocates, Expires;
    if qty > 0 {
      var m: Books :| ExpiresDue(b, ref, clock, m) && ReservesOrReplays(m, sku, qty, ref, now, timeout, b', out);
      var due: seq<ResId> :| OrderOf(due, DueOf(b, ref, clock)) && Expires(b, due, m);
      ExpiredKeepsRemoved(b, due, m, u);
      if out.Ok? && out.value !in m.reservations {
        var order: seq<UnitId> :| Allocates(m, out.value, b'.reservations[out.value], order, b');
        AllocatedKeepsRemoved(m, out.value, b'.reservations[out.value], order, b', u);
      }
    }
  }

  /** A unit picked out completely stays exactly as it is through any use case, because nothing is reserved on it. */
  lemma CallKeepsRemoved(b: Books, b': Books, apart: (Sku, Sku) -> bool, u: UnitId)
    requires Sequential.Orderly(b, apart) && CallStep(b, b', apart) && u in b.units && b.units[u].state == REMOVED
    ensures Kept(b, b', u)
  {
    hide Lawful, OneOpenEach, Segregated, Reserved, Resolves, NoClash, Expires, Count, Unmoved;
    if sku, qty, bin, placement, out :|
      Stowed(b, sku, qty, bin, placement, b', out) && (placement == Pass ==> NoClash(b.units, sku, bin, apart)) {
    } else if sku, qty, ref, clock, now, timeout, out :| Reserved(b, sku, qty, ref, clock, now, timeout, b', out) {
      ReservedKeepsRemoved(b, sku, qty, ref, clock, now, timeout, b', out, u);
    } else if r, now, out :| Revoked(b, r, now, b', out) {
      if b' != b {
        ResolvedKeepsRemoved(b, r, if b.reservations[r].IsExpired(now) then EXPIRED else REVOKED, b', u);
      }
    } else if r, first, second, out :| Confirmed(b, r, first, second, b', out) {
      if b' != b {
        ResolvedKeepsRemoved(b, r, if b.reservations[r].IsExpired(first) then EXPIRED else CONFIRMED, b', u);
      }
    } else if bin, counted, out :| Counted(b, bin, counted, b', out) {
      CountedKeepsRemoved(b, bin, counted, b', out, u);
    } else if bin, capacity, out :| Registered(b, bin, capacity, b', out) {
    } else if ref, clock :| ExpiresDue(b, ref, clock, b') {
      var due: seq<ResId> :| OrderOf(due, DueOf(b, ref, clock)) && Expires(b, due, b');
      ExpiredKeepsRemoved(b, due, b', u);
    }
  }

  lemma CountedKeepsRemoved(b: Books, bin: BinId, counted: Quantity, b': Books, out: CountReport, u: UnitId)
    requires Counted(b, bin, counted, b', out) && u in b.units && b.units[u].state == REMOVED
    ensures Kept(b, b', u)
  {
    hide Count, Unmoved, LostUnits;
    var order: seq<UnitId> :| OrderOf(order, UnitsIn(b.units, bin)) && CountedInOrder(b, bin, counted, order, b', out);
    assert Flags(b, LostUnits(Count(bin, counted, order, b.units).lost), b', Count(bin, counted, order, b.units).events);
    CountedUnits(b, LostUnits(Count(bin, counted, order, b.units).lost), b', Count(bin, counted, order, b.units).events, u);
  }

  lemma CountedUnits(b: Books, lost: set<UnitId>, b': Books, events: seq<Event>, u: UnitId)
    requires Flags(b, lost, b', events) && u in b.units
    ensures u in b'.units && (b'.units[u] == b.units[u] || b.units[u].Locatable())
  {
  }

  /** Over any sequence of use cases a removed unit is final. */
  lemma {:induction false} RemovedStaysRemoved(trace: seq<Books>, apart: (Sku, Sku) -> bool, i: nat, j: nat, u: UnitId)
    requires CallRun(trace, apart) && (forall s, t :: apart(s, t) == apart(t, s)) && i <= j < |trace|
    requires u in trace[i].units && trace[i].units[u].state == REMOVED
    ensures u in trace[j].units && trace[j].units[u] == trace[i].units[u]
    decreases j
  {
    hide Sequential.Orderly, CallStep, CallRun;
    if i < j {
      RemovedStaysRemoved(trace, apart, i, j - 1, u);
      CallRunOrderly(trace, apart, j - 1);
      CallAt(trace, apart, j - 1);
      CallKeepsRemoved(trace[j - 1], trace[j], apart, u);
    }
  }

  lemma CallAt(trace: seq<Books>, apart: (Sku, Sku) -> bool, k: nat)
    requires CallRun(trace, apart) && k + 1 < |trace|
    ensures CallStep(trace[k], trace[k + 1], apart)
  {
    hide CallStep;
  }
}
