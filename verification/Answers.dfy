/**
 What each use case answers and leaves behind, said of quantities, states and events alone: neither the operations of
 the aggregates nor the relations the use cases are proved against appear here.
 */
module Answers {
  import opened Shared
  import opened Stock
  import opened Location
  import opened Claims
  import opened Sums
  import opened Ledger
  import opened Transitions
  import opened GreedyAllocation
  import opened UseCases
  import opened Sequential
  import opened Product
  import opened Segregation
  import CallPromises
  import Warehouses

  // ---- resolutions

  /** Units after a pick: what was drawn is gone, and a unit left with stock is PICKED, whatever it was before. */
  ghost predicate UnitsPicked(units: Units, allocs: seq<Allocation>, units': Units) {
    && units'.Keys == units.Keys
    && forall u :: u in units ==>
         var d, d', q := units[u], units'[u], DrawnOn(allocs, u);
         && d'.sku == d.sku && d'.bin == d.bin
         && d'.quantity == d.quantity - q && d'.reserved == d.reserved - q
         && d'.state == if q == 0 then d.state else if d'.quantity == 0 then REMOVED else PICKED
  }

  /** Units after a release: what was drawn is free again; only a RESERVED unit with nothing left reserved changes state. */
  ghost predicate UnitsReleased(units: Units, allocs: seq<Allocation>, units': Units) {
    && units'.Keys == units.Keys
    && forall u :: u in units ==>
         var d, d', q := units[u], units'[u], DrawnOn(allocs, u);
         && d'.sku == d.sku && d'.bin == d.bin
         && d'.quantity == d.quantity && d'.reserved == d.reserved - q
         && d'.state == if q > 0 && d.state == RESERVED && d'.reserved == 0 then AVAILABLE else d.state
  }

  ghost predicate Emptied(bins: Bins, allocs: seq<Allocation>, bins': Bins) {
    && bins'.Keys == bins.Keys
    && forall k :: k in bins ==>
         bins'[k].capacity == bins[k].capacity && bins'[k].occupied == bins[k].occupied - DrawnFrom(allocs, k)
  }

  /** A reservation's stock has left the warehouse. */
  ghost predicate TakenOut(b: Books, r: ResId, b': Books)
    requires r in b.reservations
  {
    var d := b.reservations[r];
    && UnitsPicked(b.units, d.allocations, b'.units)
    && Emptied(b.bins, d.allocations, b'.bins)
    && b'.reservations == b.reservations[r := d.(status := CONFIRMED)]
    && b'.log == b.log + [StockPicked(r, d.sku, d.quantity)]
  }

  /** A reservation's stock is free again. */
  ghost predicate GivenBack(b: Books, r: ResId, to: Status, b': Books)
    requires r in b.reservations
  {
    var d := b.reservations[r];
    && UnitsReleased(b.units, d.allocations, b'.units)
    && b'.bins == b.bins
    && b'.reservations == b.reservations[r := d.(status := to)]
    && b'.log == b.log + [if to == REVOKED then ReservationRevoked(r, d.sku) else ReservationExpired(r, d.sku)]
  }

  lemma PickedUnit(d: UnitData, q: Quantity)
    requires q <= d.reserved <= d.quantity
    ensures var d' := Settled(CONFIRMED, d, q);
      && d'.sku == d.sku && d'.bin == d.bin
      && d'.quantity == d.quantity - q && d'.reserved == d.reserved - q
      && d'.state == if q == 0 then d.state else if d'.quantity == 0 then REMOVED else PICKED
  {
  }

  lemma ReleasedUnit(d: UnitData, q: Quantity, to: Status)
    requires q <= d.reserved && to != CONFIRMED
    ensures var d' := Settled(to, d, q);
      && d'.sku == d.sku && d'.bin == d.bin
      && d'.quantity == d.quantity && d'.reserved == d.reserved - q
      && d'.state == if q > 0 && d.state == RESERVED && d'.reserved == 0 then AVAILABLE else d.state
  {
  }

  /** A confirmation takes the stock out; a revocation or an expiry gives it back. */
  lemma ResolutionAnswers(b: Books, r: ResId, to: Status, b': Books, gap: UnitId -> nat)
    requires UnitsSound(b.units) && Covered(b.units, b.reservations, gap) && Resolves(b, r, to, b')
    ensures to == CONFIRMED ==> TakenOut(b, r, b')
    ensures to == REVOKED || to == EXPIRED ==> GivenBack(b, r, to, b')
  {
    hide DrawnOn, DrawnFrom, Active, Settled;
    ActiveIsHeld(b, r, gap);
    var allocs := b.reservations[r].allocations;
    if to == CONFIRMED {
      forall u | u in b.units
        ensures var d, d', q := b.units[u], b'.units[u], DrawnOn(allocs, u);
          && d'.sku == d.sku && d'.bin == d.bin
          && d'.quantity == d.quantity - q && d'.reserved == d.reserved - q
          && d'.state == if q == 0 then d.state else if d'.quantity == 0 then REMOVED else PICKED
      {
        PickedUnit(b.units[u], DrawnOn(allocs, u));
      }
    } else {
      forall u | u in b.units
        ensures var d, d', q := b.units[u], b'.units[u], DrawnOn(allocs, u);
          && d'.sku == d.sku && d'.bin == d.bin
          && d'.quantity == d.quantity && d'.reserved == d.reserved - q
          && d'.state == if q > 0 && d.state == RESERVED && d'.reserved == 0 then AVAILABLE else d.state
      {
        ReleasedUnit(b.units[u], DrawnOn(allocs, u), to);
      }
      assert b'.bins == b.bins;
    }
  }

  /**
   A confirmation succeeds if and only if the reservation is ACTIVE and has run out at neither clock reading; then its
   stock leaves, and every unit it was drawn from ends REMOVED or PICKED, an UNLOCATED one too. One that had run out at
   the first reading expires instead; in every other case nothing changes.
   */
  lemma ConfirmAnswers(b: Books, r: ResId, first: Time, second: Time, b': Books, out: Outcome)
    requires Lawful(b, NoGap()) && Confirmed(b, r, first, second, b', out)
    ensures r !in b.reservations ==> out == Fail(ReservationNotFound) && b' == b
    ensures r in b.reservations ==>
      var d := b.reservations[r];
      && (out == Pass <==> d.status == ACTIVE && first <= d.expiresAt && second <= d.expiresAt)
      && (out == Fail(Error.Expired) <==> d.status == ACTIVE && first <= d.expiresAt < second)
      && (out == Fail(AlreadyResolved) <==> d.status != ACTIVE || first > d.expiresAt)
      && (if out == Pass then TakenOut(b, r, b')
          else if d.status == ACTIVE && first > d.expiresAt then GivenBack(b, r, EXPIRED, b')
          else b' == b)
  {
    hide Resolves, TakenOut, GivenBack, Covered, ClaimsSound, BinsBalanced, Audited, UnitsSound;
    if r in b.reservations && b.reservations[r].status == ACTIVE {
      var d := b.reservations[r];
      if first > d.expiresAt {
        ResolutionAnswers(b, r, EXPIRED, b', NoGap());
      } else if second <= d.expiresAt {
        ResolutionAnswers(b, r, CONFIRMED, b', NoGap());
      }
    }
  }

  /** A revocation succeeds if and only if the reservation is ACTIVE and has not run out; a late one expires it. */
  lemma RevokeAnswers(b: Books, r: ResId, now: Time, b': Books, out: Outcome)
    requires Lawful(b, NoGap()) && Revoked(b, r, now, b', out)
    ensures r !in b.reservations ==> out == Fail(ReservationNotFound) && b' == b
    ensures r in b.reservations ==>
      var d := b.reservations[r];
      && (out == Pass <==> d.status == ACTIVE && now <= d.expiresAt)
      && (out == Fail(AlreadyResolved) <==> d.status != ACTIVE || now > d.expiresAt)
      && (if d.status != ACTIVE then b' == b else GivenBack(b, r, if now > d.expiresAt then EXPIRED else REVOKED, b'))
  {
    hide Resolves, GivenBack, Covered, ClaimsSound, BinsBalanced, Audited, UnitsSound;
    if r in b.reservations && b.reservations[r].status == ACTIVE {
      ResolutionAnswers(b, r, if now > b.reservations[r].expiresAt then EXPIRED else REVOKED, b', NoGap());
    }
  }

  // ---- expiring what is due

  /** The listed reservations give their stock back one after the other. */
  ghost predicate GivenBackEach(b: Books, order: seq<ResId>, b': Books)
    decreases |order|
  {
    if order == [] then b' == b
    else
      var front, last := order[..|order| - 1], order[|order| - 1];
      exists m: Books :: GivenBackEach(b, front, m) && last in m.reservations && GivenBack(m, last, EXPIRED, b')
  }

  /** Exactly the ACTIVE reservations of the demand that had run out when looked at have expired. */
  ghost predicate DueGivenBack(b: Books, ref: string, clock: Clock, b': Books) {
    exists order: seq<ResId> :: Distinct(order) && DueListed(b, ref, clock, order) && GivenBackEach(b, order, b')
  }

  ghost predicate DueListed(b: Books, ref: string, clock: Clock, order: seq<ResId>) {
    forall r :: r in order <==>
      r in b.reservations && b.reservations[r].demandRef == ref && b.reservations[r].status == ACTIVE
      && clock(r) > b.reservations[r].expiresAt
  }

  lemma {:induction false} ExpiresAnswers(b: Books, order: seq<ResId>, b': Books)
    requires Lawful(b, NoGap()) && Expires(b, order, b')
    ensures GivenBackEach(b, order, b')
    decreases |order|
  {
    hide Lawful, Resolves, GivenBack;
    if order != [] {
      var front, last := order[..|order| - 1], order[|order| - 1];
      var m: Books :| Expires(b, front, m) && Resolves(m, last, EXPIRED, b');
      ExpiresAnswers(b, front, m);
      ExpiredLawful(b, front, m);
      ExpiryAnswers(m, last, b');
    }
  }

  lemma ExpiryAnswers(b: Books, r: ResId, b': Books)
    requires Lawful(b, NoGap()) && Resolves(b, r, EXPIRED, b')
    ensures r in b.reservations && GivenBack(b, r, EXPIRED, b')
  {
    hide UnitsSettled, BinsSettled, GivenBack, Covered, ClaimsSound, BinsBalanced, Audited, UnitsSound;
    ResolutionAnswers(b, r, EXPIRED, b', NoGap());
  }

  /** Lazy expiry: what is due gives its stock back, one reservation after the other, and nothing else happens. */
  lemma DueAnswers(b: Books, ref: string, clock: Clock, b': Books)
    requires Lawful(b, NoGap()) && ExpiresDue(b, ref, clock, b')
    ensures DueGivenBack(b, ref, clock, b')
  {
    hide Lawful, Expires, GivenBackEach;
    var order: seq<ResId> :| OrderOf(order, DueOf(b, ref, clock)) && Expires(b, order, b');
    ExpiresAnswers(b, order, b');
    assert DueListed(b, ref, clock, order);
  }

  // ---- reserving

  ghost function FreeQty(sku: Sku): UnitData -> int {
    (u: UnitData) => if u.sku == sku && u.state != UNLOCATED && u.state != REMOVED then u.quantity - u.reserved else 0
  }

  /** Stock of the SKU that is on hand, located and not reserved. */
  ghost function FreeOf(units: Units, sku: Sku): int {
    Sum(units, FreeQty(sku))
  }

  /** Usable stock is what is on hand, located and not reserved. */
  lemma UsableIsFree(units: Units, sku: Sku)
    requires UnitsSound(units)
    ensures UsableOf(units, sku) == FreeOf(units, sku)
  {
    forall u | u in units ensures UsableQty(sku)(units[u]) == FreeQty(sku)(units[u]) {
      assert units[u].Sound();
    }
    SumCongruence(units, units, UsableQty(sku), FreeQty(sku));
  }

  /** An open reservation for exactly this demand, SKU and quantity. */
  predicate OpenFor(d: ResData, sku: Sku, qty: Quantity, ref: string) {
    d.sku == sku && d.quantity == qty && d.demandRef == ref && d.status == ACTIVE
  }

  /** An open one that had not run out when it was looked at. */
  ghost predicate FindsOpen(b: Books, sku: Sku, qty: Quantity, ref: string, clock: Clock) {
    exists r :: r in b.reservations && OpenFor(b.reservations[r], sku, qty, ref) && clock(r) <= b.reservations[r].expiresAt
  }

  /** Units after a draw: on each drawn unit, that much more is reserved and the unit is RESERVED. */
  ghost predicate UnitsTaken(units: Units, allocs: seq<Allocation>, units': Units) {
    && units'.Keys == units.Keys
    && forall u :: u in units ==>
         var d, d', q := units[u], units'[u], DrawnOn(allocs, u);
         && d'.sku == d.sku && d'.bin == d.bin && d'.quantity == d.quantity
         && d'.reserved == d.reserved + q
         && d'.state == if q > 0 then RESERVED else d.state
  }

  /** What each allocation may be: a positive part of the free stock of one located unit of the SKU, with its bin. */
  ghost predicate TakesFree(units: Units, allocs: seq<Allocation>, sku: Sku) {
    && DistinctUnits(allocs)
    && forall i :: 0 <= i < |allocs| ==>
         var a := allocs[i];
         && a.unit in units && units[a.unit].sku == sku && a.bin == units[a.unit].bin
         && units[a.unit].state != UNLOCATED && units[a.unit].state != REMOVED
         && 0 < a.quantity <= units[a.unit].quantity - units[a.unit].reserved
  }

  /** Drawn in a listing order of the SKU's units: every unit before one that was drawn on has nothing free left. */
  ghost predicate DrawnInTurn(units: Units, allocs: seq<Allocation>, sku: Sku) {
    exists order: seq<UnitId> ::
      && Distinct(order) && (forall u :: u in order <==> u in units && units[u].sku == sku)
      && forall i, j :: 0 <= i < j < |order| && DrawnOn(allocs, order[j]) > 0 ==>
           DrawnOn(allocs, order[i]) == FreeQty(sku)(units[order[i]])
  }

  /** How long a reservation lives: thirty minutes, in nanoseconds, unless a positive timeout is given. */
  ghost predicate LivesUntil(d: ResData, now: Time, timeout: int) {
    && d.createdAt == now
    && (timeout <= 0 ==> d.expiresAt == now + 1_800_000_000_000)
    && (timeout > 0 ==> d.expiresAt == now + timeout)
  }

  /** A new reservation was made for the whole quantity. */
  ghost predicate Claimed(b: Books, r: ResId, sku: Sku, qty: Quantity, ref: string, now: Time, timeout: int, b': Books) {
    && r !in b.reservations && r in b'.reservations
    && var d := b'.reservations[r];
    && OpenFor(d, sku, qty, ref) && LivesUntil(d, now, timeout)
    && TakesFree(b.units, d.allocations, sku) && Total(d.allocations) == qty && DrawnInTurn(b.units, d.allocations, sku)
    && UnitsTaken(b.units, d.allocations, b'.units)
    && b'.bins == b.bins
    && b'.reservations == b.reservations[r := d]
    && b'.log == b.log + [StockReserved(r, sku, qty)]
  }

  lemma TakenUnit(d: UnitData, q: Quantity)
    requires d.Sound() && q <= d.Usable()
    ensures var d' := DrawnUnit(d, q);
      && d'.sku == d.sku && d'.bin == d.bin && d'.quantity == d.quantity
      && d'.reserved == d.reserved + q && d'.state == if q > 0 then RESERVED else d.state
  {
  }

  lemma ClaimAnswers(b: Books, r: ResId, data: ResData, order: seq<UnitId>, b': Books)
    requires UnitsSound(b.units) && Allocates(b, r, data, order, b')
    ensures TakesFree(b.units, data.allocations, data.sku) && Total(data.allocations) == data.quantity
    ensures UnitsTaken(b.units, data.allocations, b'.units) && DrawnInTurn(b.units, data.allocations, data.sku)
  {
    AllocationFacts(b, r, data, order, b');
    hide Total, DrawnOn, Greedy, UsableOf;
    FairIsFree(b.units, data.allocations, order, data.sku);
    forall u | u in b.units
      ensures var d, d', q := b.units[u], b'.units[u], DrawnOn(data.allocations, u);
        && d'.sku == d.sku && d'.bin == d.bin && d'.quantity == d.quantity
        && d'.reserved == d.reserved + q && d'.state == if q > 0 then RESERVED else d.state
    {
      assert b.units[u].Sound();
      CallPromises.DrawWithinUsable(data.allocations, order, b.units, u);
      TakenUnit(b.units[u], DrawnOn(data.allocations, u));
    }
    InTurn(b.units, data, order);
  }

  lemma FairIsFree(units: Units, allocs: seq<Allocation>, order: seq<UnitId>, sku: Sku)
    requires (forall u :: u in order ==> u in units && units[u].sku == sku) && FairDraw(allocs, order, units) && UnitsSound(units)
    ensures TakesFree(units, allocs, sku)
  {
    forall i | 0 <= i < |allocs|
      ensures var d := units[allocs[i].unit];
        d.state != UNLOCATED && d.state != REMOVED && 0 < allocs[i].quantity <= d.quantity - d.reserved
    {
      assert units[allocs[i].unit].Sound();
    }
  }

  lemma InTurn(units: Units, data: ResData, order: seq<UnitId>)
    requires UnitsSound(units) && OrderOf(order, UnitsOf(units, data.sku))
    requires data.allocations == Greedy(order, units, data.quantity)
    ensures DrawnInTurn(units, data.allocations, data.sku)
  {
    hide Greedy, DrawnOn;
    assert Distinct(order) && forall u :: u in order <==> u in units && units[u].sku == data.sku;
    GreedyDrains(order, units, data.quantity);
    forall i, j | 0 <= i < j < |order| && DrawnOn(data.allocations, order[j]) > 0
      ensures DrawnOn(data.allocations, order[i]) == FreeQty(data.sku)(units[order[i]])
    {
      assert order[i] in order && units[order[i]].Sound();
    }
  }

  /**
   A reserve of something first expires what is due for the demand. It then returns the open reservation for exactly
   this demand, SKU and quantity if there is one in time; otherwise it makes a new one if and only if the quantity is
   free, and says so if it is not.
   */
  lemma ReserveAnswers(b: Books, sku: Sku, qty: Quantity, ref: string, clock: Clock, now: Time, timeout: int, b': Books,
                       out: Result<ResId>)
    requires Lawful(b, NoGap()) && Reserved(b, sku, qty, ref, clock, now, timeout, b', out)
    ensures qty == 0 <==> out == Err(ZeroQuantity)
    ensures qty == 0 ==> b' == b
    ensures qty > 0 ==>
      exists m: Books ::
        && DueGivenBack(b, ref, clock, m)
        && if FindsOpen(b, sku, qty, ref, clock) then
             && b' == m && out.Ok? && out.value in b.reservations
             && OpenFor(b.reservations[out.value], sku, qty, ref) && clock(out.value) <= b.reservations[out.value].expiresAt
           else if qty <= FreeOf(m.units, sku) then out.Ok? && Claimed(m, out.value, sku, qty, ref, now, timeout, b')
           else out == Err(InsufficientUsable) && b' == m
  {
    if qty > 0 {
      hide Lawful, ExpiresDue, ReservesOrReplays, DueGivenBack, Claimed, FindsOpen, FreeOf;
      var m: Books :| ExpiresDue(b, ref, clock, m) && ReservesOrReplays(m, sku, qty, ref, now, timeout, b', out);
      DueAnswers(b, ref, clock, m);
      DueLawful(b, ref, clock, m);
      FoundAfterExpiry(b, sku, qty, ref, clock, m);
      AfterExpiryAnswers(m, sku, qty, ref, now, timeout, b', out);
      CallPromises.AfterExpiry(b, ref, clock, m);
      if FindsOpen(b, sku, qty, ref, clock) {
        StillOpen(b, sku, qty, ref, clock, m, out.value);
      }
    }
  }

  lemma DueLawful(b: Books, ref: string, clock: Clock, m: Books)
    requires Lawful(b, NoGap()) && ExpiresDue(b, ref, clock, m)
    ensures Lawful(m, NoGap()) && UnitsSound(m.units)
  {
    hide Expires, Covered, ClaimsSound, BinsBalanced, Audited, UnitsSound;
    var order: seq<ResId> :| OrderOf(order, DueOf(b, ref, clock)) && Expires(b, order, m);
    ExpiredLawful(b, order, m);
  }

  /** What is still open after the expiries was open and in time before. */
  lemma FoundAfterExpiry(b: Books, sku: Sku, qty: Quantity, ref: string, clock: Clock, m: Books)
    requires ExpiresDue(b, ref, clock, m)
    ensures FindsOpen(b, sku, qty, ref, clock) <==> !NoReplay(m, sku, qty, ref)
  {
    hide ExpiresDue;
    CallPromises.ReplaysAfterExpiry(b, sku, qty, ref, clock, m);
    hide NoReplay;
    if FindsOpen(b, sku, qty, ref, clock) {
      var r :| r in b.reservations && OpenFor(b.reservations[r], sku, qty, ref) && clock(r) <= b.reservations[r].expiresAt;
      assert IsReplay(b.reservations[r], sku, qty, ref);
    }
  }

  lemma StillOpen(b: Books, sku: Sku, qty: Quantity, ref: string, clock: Clock, m: Books, r: ResId)
    requires ExpiresDue(b, ref, clock, m) && r in m.reservations && OpenFor(m.reservations[r], sku, qty, ref)
    ensures r in b.reservations && OpenFor(b.reservations[r], sku, qty, ref) && clock(r) <= b.reservations[r].expiresAt
  {
    CallPromises.AfterExpiry(b, ref, clock, m);
    hide ExpiresDue;
  }

  lemma AfterExpiryAnswers(m: Books, sku: Sku, qty: Quantity, ref: string, now: Time, timeout: int, b': Books, out: Result<ResId>)
    requires UnitsSound(m.units) && ReservesOrReplays(m, sku, qty, ref, now, timeout, b', out)
    ensures if !NoReplay(m, sku, qty, ref) then
              out.Ok? && b' == m && out.value in m.reservations && OpenFor(m.reservations[out.value], sku, qty, ref)
            else if qty <= FreeOf(m.units, sku) then out.Ok? && Claimed(m, out.value, sku, qty, ref, now, timeout, b')
            else out == Err(InsufficientUsable) && b' == m
  {
    UsableIsFree(m.units, sku);
    hide UsableOf, FreeOf, UnitsDrawn, Greedy, UnitsTaken, TakesFree, DrawnInTurn;
    if out.Ok? && out.value !in m.reservations {
      var order: seq<UnitId> :| Allocates(m, out.value, b'.reservations[out.value], order, b');
      ClaimAnswers(m, out.value, b'.reservations[out.value], order, b');
    }
  }

  /** The new reservation of a reserve, across to its confirmation. */
  lemma NewReservationLives(b: Books, sku: Sku, qty: Quantity, ref: string, clock: Clock, now: Time, timeout: int, b': Books,
                            r: ResId, first: Time, second: Time, b'': Books, out: Outcome, apart: (Sku, Sku) -> bool)
    requires Sequential.Orderly(b, apart) && r !in b.reservations
    requires Reserved(b, sku, qty, ref, clock, now, timeout, b', Ok(r)) && Confirmed(b', r, first, second, b'', out)
    ensures r in b'.reservations
    ensures var limit := now + if timeout <= 0 then 1_800_000_000_000 else timeout;
      && (out == Pass <==> first <= limit && second <= limit)
      && (out == Pass ==> TakenOut(b', r, b''))
      && (first > limit ==> out == Fail(AlreadyResolved) && GivenBack(b', r, EXPIRED, b''))
      && (first <= limit < second ==> out == Fail(Error.Expired) && b'' == b')
  {
    hide Confirmed, Reserved, TakenOut, GivenBack, DueGivenBack, FindsOpen, TakesFree, DrawnInTurn, UnitsTaken;
    ReservedOrderly(b, sku, qty, ref, clock, now, timeout, b', Ok(r), apart);
    hide OneOpenEach, Segregated, Lawful;
    ReserveAnswers(b, sku, qty, ref, clock, now, timeout, b', Ok(r));
    ConfirmAnswers(b', r, first, second, b'', out);
  }

  /** Over any sequence of use cases, at most one reservation is open for the same demand, SKU and quantity. */
  lemma OneOpenReservation(trace: seq<Books>, apart: (Sku, Sku) -> bool, i: nat, r: ResId, s: ResId)
    requires CallRun(trace, apart) && (forall s, t :: apart(s, t) == apart(t, s)) && i < |trace|
    requires r in trace[i].reservations && s in trace[i].reservations
    requires var d := trace[i].reservations[r];
      OpenFor(d, d.sku, d.quantity, d.demandRef) && OpenFor(trace[i].reservations[s], d.sku, d.quantity, d.demandRef)
    ensures r == s
  {
    hide CallRun, Lawful, Segregated;
    CallRunOrderly(trace, apart, i);
    assert SameDemand(trace[i].reservations[r], trace[i].reservations[s]);
  }

  // ---- stowing

  /** New stock is in the bin. */
  ghost predicate PutIn(b: Books, id: UnitId, sku: Sku, qty: Quantity, bin: BinId, b': Books)
    requires bin in b.bins
  {
    && id !in b.units && sku != "" && bin != "" && qty > 0
    && b'.units == b.units[id := UnitData(sku, bin, qty, 0, AVAILABLE)]
    && b'.bins == b.bins[bin := BinData(b.bins[bin].capacity, b.bins[bin].occupied + qty)]
    && b'.reservations == b.reservations
    && b'.log == b.log + [ItemStowed(sku, bin, qty), LocationRecorded(id, bin)]
  }

  /**
   A stow whose checks passed succeeds if and only if the quantity is positive and fits beside what is recorded in the
   bin; BinFull is the answer exactly when it does not fit.
   */
  lemma StowAnswers(b: Books, sku: Sku, qty: Quantity, bin: BinId, placement: Outcome, b': Books, out: Result<UnitId>)
    requires Lawful(b, NoGap()) && Stowed(b, sku, qty, bin, placement, b', out)
    ensures out == Err(BinNotFound) && b' == b <== bin !in b.bins
    ensures bin in b.bins && placement.Fail? ==> out == Err(placement.error) && b' == b
    ensures bin in b.bins && placement == Pass ==>
      var fits := OnHand(b.units, InBin(bin)) + qty <= b.bins[bin].capacity;
      if sku == "" || bin == "" then out == Err(StowRequiresItemAndLocation) && b' == b
      else if qty == 0 then out == Err(ZeroQuantity) && b' == b
      else if !fits then out == Err(BinFull) && b' == b
      else out.Ok? && PutIn(b, out.value, sku, qty, bin, b')
  {
    hide OnHand, UnitsSound, ClaimsSound, Covered, Audited;
  }

  /** The two checks of a stow: the placement's answer if it refuses, then any unit of the bin to be kept apart. */
  lemma StowCheckAnswers(classes: Classes, lookup: Option<Result<SlotAttributes>>, units: Units, sku: Sku, bin: BinId)
    ensures var check, placement := Warehouses.StowCheck(classes, lookup, units, sku, bin), Placement(classes, lookup, sku);
      && (placement.Fail? ==> check == placement)
      && (placement == Pass ==>
            (check == Pass || check == Fail(HazmatClassIncompatible))
            && (check == Pass <==>
                forall u :: u in units && units[u].bin == bin && units[u].sku != sku && sku in classes && units[u].sku in classes
                            ==> !Incompatible(classes[sku].hazardClass, classes[units[u].sku].hazardClass)))
  {
    hide Placement, Incompatible;
    if u :| u in units && units[u].bin == bin && units[u].sku != sku && sku in classes && units[u].sku in classes
            && Incompatible(classes[sku].hazardClass, classes[units[u].sku].hazardClass) {
      assert u in UnitsIn(units, bin) && KeptApart(classes, sku, units[u].sku);
    }
  }

  // ---- registering

  /**
   A registration is refused exactly without an id or a capacity, or when the bin holds more than the capacity wanted;
   otherwise the bin ends with that capacity around what it held.
   */
  lemma RegisterAnswers(b: Books, bin: BinId, capacity: Quantity, b': Books, out: Result<BinOutcome>)
    requires Lawful(b, NoGap()) && Registered(b, bin, capacity, b', out)
    ensures out == Err(EmptyBinId) <==> bin == ""
    ensures out == Err(InvalidCapacity) <==> bin != "" && capacity == 0
    ensures out == Err(CapacityBelowOccupancy) <==> bin != "" && bin in b.bins && 0 < capacity < OnHand(b.units, InBin(bin))
    ensures out == Ok(BinCreated) <==> bin != "" && capacity > 0 && bin !in b.bins
    ensures out == Ok(BinUnchanged) ==> bin in b.bins && b.bins[bin].capacity == capacity
    ensures out == Ok(BinResized) ==> bin in b.bins && b.bins[bin].capacity != capacity
    ensures b' == if out.Err? then b
                  else b.(bins := b.bins[bin := BinData(capacity, if bin in b.bins then OnHand(b.units, InBin(bin)) else 0)])
  {
    hide OnHand, UnitsSound, ClaimsSound, Covered, Audited;
    if out == Ok(BinUnchanged) {
      assert b.bins[bin := b.bins[bin]] == b.bins;
    }
  }
}
