/** How the books can change in one step, and what follows for a single unit or reservation over any run. */
module Evolution {
  import opened Shared
  import opened Stock
  import opened Location
  import opened Claims
  import opened Ledger
  import opened Transitions

  datatype ChangeWith<+D, +E> =
    | NoChange
    | Draw(unit: UnitId, take: Quantity)
    | Record(res: ResId, data: D)
    | Resolution(res: ResId, to: Status)
    | Flag(lost: set<UnitId>, events: E)
    | Stow(id: UnitId, stowed: UnitData)
    | SetBin(binId: BinId, bin: BinData)
  type Change = ChangeWith<ResData, seq<Event>>

  /** The books change in this one way. */
  ghost predicate Changes(b: Books, c: Change, b': Books) {
    match c
    case NoChange => b' == b
    case Draw(u, take) => Draws(b, u, take, b')
    case Record(r, data) => Records(b, r, data, b')
    case Resolution(r, to) => Resolves(b, r, to, b')
    case Flag(lost, events) => Flags(b, lost, b', events)
    case Stow(id, unit) => Stows(b, id, unit, b')
    case SetBin(k, data) => SetsBin(b, k, data, b')
  }

  /** One legal change of the books. */
  ghost predicate Evolves(b: Books, b': Books) {
    exists c: Change :: Changes(b, c, b')
  }

  /** One of the operations of the StockUnit aggregate, performed on a unit. */
  ghost predicate UnitOperation(d: UnitData, d': UnitData) {
    || (exists q: Quantity :: q > 0 && d.Reserve(q) == Ok(d'))
    || (exists q: Quantity :: q > 0 && d.ReleaseReservation(q) == Ok(d'))
    || (exists q: Quantity :: q > 0 && d.Pick(q) == Ok(d'))
    || (d.Locatable() && d' == d.MarkUnlocated())
  }

  lemma SettledByOperation(to: Status, d: UnitData, q: Quantity)
    requires q <= d.reserved <= d.quantity
    ensures Settled(to, d, q) == d || UnitOperation(d, Settled(to, d, q))
    ensures Settled(to, d, q).sku == d.sku && Settled(to, d, q).bin == d.bin
  {
    if q > 0 {
      if to == CONFIRMED {
        assert d.Pick(q) == Ok(Settled(to, d, q));
      } else {
        assert d.ReleaseReservation(q) == Ok(Settled(to, d, q));
      }
    }
  }

  lemma ResolvedByOperation(b: Books, r: ResId, to: Status, b': Books, gap: UnitId -> nat, u: UnitId)
    requires UnitsSound(b.units) && Covered(b.units, b.reservations, gap) && Resolves(b, r, to, b') && u in b.units
    ensures u in b'.units
    ensures b'.units[u].sku == b.units[u].sku && b'.units[u].bin == b.units[u].bin
    ensures b'.units[u] == b.units[u] || UnitOperation(b.units[u], b'.units[u])
  {
    hide DrawnOn, DrawnFrom, Active, Settled, BinsSettled, UnitOperation;
    ActiveIsHeld(b, r, gap);
    SettledByOperation(to, b.units[u], DrawnOn(b.reservations[r].allocations, u));
  }

  /** Units persist in place, and a unit changes only by one operation of its aggregate. */
  lemma UnitsChangeByOperations(b: Books, b': Books, gap: UnitId -> nat, u: UnitId)
    requires UnitsSound(b.units) && Covered(b.units, b.reservations, gap) && Evolves(b, b') && u in b.units
    ensures u in b'.units
    ensures b'.units[u].sku == b.units[u].sku && b'.units[u].bin == b.units[u].bin
    ensures b'.units[u] == b.units[u] || UnitOperation(b.units[u], b'.units[u])
  {
    hide Resolves, DrawsOn, Total, Active;
    var c: Change :| Changes(b, c, b');
    if c.Resolution? {
      ResolvedByOperation(b, c.res, c.to, b', gap, u);
    } else if c.Draw? && c.unit == u {
      assert b.units[u].Reserve(c.take) == Ok(b'.units[u]);
    }
  }

  /**
   What a bin may become: stock came in within capacity, stock went out, or the capacity was set anew around the same
   content, by a resize or by a second creation of a bin that is still empty.
   */
  ghost predicate BinOperation(d: BinData, d': BinData) {
    || (exists q: Quantity :: d.Occupy(q) == Ok(d'))
    || (exists q: Quantity :: d.Release(q) == Ok(d'))
    || d'.occupied == d.occupied <= d'.capacity
  }

  /** Bins persist, and a bin changes only by one such operation. */
  lemma BinsChangeByOperations(b: Books, b': Books, k: BinId)
    requires Evolves(b, b') && k in b.bins
    ensures k in b'.bins && (b'.bins[k] == b.bins[k] || BinOperation(b.bins[k], b'.bins[k]))
  {
    var c: Change :| Changes(b, c, b');
    hide UnitsSettled, DrawsOn, DrawnOn, DrawnFrom, Total, SamePlaces;
    if c.Resolution? {
      var q := if c.to == CONFIRMED then DrawnFrom(b.reservations[c.res].allocations, k) else 0;
      assert q > 0 ==> b.bins[k].Release(q) == Ok(b'.bins[k]);
    } else if c.Stow? && c.stowed.bin == k {
      assert b.bins[k].Occupy(c.stowed.quantity) == Ok(b'.bins[k]);
    }
  }

  /** A unit picked out completely stays as it is: this rests on nothing being reserved on it. */
  lemma RemovedIsFinal(b: Books, b': Books, gap: UnitId -> nat, u: UnitId)
    requires UnitsSound(b.units) && Covered(b.units, b.reservations, gap) && Evolves(b, b')
    requires u in b.units && b.units[u].state == REMOVED
    ensures u in b'.units && b'.units[u] == b.units[u]
  {
    hide Evolves, Covered;
    UnitsChangeByOperations(b, b', gap, u);
    assert b.units[u].Sound();
  }

  /** A reservation that has been resolved never changes again, and no reservation disappears or changes its terms. */
  lemma ResolvedIsFinal(b: Books, b': Books, r: ResId)
    requires Evolves(b, b') && r in b.reservations
    ensures r in b'.reservations && b'.reservations[r] == b.reservations[r].(status := b'.reservations[r].status)
    ensures b.reservations[r].status != ACTIVE ==> b'.reservations[r] == b.reservations[r]
  {
    var c: Change :| Changes(b, c, b');
    hide DrawsOn, DrawnOn, DrawnFrom, UnitsSettled, BinsSettled;
  }

  /** Leaving ACTIVE is the whole resolution, in the very step that changes the status. */
  lemma ResolutionIsWhole(b: Books, b': Books, r: ResId)
    requires Evolves(b, b') && r in b.reservations
    requires b.reservations[r].status == ACTIVE && r in b'.reservations && b'.reservations[r].status != ACTIVE
    ensures Resolves(b, r, b'.reservations[r].status, b')
  {
    var c: Change :| Changes(b, c, b');
    hide DrawsOn, DrawnOn, DrawnFrom, UnitsSettled, BinsSettled;
    assert c.Resolution? && c.res == r && b'.reservations[r].status == c.to;
  }

  /** Reserved stock comes down, and stock leaves a unit, only when a reservation that drew on it resolves. */
  lemma ReservedFallsByResolution(b: Books, b': Books, u: UnitId)
    requires Evolves(b, b') && u in b.units && u in b'.units
    requires b'.units[u].reserved < b.units[u].reserved || b'.units[u].quantity != b.units[u].quantity
    ensures exists r: ResId, to: Status :: Resolves(b, r, to, b') && DrawnOn(b.reservations[r].allocations, u) > 0
  {
    var c: Change :| Changes(b, c, b');
    hide DrawsOn, DrawnOn, DrawnFrom, BinsSettled;
    assert c.Resolution?;
    SettledByNothing(c.to, b.units[u]);
    assert Resolves(b, c.res, c.to, b') && DrawnOn(b.reservations[c.res].allocations, u) > 0;
  }
}
