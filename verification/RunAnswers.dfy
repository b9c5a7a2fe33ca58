/** What each step of the interleaving machine leaves behind, said of quantities, states and events alone. */
module RunAnswers {
  import opened Shared
  import opened Stock
  import opened Location
  import opened Claims
  import opened Sums
  import opened Ledger
  import opened Transitions
  import opened Evolution
  import opened Requests
  import opened Invariants
  import opened Theorems
  import opened Answers

  /** A step in which a reservation leaves ACTIVE takes its stock out or gives it back, whatever else is going on. */
  lemma ResolvedInRun(trace: seq<System>, apart: (Sku, Sku) -> bool, k: nat, r: ResId)
    requires Run(trace, apart) && Symmetric(apart) && k + 1 < |trace|
    requires r in BooksAt(trace, k).reservations && BooksAt(trace, k).reservations[r].status == ACTIVE
    ensures r in BooksAt(trace, k + 1).reservations
    ensures var b, b' := BooksAt(trace, k), BooksAt(trace, k + 1);
      match b'.reservations[r].status
      case ACTIVE => true
      case CONFIRMED => TakenOut(b, r, b')
      case REVOKED => GivenBack(b, r, REVOKED, b')
      case EXPIRED => GivenBack(b, r, EXPIRED, b')
  {
    hide Run, BooksOf, Evolves, TakenOut, GivenBack, Resolves, UnitsSound, ClaimsSound, Covered, BinsBalanced, Audited;
    var b, b' := BooksAt(trace, k), BooksAt(trace, k + 1);
    RunEvolves(trace, apart, k);
    LawfulAt(trace, apart, k);
    ResolvedIsFinal(b, b', r);
    if b'.reservations[r].status != ACTIVE {
      ResolutionIsWhole(b, b', r);
      ResolutionAnswers(b, r, b'.reservations[r].status, b', Gap(trace[k].requests));
    }
  }

  /** One unit more is drawn on, ahead of its reservation. */
  ghost predicate DrawnAhead(b: Books, u: UnitId, q: Quantity, b': Books) {
    && u in b.units && b.units[u].state != UNLOCATED && b.units[u].state != REMOVED
    && 0 < q <= b.units[u].quantity - b.units[u].reserved
    && b' == b.(units := b.units[u := b.units[u].(reserved := b.units[u].reserved + q, state := RESERVED)])
  }

  /** A reservation is recorded for draws made ahead of it. */
  ghost predicate RecordedFor(b: Books, r: ResId, d: ResData, b': Books) {
    && r !in b.reservations && d.status == ACTIVE && Total(d.allocations) == d.quantity
    && DrawsOn(d.allocations, b.units, d.sku)
    && b' == b.(reservations := b.reservations[r := d], log := b.log + [StockReserved(r, d.sku, d.quantity)])
  }

  /** Some located units are flagged, and only events that concern no stock and no reservation are published. */
  ghost predicate FlaggedOnly(b: Books, events: seq<Event>, b': Books) {
    && b'.units.Keys == b.units.Keys && b'.bins == b.bins && b'.reservations == b.reservations
    && (forall u :: u in b.units ==>
          || b'.units[u] == b.units[u]
          || (b.units[u].state != REMOVED && b'.units[u] == b.units[u].(state := UNLOCATED)))
    && b'.log == b.log + events
    && forall i :: 0 <= i < |events| ==>
         !events[i].ItemStowed? && !events[i].StockReserved? && !events[i].ReservationExpired?
         && !events[i].ReservationRevoked? && !events[i].StockPicked?
  }

  /** A bin is created or resized around the stock recorded in it. */
  ghost predicate Sized(b: Books, k: BinId, capacity: Quantity, b': Books) {
    var held := OnHand(b.units, InBin(k));
    0 <= held <= capacity && b' == b.(bins := b.bins[k := BinData(capacity, held)])
  }

  ghost predicate PutWithin(b: Books, id: UnitId, sku: Sku, qty: Quantity, bin: BinId, b': Books) {
    bin in b.bins && PutIn(b, id, sku, qty, bin, b') && OnHand(b.units, InBin(bin)) + qty <= b.bins[bin].capacity
  }

  ghost predicate Settles(b: Books, r: ResId, b': Books) {
    && r in b.reservations && b.reservations[r].status == ACTIVE
    && (TakenOut(b, r, b') || GivenBack(b, r, REVOKED, b') || GivenBack(b, r, EXPIRED, b'))
  }

  /** Everything one step can do to what others see. */
  ghost predicate LegalStep(b: Books, b': Books) {
    || b' == b
    || (exists r :: Settles(b, r, b'))
    || (exists id, sku, qty, bin :: PutWithin(b, id, sku, qty, bin, b'))
    || (exists u, q: Quantity :: DrawnAhead(b, u, q, b'))
    || (exists r, d :: RecordedFor(b, r, d, b'))
    || (exists events :: FlaggedOnly(b, events, b'))
    || (exists k, capacity: Quantity :: Sized(b, k, capacity, b'))
  }

  lemma ChangeAnswers(b: Books, c: Change, b': Books, gap: UnitId -> nat)
    requires Lawful(b, gap) && Changes(b, c, b')
    ensures LegalStep(b, b')
  {
    hide LegalStep, Lawful, Resolves, Flags, Stows, SetsBin, Draws, Records;
    match c
    case NoChange => LegalNothing(b);
    case Draw(u, take) => LegalDraw(b, u, take, b', gap);
    case Record(r, data) => LegalRecord(b, r, data, b');
    case Resolution(r, to) => LegalResolution(b, r, to, b', gap);
    case Flag(lost, events) => LegalFlag(b, lost, events, b');
    case Stow(id, unit) => LegalStow(b, id, unit, b', gap);
    case SetBin(k, data) => LegalBin(b, k, data, b', gap);
  }

  lemma LegalNothing(b: Books)
    ensures LegalStep(b, b)
  {
  }

  lemma LegalDraw(b: Books, u: UnitId, take: Quantity, b': Books, gap: UnitId -> nat)
    requires Lawful(b, gap) && Draws(b, u, take, b')
    ensures LegalStep(b, b')
  {
    assert b.units[u].Sound() by {
      hide Covered, ClaimsSound, BinsBalanced, Audited;
    }
    hide Lawful;
    assert DrawnAhead(b, u, take, b');
  }

  lemma LegalRecord(b: Books, r: ResId, data: ResData, b': Books)
    requires Records(b, r, data, b')
    ensures LegalStep(b, b')
  {
    assert RecordedFor(b, r, data, b');
  }

  lemma LegalResolution(b: Books, r: ResId, to: Status, b': Books, gap: UnitId -> nat)
    requires Lawful(b, gap) && Resolves(b, r, to, b')
    ensures LegalStep(b, b')
  {
    hide UnitsSound, ClaimsSound, Covered, BinsBalanced, Audited, UnitsSettled, BinsSettled, TakenOut, GivenBack;
    ResolutionAnswers(b, r, to, b', gap);
    assert Settles(b, r, b');
  }

  lemma LegalFlag(b: Books, lost: set<UnitId>, events: seq<Event>, b': Books)
    requires Flags(b, lost, b', events)
    ensures LegalStep(b, b')
  {
    assert FlaggedOnly(b, events, b');
  }

  lemma LegalStow(b: Books, id: UnitId, unit: UnitData, b': Books, gap: UnitId -> nat)
    requires Lawful(b, gap) && Stows(b, id, unit, b')
    ensures LegalStep(b, b')
  {
    hide OnHand, UnitsSound, ClaimsSound, Covered, Audited;
    assert PutWithin(b, id, unit.sku, unit.quantity, unit.bin, b');
  }

  lemma LegalBin(b: Books, k: BinId, data: BinData, b': Books, gap: UnitId -> nat)
    requires Lawful(b, gap) && SetsBin(b, k, data, b')
    ensures LegalStep(b, b')
  {
    hide UnitsSound, ClaimsSound, Covered, Audited;
    if k !in b.bins {
      SumZero(b.units, Quantities(InBin(k)));
    }
    assert Sized(b, k, data.capacity, b');
  }

  /** Every step of every run is one of these, however many requests there are and wherever they fail. */
  lemma StepAnswers(trace: seq<System>, apart: (Sku, Sku) -> bool, k: nat)
    requires Run(trace, apart) && Symmetric(apart) && k + 1 < |trace|
    ensures LegalStep(BooksAt(trace, k), BooksAt(trace, k + 1))
  {
    hide Run, BooksOf, Lawful, LegalStep, Changes;
    RunEvolves(trace, apart, k);
    LawfulAt(trace, apart, k);
    var c: Change :| Changes(BooksAt(trace, k), c, BooksAt(trace, k + 1));
    ChangeAnswers(BooksAt(trace, k), c, BooksAt(trace, k + 1), Gap(trace[k].requests));
  }
}
