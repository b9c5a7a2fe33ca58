/**
 From the warehouse's events to the report: whatever order and however often the published events are delivered, the
 report's totals are the ledger's.
 */
module Reporting {
  import opened Shared
  import opened Claims
  import opened Sums
  import opened Ledger
  import opened Projection
  import Relay
  import Requests
  import Invariants
  import Theorems
  import UseCases
  import Sequential

  /** The analytics fact of a published event; LocationRecorded is outside the analytics contract. */
  function FactOf(e: Event): Fact {
    match e
    case StockReceived(sku, quantity) => StockReceivedFact(sku, quantity)
    case ItemStowed(sku, bin, _) => ItemStowedFact(sku, bin)
    case LocationRecorded(_, _) => Other
    case StockReserved(_, sku, _) => StockReservedFact(sku)
    case ReservationExpired(_, sku) => ReservationExpiredFact(sku)
    case ReservationRevoked(_, sku) => ReservationRevokedFact(sku)
    case StockPicked(_, sku, quantity) => StockPickedFact(sku, quantity)
    case DiscrepancyDetected(bin, _, _) => DiscrepancyDetectedFact(bin)
    case ItemUnlocated(_, sku, bin, _) => ItemUnlocatedFact(sku, bin)
    case CycleCountCompleted(bin, _, _, _) => CycleCountCompletedFact(bin)
  }

  /** The messages published for a log: one per event within the contract, each under an id and a time of its own. */
  function Encoded(log: seq<Event>, ids: nat -> EventId, times: nat -> Time): seq<Delivery> {
    if log == [] then []
    else
      var n := |log| - 1;
      Encoded(log[..n], ids, times) +
      if Projects(FactOf(log[n])) then [Delivery(ids(n), FactOf(log[n]), times(n))] else []
  }

  ghost predicate FreshIds(ids: nat -> EventId) {
    forall i, j :: i != j ==> ids(i) != ids(j)
  }

  lemma {:induction false} EncodedIds(log: seq<Event>, ids: nat -> EventId, times: nat -> Time, d: Delivery)
    requires d in Encoded(log, ids, times)
    ensures Projects(d.fact) && exists i: nat :: i < |log| && d == Delivery(ids(i), FactOf(log[i]), times(i))
  {
    var n := |log| - 1;
    if d in Encoded(log[..n], ids, times) {
      EncodedIds(log[..n], ids, times, d);
      var i: nat :| i < n && d == Delivery(ids(i), FactOf(log[..n][i]), times(i));
      assert log[..n][i] == log[i];
    }
  }

  lemma EncodedCoherent(log: seq<Event>, ids: nat -> EventId, times: nat -> Time)
    requires FreshIds(ids)
    ensures Coherent(Encoded(log, ids, times))
  {
    var sent := Encoded(log, ids, times);
    forall i, j | 0 <= i < |sent| && 0 <= j < |sent| && sent[i].id == sent[j].id ensures sent[i] == sent[j] {
      EncodedIds(log, ids, times, sent[i]);
      EncodedIds(log, ids, times, sent[j]);
    }
  }

  // ---- totals of a report

  datatype Cell = Cell(key: RowKey, counters: Counters)

  function Cells(rows: Rows): map<RowKey, Cell> {
    map k | k in rows :: Cell(k, rows[k])
  }

  ghost function CellValue(sel: RowKey -> bool, m: Metric): Cell -> int {
    (c: Cell) => if sel(c.key) then Value(c.counters, m) else 0
  }

  /** A metric over the selected rows. */
  ghost function TotalOf(rows: Rows, sel: RowKey -> bool, m: Metric): int {
    Sum(Cells(rows), CellValue(sel, m))
  }

  ghost function OfSkuRows(sku: Sku): RowKey -> bool {
    (k: RowKey) => k.sku == sku
  }

  ghost function OfBinRows(bin: BinId): RowKey -> bool {
    (k: RowKey) => k.bin == bin
  }

  /** A metric of a SKU, over all its rows. */
  ghost function ReportTotal(rows: Rows, sku: Sku, m: Metric): int {
    TotalOf(rows, OfSkuRows(sku), m)
  }

  /** A metric of a bin, over all its rows. */
  ghost function BinTotal(rows: Rows, bin: BinId, m: Metric): int {
    TotalOf(rows, OfBinRows(bin), m)
  }

  ghost function Share(sel: RowKey -> bool, m: Metric): Delivery -> int {
    (d: Delivery) => if sel(KeyOf(d.fact, d.at)) then Value(DeltaOf(d.fact), m) else 0
  }

  lemma TotalGrows(rows: Rows, k: RowKey, delta: Counters, sel: RowKey -> bool, m: Metric)
    ensures TotalOf(rows[k := Plus(RowOf(rows, k), delta)], sel, m) ==
            TotalOf(rows, sel, m) + if sel(k) then Value(delta, m) else 0
  {
    var c := Plus(RowOf(rows, k), delta);
    assert Cells(rows[k := c]) == Cells(rows)[k := Cell(k, c)];
    SumUpdate(Cells(rows), k, Cell(k, c), CellValue(sel, m));
    PlusValue(RowOf(rows, k), delta, m);
  }

  lemma EncodedNext(log: seq<Event>, ids: nat -> EventId, times: nat -> Time)
    requires log != []
    ensures var n := |log| - 1;
      Encoded(log, ids, times) ==
      if Projects(FactOf(log[n])) then Encoded(log[..n], ids, times) + [Delivery(ids(n), FactOf(log[n]), times(n))]
      else Encoded(log[..n], ids, times)
  {
  }

  lemma ReplayNext(front: seq<Delivery>, d: Delivery)
    requires Projects(d.fact)
    ensures Replay(front + [d]) == ApplyOnce(Replay(front), d.id, KeyOf(d.fact, d.at), DeltaOf(d.fact), d.at)
  {
    assert (front + [d])[..|front|] == front;
  }

  /** Only ids handed out for the log have been seen. */
  lemma {:induction false} SeenIds(log: seq<Event>, ids: nat -> EventId, times: nat -> Time, id: EventId)
    requires id in Replay(Encoded(log, ids, times)).seen
    ensures exists i: nat :: i < |log| && id == ids(i)
  {
    hide Encoded, ApplyFact, ApplyOnce;
    if log == [] {
      EncodedNothing(ids, times);
    } else {
      var n := |log| - 1;
      EncodedNext(log, ids, times);
      if Projects(FactOf(log[n])) {
        SeenNext(Encoded(log[..n], ids, times), Delivery(ids(n), FactOf(log[n]), times(n)));
      }
      if id != ids(n) {
        SeenIds(log[..n], ids, times, id);
      }
    }
  }

  lemma SeenNext(front: seq<Delivery>, d: Delivery)
    requires Projects(d.fact)
    ensures Replay(front + [d]).seen == Replay(front).seen + {d.id}
  {
    ReplayNext(front, d);
  }

  lemma EncodedNothing(ids: nat -> EventId, times: nat -> Time)
    ensures Encoded([], ids, times) == [] && Replay([]) == NEW_STORE && Cells(NEW_STORE.rows) == map[]
  {
  }

  /** Delivered once each and in order, the totals are tallies of the messages. */
  lemma {:induction false} TotalsOfEncoded(log: seq<Event>, ids: nat -> EventId, times: nat -> Time, sel: RowKey -> bool,
                                           m: Metric)
    requires FreshIds(ids)
    ensures TotalOf(Replay(Encoded(log, ids, times)).rows, sel, m) == Tally(Encoded(log, ids, times), Share(sel, m))
  {
    hide Encoded, KeyOf, DeltaOf, Value;
    if log == [] {
      EncodedNothing(ids, times);
    } else {
      var n := |log| - 1;
      var front := Encoded(log[..n], ids, times);
      TotalsOfEncoded(log[..n], ids, times, sel, m);
      EncodedNext(log, ids, times);
      if Projects(FactOf(log[n])) {
        var d := Delivery(ids(n), FactOf(log[n]), times(n));
        if d.id in Replay(front).seen {
          SeenIds(log[..n], ids, times, d.id);
          assert false;
        }
        ReplayNext(front, d);
        TotalGrows(Replay(front).rows, KeyOf(d.fact, d.at), DeltaOf(d.fact), sel, m);
        TallyAppend(front, d, Share(sel, m));
      }
    }
  }

  /** A sum over the events of a log and the times they occurred at. */
  ghost function Timed(log: seq<Event>, times: nat -> Time, f: (Event, Time) -> int): int {
    if log == [] then 0 else Timed(log[..|log| - 1], times, f) + f(log[|log| - 1], times(|log| - 1))
  }

  ghost function EventShare(sel: RowKey -> bool, m: Metric): (Event, Time) -> int {
    (e: Event, at: Time) =>
      if Projects(FactOf(e)) && sel(KeyOf(FactOf(e), at)) then Value(DeltaOf(FactOf(e)), m) else 0
  }

  /** Tallies over messages are sums over the events they were published for. */
  lemma {:induction false} TalliesOfEncoded(log: seq<Event>, ids: nat -> EventId, times: nat -> Time, sel: RowKey -> bool,
                                            m: Metric)
    ensures Tally(Encoded(log, ids, times), Share(sel, m)) == Timed(log, times, EventShare(sel, m))
  {
    hide Encoded, FactOf, KeyOf, DeltaOf;
    if log == [] {
      EncodedNothing(ids, times);
    } else {
      var n := |log| - 1;
      TalliesOfEncoded(log[..n], ids, times, sel, m);
      EncodedNext(log, ids, times);
      if Projects(FactOf(log[n])) {
        TallyAppend(Encoded(log[..n], ids, times), Delivery(ids(n), FactOf(log[n]), times(n)), Share(sel, m));
      }
    }
  }

  /** The messages of a log, delivered at least once each and in any order, and nothing else. */
  ghost predicate Delivers(delivered: seq<Delivery>, log: seq<Event>, ids: nat -> EventId, times: nat -> Time) {
    && FreshIds(ids) && Coherent(delivered)
    && forall d :: d in delivered <==> d in Encoded(log, ids, times)
  }

  lemma TotalsFollowLog(log: seq<Event>, ids: nat -> EventId, times: nat -> Time, delivered: seq<Delivery>,
                        sel: RowKey -> bool, m: Metric)
    requires Delivers(delivered, log, ids, times)
    ensures TotalOf(Replay(delivered).rows, sel, m) == Timed(log, times, EventShare(sel, m))
  {
    hide Replay, Coherent, Encoded, TotalOf, Timed, Share, EventShare;
    EncodedCoherent(log, ids, times);
    ReplayOfSameEvents(delivered, Encoded(log, ids, times));
    TotalsOfEncoded(log, ids, times, sel, m);
    TalliesOfEncoded(log, ids, times, sel, m);
  }

  // ---- which metric an event moves, said of the events themselves

  /** The amount an event adds to a metric; the SKU and the bin it is filed under, "" when it carries none. */
  datatype Filing = Filing(metric: Metric, amount: int, sku: Sku, bin: BinId)

  ghost function Filed(e: Event): Option<Filing> {
    match e
    case StockReceived(sku, quantity) => Some(Filing(Received, quantity, sku, ""))
    case ItemStowed(sku, bin, _) => Some(Filing(Stowed, 1, sku, bin))
    case StockReserved(_, sku, _) => Some(Filing(Created, 1, sku, ""))
    case ReservationExpired(_, sku) => Some(Filing(Metric.Expired, 1, sku, ""))
    case ReservationRevoked(_, sku) => Some(Filing(Revoked, 1, sku, ""))
    case StockPicked(_, sku, quantity) => Some(Filing(Picked, quantity, sku, ""))
    case DiscrepancyDetected(bin, _, _) => Some(Filing(Discrepancies, 1, "", bin))
    case ItemUnlocated(_, sku, bin, _) => Some(Filing(Unlocated, 1, sku, bin))
    case CycleCountCompleted(bin, _, _, _) => Some(Filing(Counts, 1, "", bin))
    case LocationRecorded(_, _) => None
  }

  lemma FiledWhere(e: Event, at: Time)
    ensures Filed(e).Some? <==> Projects(FactOf(e))
    ensures Filed(e).Some? ==> KeyOf(FactOf(e), at) == RowKey(Filed(e).value.sku, Filed(e).value.bin, HourBucket(at))
  {
    hide HourBucket;
  }

  lemma FiledAmount(e: Event)
    requires Filed(e).Some?
    ensures forall m :: Value(DeltaOf(FactOf(e)), m) == if m == Filed(e).value.metric then Filed(e).value.amount else 0
  {
  }

  ghost function ReceivedQty(sku: Sku): Event -> int {
    (e: Event) => if e.StockReceived? && e.sku == sku then e.quantity else 0
  }

  ghost function StowedFor(sku: Sku): Event -> int {
    (e: Event) => if e.ItemStowed? && e.sku == sku then 1 else 0
  }

  ghost function UnlocatedFor(sku: Sku): Event -> int {
    (e: Event) => if e.ItemUnlocated? && e.sku == sku then 1 else 0
  }

  ghost function StowedInto(bin: BinId): Event -> int {
    (e: Event) => if e.ItemStowed? && e.bin == bin then 1 else 0
  }

  ghost function CountedIn(bin: BinId): Event -> int {
    (e: Event) => if e.CycleCountCompleted? && e.bin == bin then 1 else 0
  }

  ghost function DiscrepantIn(bin: BinId): Event -> int {
    (e: Event) => if e.DiscrepancyDetected? && e.bin == bin then 1 else 0
  }

  ghost function UnlocatedIn(bin: BinId): Event -> int {
    (e: Event) => if e.ItemUnlocated? && e.bin == bin then 1 else 0
  }

  lemma {:induction false} TimedIsTally(log: seq<Event>, times: nat -> Time, f: (Event, Time) -> int, g: Event -> int)
    requires forall e, at :: f(e, at) == g(e)
    ensures Timed(log, times, f) == Tally(log, g)
  {
    if log != [] {
      TimedIsTally(log[..|log| - 1], times, f, g);
    }
  }

  lemma TotalIsTally(log: seq<Event>, ids: nat -> EventId, times: nat -> Time, delivered: seq<Delivery>,
                     sel: RowKey -> bool, m: Metric, g: Event -> int)
    requires Delivers(delivered, log, ids, times)
    requires forall e, at :: EventShare(sel, m)(e, at) == g(e)
    ensures TotalOf(Replay(delivered).rows, sel, m) == Tally(log, g)
  {
    hide Delivers, Replay, TotalOf, Timed, EventShare;
    TotalsFollowLog(log, ids, times, delivered, sel, m);
    TimedIsTally(log, times, EventShare(sel, m), g);
  }

  lemma SkuShares(e: Event, at: Time, sku: Sku)
    ensures EventShare(OfSkuRows(sku), Received)(e, at) == ReceivedQty(sku)(e)
    ensures EventShare(OfSkuRows(sku), Stowed)(e, at) == StowedFor(sku)(e)
    ensures EventShare(OfSkuRows(sku), Picked)(e, at) == PickedQty(sku)(e)
    ensures EventShare(OfSkuRows(sku), Created)(e, at) == CreatedFor(sku)(e)
    ensures EventShare(OfSkuRows(sku), Metric.Expired)(e, at) == EndedAs(sku, EXPIRED)(e)
    ensures EventShare(OfSkuRows(sku), Revoked)(e, at) == EndedAs(sku, REVOKED)(e)
    ensures EventShare(OfSkuRows(sku), Unlocated)(e, at) == UnlocatedFor(sku)(e)
  {
    FiledWhere(e, at);
    if Filed(e).Some? {
      FiledAmount(e);
    }
    hide HourBucket, KeyOf, DeltaOf, FactOf, Projects, Value;
  }

  lemma BinShares(e: Event, at: Time, bin: BinId)
    ensures EventShare(OfBinRows(bin), Stowed)(e, at) == StowedInto(bin)(e)
    ensures EventShare(OfBinRows(bin), Counts)(e, at) == CountedIn(bin)(e)
    ensures EventShare(OfBinRows(bin), Discrepancies)(e, at) == DiscrepantIn(bin)(e)
    ensures EventShare(OfBinRows(bin), Unlocated)(e, at) == UnlocatedIn(bin)(e)
  {
    FiledWhere(e, at);
    if Filed(e).Some? {
      FiledAmount(e);
    }
    hide HourBucket, KeyOf, DeltaOf, FactOf, Projects, Value;
  }

  /** Every metric of a SKU is what the rows of that SKU add up to. */
  ghost predicate SkuReport(rows: Rows, log: seq<Event>, sku: Sku) {
    && ReportTotal(rows, sku, Received) == Tally(log, ReceivedQty(sku))
    && ReportTotal(rows, sku, Stowed) == Tally(log, StowedFor(sku))
    && ReportTotal(rows, sku, Picked) == Tally(log, PickedQty(sku))
    && ReportTotal(rows, sku, Created) == Tally(log, CreatedFor(sku))
    && ReportTotal(rows, sku, Metric.Expired) == Tally(log, EndedAs(sku, EXPIRED))
    && ReportTotal(rows, sku, Revoked) == Tally(log, EndedAs(sku, REVOKED))
    && ReportTotal(rows, sku, Unlocated) == Tally(log, UnlocatedFor(sku))
  }

  ghost predicate BinReport(rows: Rows, log: seq<Event>, bin: BinId) {
    && BinTotal(rows, bin, Stowed) == Tally(log, StowedInto(bin))
    && BinTotal(rows, bin, Counts) == Tally(log, CountedIn(bin))
    && BinTotal(rows, bin, Discrepancies) == Tally(log, DiscrepantIn(bin))
    && BinTotal(rows, bin, Unlocated) == Tally(log, UnlocatedIn(bin))
  }

  /**
   At-least-once delivery in any order, all events of the log and nothing else: every metric of a SKU, and every metric
   of a bin, is the tally of its own kind of event in the log.
   */
  lemma ReportFollowsLog(log: seq<Event>, ids: nat -> EventId, times: nat -> Time, delivered: seq<Delivery>, sku: Sku,
                         bin: BinId)
    requires Delivers(delivered, log, ids, times)
    ensures SkuReport(Replay(delivered).rows, log, sku) && BinReport(Replay(delivered).rows, log, bin)
  {
    hide Delivers, Replay, TotalOf, EventShare, OfSkuRows, OfBinRows;
    var ofSku, ofBin := OfSkuRows(sku), OfBinRows(bin);
    forall e, at
      ensures EventShare(ofSku, Received)(e, at) == ReceivedQty(sku)(e) && EventShare(ofSku, Stowed)(e, at) == StowedFor(sku)(e)
      ensures EventShare(ofSku, Picked)(e, at) == PickedQty(sku)(e) && EventShare(ofSku, Created)(e, at) == CreatedFor(sku)(e)
      ensures EventShare(ofSku, Metric.Expired)(e, at) == EndedAs(sku, EXPIRED)(e)
      ensures EventShare(ofSku, Revoked)(e, at) == EndedAs(sku, REVOKED)(e)
      ensures EventShare(ofSku, Unlocated)(e, at) == UnlocatedFor(sku)(e)
    {
      SkuShares(e, at, sku);
    }
    forall e, at
      ensures EventShare(ofBin, Stowed)(e, at) == StowedInto(bin)(e) && EventShare(ofBin, Counts)(e, at) == CountedIn(bin)(e)
      ensures EventShare(ofBin, Discrepancies)(e, at) == DiscrepantIn(bin)(e)
      ensures EventShare(ofBin, Unlocated)(e, at) == UnlocatedIn(bin)(e)
    {
      BinShares(e, at, bin);
    }
    hide ReceivedQty, StowedFor, PickedQty, CreatedFor, EndedAs, UnlocatedFor, StowedInto, CountedIn, DiscrepantIn, UnlocatedIn;
    TotalIsTally(log, ids, times, delivered, ofSku, Received, ReceivedQty(sku));
    TotalIsTally(log, ids, times, delivered, ofSku, Stowed, StowedFor(sku));
    TotalIsTally(log, ids, times, delivered, ofSku, Picked, PickedQty(sku));
    TotalIsTally(log, ids, times, delivered, ofSku, Created, CreatedFor(sku));
    TotalIsTally(log, ids, times, delivered, ofSku, Metric.Expired, EndedAs(sku, EXPIRED));
    TotalIsTally(log, ids, times, delivered, ofSku, Revoked, EndedAs(sku, REVOKED));
    TotalIsTally(log, ids, times, delivered, ofSku, Unlocated, UnlocatedFor(sku));
    TotalIsTally(log, ids, times, delivered, ofBin, Stowed, StowedInto(bin));
    TotalIsTally(log, ids, times, delivered, ofBin, Counts, CountedIn(bin));
    TotalIsTally(log, ids, times, delivered, ofBin, Discrepancies, DiscrepantIn(bin));
    TotalIsTally(log, ids, times, delivered, ofBin, Unlocated, UnlocatedIn(bin));
  }

  // ---- windows

  /** The full hour that an instant falls in starts within the window, which is closed at its start and open at its end. */
  ghost predicate StartsWithin(at: Time, from: Time, to: Time) {
    from <= at - at % 3_600_000_000_000 < to
  }

  /** For a window of full hours these are the instants within it. */
  lemma FullHours(at: Time, from: Time, to: Time)
    requires from % 3_600_000_000_000 == 0 && to % 3_600_000_000_000 == 0
    ensures StartsWithin(at, from, to) <==> from <= at < to
  {
  }

  /** What an event adds to a metric of a report for a window, a SKU and a bin; "" for either means all of them. */
  ghost function InWindow(from: Time, to: Time, sku: Sku, bin: BinId, m: Metric): (Event, Time) -> int {
    (e: Event, at: Time) =>
      match Filed(e)
      case Some(f) =>
        if f.metric == m && StartsWithin(at, from, to) && (sku == "" || f.sku == sku) && (bin == "" || f.bin == bin)
        then f.amount else 0
      case None => 0
  }

  /** What an event adds to a metric of one row: it is filed there and occurred in the row's hour. */
  ghost function InRow(k: RowKey, m: Metric): (Event, Time) -> int {
    (e: Event, at: Time) =>
      match Filed(e)
      case Some(f) =>
        if f == Filing(m, f.amount, k.sku, k.bin) && k.hour <= at < k.hour + 3_600_000_000_000 then f.amount else 0
      case None => 0
  }

  ghost function Only(k: RowKey): RowKey -> bool {
    (x: RowKey) => x == k
  }

  ghost function Selecting(q: Query): RowKey -> bool {
    (k: RowKey) => q.Selects(k)
  }

  ghost function Everything(): RowKey -> bool {
    (k: RowKey) => true
  }

  /** The selected rows add up to the total over what the query selects. */
  lemma {:induction false} SelectedTotal(rows: Rows, q: Query, m: Metric)
    ensures TotalOf(Selected(rows, q), Everything(), m) == TotalOf(rows, Selecting(q), m)
    decreases |rows|
  {
    hide Cells, Selected, TotalOf;
    if rows == map[] {
      NothingSelected(q, m);
    } else {
      var k :| k in rows;
      var rest := rows - {k};
      assert |rest| < |rows|;
      SelectedTotal(rest, q, m);
      TotalWithout(rows, k, Selecting(q), m);
      SelectedWithout(rows, k, q);
      if q.Selects(k) {
        TotalWithout(Selected(rows, q), k, Everything(), m);
      }
    }
  }

  lemma NothingSelected(q: Query, m: Metric)
    ensures TotalOf(Selected(map[], q), Everything(), m) == 0 == TotalOf(map[], Selecting(q), m)
  {
    assert Selected(map[], q) == map[] && Cells(map[]) == map[];
  }

  lemma SelectedWithout(rows: Rows, k: RowKey, q: Query)
    requires k in rows
    ensures if q.Selects(k) then k in Selected(rows, q) && Selected(rows, q)[k] == rows[k]
                                 && Selected(rows, q) - {k} == Selected(rows - {k}, q)
            else Selected(rows, q) == Selected(rows - {k}, q)
  {
  }

  lemma TotalWithout(rows: Rows, k: RowKey, sel: RowKey -> bool, m: Metric)
    requires k in rows
    ensures TotalOf(rows, sel, m) == TotalOf(rows - {k}, sel, m) + if sel(k) then Value(rows[k], m) else 0
  {
    SumRemove(Cells(rows), k, CellValue(sel, m));
    assert Cells(rows) - {k} == Cells(rows - {k});
  }

  lemma {:induction false} TimedSame(log: seq<Event>, times: nat -> Time, f: (Event, Time) -> int, g: (Event, Time) -> int)
    requires forall e, at :: f(e, at) == g(e, at)
    ensures Timed(log, times, f) == Timed(log, times, g)
  {
    if log != [] {
      TimedSame(log[..|log| - 1], times, f, g);
    }
  }

  lemma ShareInWindow(e: Event, at: Time, from: Time, to: Time, sku: Sku, bin: BinId, m: Metric)
    ensures EventShare(Selecting(Query(from, to, sku, bin)), m)(e, at) == InWindow(from, to, sku, bin, m)(e, at)
  {
    FiledWhere(e, at);
    if Filed(e).Some? {
      FiledAmount(e);
    }
    assert HourBucket(at) == at - at % 3_600_000_000_000;
    hide HourBucket, KeyOf, DeltaOf, FactOf, Projects, Filed, Value;
  }

  /**
   A report for a window adds up to what the log holds for it: each event whose hour starts in the window moves its own
   metric, once however often it was delivered, under its own SKU and bin.
   */
  lemma WindowFollowsLog(log: seq<Event>, ids: nat -> EventId, times: nat -> Time, delivered: seq<Delivery>, from: Time,
                         to: Time, sku: Sku, bin: BinId, m: Metric)
    requires Delivers(delivered, log, ids, times)
    ensures TotalOf(Selected(Replay(delivered).rows, Query(from, to, sku, bin)), Everything(), m) ==
            Timed(log, times, InWindow(from, to, sku, bin, m))
  {
    hide Delivers, Replay, TotalOf, Timed, EventShare, InWindow;
    var q := Query(from, to, sku, bin);
    SelectedTotal(Replay(delivered).rows, q, m);
    TotalsFollowLog(log, ids, times, delivered, Selecting(q), m);
    forall e, at ensures EventShare(Selecting(q), m)(e, at) == InWindow(from, to, sku, bin, m)(e, at) {
      ShareInWindow(e, at, from, to, sku, bin, m);
    }
    TimedSame(log, times, EventShare(Selecting(q), m), InWindow(from, to, sku, bin, m));
  }

  lemma ShareInRow(e: Event, at: Time, k: RowKey, m: Metric)
    requires k.hour % 3_600_000_000_000 == 0
    ensures EventShare(Only(k), m)(e, at) == InRow(k, m)(e, at)
  {
    FiledWhere(e, at);
    if Filed(e).Some? {
      FiledAmount(e);
    }
    assert HourBucket(at) == k.hour <==> k.hour <= at < k.hour + 3_600_000_000_000;
    hide HourBucket, KeyOf, DeltaOf, FactOf, Projects, Filed, Value;
  }

  lemma OnlyRow(rows: Rows, k: RowKey, m: Metric)
    ensures TotalOf(rows, Only(k), m) == Value(RowOf(rows, k), m)
  {
    hide TotalOf;
    if k in rows {
      TotalWithout(rows, k, Only(k), m);
      NoSuchRow(rows - {k}, k, m);
    } else {
      NoSuchRow(rows, k, m);
      PlusValue(ZERO, ZERO, m);
    }
  }

  lemma NoSuchRow(rows: Rows, k: RowKey, m: Metric)
    requires k !in rows
    ensures TotalOf(rows, Only(k), m) == 0
  {
    SumZero(Cells(rows), CellValue(Only(k), m));
  }

  /** Rows belong to full hours, and each cell of a row is what the events filed there within its hour add up to. */
  lemma RowFollowsLog(log: seq<Event>, ids: nat -> EventId, times: nat -> Time, delivered: seq<Delivery>, k: RowKey, m: Metric)
    requires Delivers(delivered, log, ids, times)
    ensures k in Replay(delivered).rows ==> k.hour % 3_600_000_000_000 == 0
    ensures k.hour % 3_600_000_000_000 == 0 ==>
      Value(RowOf(Replay(delivered).rows, k), m) == Timed(log, times, InRow(k, m))
  {
    if k in Replay(delivered).rows {
      RowHour(delivered, k);
    }
    if k.hour % 3_600_000_000_000 == 0 {
      hide Delivers, Replay, TotalOf, Timed, EventShare, InRow, RowOf, Value;
      OnlyRow(Replay(delivered).rows, k, m);
      TotalsFollowLog(log, ids, times, delivered, Only(k), m);
      forall e, at ensures EventShare(Only(k), m)(e, at) == InRow(k, m)(e, at) {
        ShareInRow(e, at, k, m);
      }
      TimedSame(log, times, EventShare(Only(k), m), InRow(k, m));
    }
  }

  lemma RowHour(delivered: seq<Delivery>, k: RowKey)
    requires k in Replay(delivered).rows
    ensures k.hour % 3_600_000_000_000 == 0
  {
    RowsAreSums(delivered, k, Received);
    hide Replay, ById;
  }

  // ---- the report and the ledger

  /** What the report says of a SKU is what its reservations are. */
  ghost predicate ReportMatches(rows: Rows, b: Books, sku: Sku) {
    && ReportTotal(rows, sku, Created) == Sum(b.reservations, MadeOf(sku))
    && ReportTotal(rows, sku, Metric.Expired) == Sum(b.reservations, EndedOf(sku, EXPIRED))
    && ReportTotal(rows, sku, Revoked) == Sum(b.reservations, EndedOf(sku, REVOKED))
    && ReportTotal(rows, sku, Picked) == Sum(b.reservations, ConfirmedQty(sku))
  }

  /** On every sequential run the projected report matches the ledger. */
  lemma SequentialReportMatches(trace: seq<Books>, apart: (Sku, Sku) -> bool, i: nat, ids: nat -> EventId, times: nat -> Time,
                                delivered: seq<Delivery>, sku: Sku)
    requires UseCases.CallRun(trace, apart) && (forall s, t :: apart(s, t) == apart(t, s)) && i < |trace|
    requires Delivers(delivered, trace[i].log, ids, times)
    ensures ReportMatches(Replay(delivered).rows, trace[i], sku)
  {
    hide Delivers, Replay, ReportTotal, UseCases.CallRun;
    Sequential.CallRunOrderly(trace, apart, i);
    assert SkuAudited(trace[i], sku) && SkuCounted(trace[i], sku) by {
      hide UnitsSound, ClaimsSound, Covered, BinsBalanced, SkuAudited, SkuCounted;
    }
    hide Sequential.Orderly;
    ReportFollowsLog(trace[i].log, ids, times, delivered, sku, "");
  }

  /** On every interleaved run, crashes and conflicts included, the report of the outbox's events matches the ledger. */
  lemma InterleavedReportMatches(trace: seq<Requests.System>, apart: (Sku, Sku) -> bool, i: nat, ids: nat -> EventId,
                                 times: nat -> Time, delivered: seq<Delivery>, sku: Sku)
    requires Requests.Run(trace, apart) && Invariants.Symmetric(apart) && i < |trace|
    requires Delivers(delivered, trace[i].db.outbox, ids, times)
    ensures ReportMatches(Replay(delivered).rows, Theorems.BooksAt(trace, i), sku)
  {
    hide Delivers, Replay, ReportTotal, Requests.Run;
    Theorems.OutboxAccounts(trace, apart, i, sku);
    ReportFollowsLog(trace[i].db.outbox, ids, times, delivered, sku, "");
  }

  // ---- by way of the relay

  /** All these are ids of the first n rows. */
  predicate Within(sink: seq<nat>, n: nat) {
    forall i :: 0 <= i < |sink| ==> sink[i] < n
  }

  /** The messages behind the row ids that reached the sink, repeats included. */
  function Relayed(messages: seq<Delivery>, sink: seq<nat>): (delivered: seq<Delivery>)
    requires Within(sink, |messages|)
    ensures |delivered| == |sink| && forall i :: 0 <= i < |sink| ==> delivered[i] == messages[sink[i]]
  {
    seq(|sink|, i requires 0 <= i < |sink| => messages[sink[i]])
  }

  /**
   Replaying whatever a relay with unlimited attempts has delivered, failures and crashes included, gives the store of
   an exact prefix of the outbox: the rows that have arrived at all.
   */
  lemma RelayedPrefix(trace: seq<Relay.RelayState>, batch: nat, i: nat, messages: seq<Delivery>)
    requires Relay.Run(trace, batch, 0) && i < |trace| && |trace[i].rows| <= |messages| && Coherent(messages)
    ensures |Relay.First(trace[i].sink)| <= |messages|
    ensures Within(trace[i].sink, |messages|)
    ensures Replay(Relayed(messages, trace[i].sink)) == Replay(messages[..|Relay.First(trace[i].sink)|])
  {
    hide Relay.Run, Relay.First, Replay, Coherent;
    Relay.RelayIsFaithful(trace, batch, i);
    var sink := trace[i].sink;
    var k := |Relay.First(sink)|;
    hide Relay.Faithful;
    SinkIsPrefix(sink, k);
    SameMessages(messages, sink, k);
    ReplayOfSameEvents(Relayed(messages, sink), messages[..k]);
  }

  lemma SinkIsPrefix(sink: seq<nat>, k: nat)
    requires Relay.First(sink) == Relay.UpTo(k)
    ensures Within(sink, k) && forall x: nat :: x < k ==> x in sink
  {
    hide Relay.First;
    forall x: nat | x < k ensures x in sink {
      assert Relay.UpTo(k)[x] == x;
    }
    forall i | 0 <= i < |sink| ensures sink[i] < k {
      assert sink[i] in Relay.UpTo(k);
    }
  }

  lemma SameMessages(messages: seq<Delivery>, sink: seq<nat>, k: nat)
    requires Coherent(messages) && k <= |messages| && Within(sink, k) && forall x: nat :: x < k ==> x in sink
    ensures Coherent(Relayed(messages, sink)) && Coherent(messages[..k])
    ensures forall d :: d in Relayed(messages, sink) <==> d in messages[..k]
  {
    var delivered, prefix := Relayed(messages, sink), messages[..k];
    forall d | d in prefix ensures d in delivered {
      var x: nat :| x < k && prefix[x] == d;
      assert x in sink;
      var i :| 0 <= i < |sink| && sink[i] == x;
      assert delivered[i] == d;
    }
    forall d | d in delivered ensures d in prefix {
      var i :| 0 <= i < |sink| && delivered[i] == d;
      assert prefix[sink[i]] == d;
    }
  }

  /** A prefix of the messages is what was published for a prefix of the events. */
  lemma {:induction false} PrefixOfEvents(log: seq<Event>, ids: nat -> EventId, times: nat -> Time, k: nat) returns (n: nat)
    requires k <= |Encoded(log, ids, times)|
    ensures n <= |log| && Encoded(log[..n], ids, times) == Encoded(log, ids, times)[..k]
  {
    hide Encoded;
    var sent := Encoded(log, ids, times);
    if k == |sent| {
      n := |log|;
      assert log[..n] == log && sent[..k] == sent;
    } else if log == [] {
      EncodedNothing(ids, times);
    } else {
      var front := log[..|log| - 1];
      EncodedNext(log, ids, times);
      n := PrefixOfEvents(front, ids, times, k);
      assert front[..n] == log[..n];
      assert sent[..k] == Encoded(front, ids, times)[..k];
    }
  }

  /** The report behind a relay in any reachable state is that of a prefix of the events, counted once each. */
  lemma RelayedReport(trace: seq<Relay.RelayState>, batch: nat, i: nat, log: seq<Event>, ids: nat -> EventId,
                      times: nat -> Time, sku: Sku, bin: BinId) returns (n: nat)
    requires Relay.Run(trace, batch, 0) && i < |trace| && |trace[i].rows| <= |Encoded(log, ids, times)| && FreshIds(ids)
    ensures n <= |log| && |Encoded(log[..n], ids, times)| == |Relay.First(trace[i].sink)|
    ensures Within(trace[i].sink, |Encoded(log, ids, times)|)
    ensures var rows := Replay(Relayed(Encoded(log, ids, times), trace[i].sink)).rows;
      SkuReport(rows, log[..n], sku) && BinReport(rows, log[..n], bin)
  {
    hide Relay.Run, Relay.First, Replay, Coherent, Encoded, SkuReport, BinReport;
    EncodedCoherent(log, ids, times);
    RelayedPrefix(trace, batch, i, Encoded(log, ids, times));
    n := PrefixOfEvents(log, ids, times, |Relay.First(trace[i].sink)|);
    EncodedCoherent(log[..n], ids, times);
    ReportFollowsLog(log[..n], ids, times, Encoded(log[..n], ids, times), sku, bin);
  }

  /**
   From the outbox through the relay to the report: once the relay of an interleaved run's outbox has nothing left to
   send, the report matches the ledger.
   */
  lemma DrainedReportMatches(trace: seq<Requests.System>, apart: (Sku, Sku) -> bool, j: nat, ids: nat -> EventId,
                             times: nat -> Time, relay: seq<Relay.RelayState>, batch: nat, i: nat, sku: Sku)
    requires Requests.Run(trace, apart) && Invariants.Symmetric(apart) && j < |trace| && FreshIds(ids)
    requires Relay.Run(relay, batch, 0) && i < |relay| && Relay.EligibleIds(relay[i].rows, 0) == []
    requires |relay[i].rows| == |Encoded(trace[j].db.outbox, ids, times)|
    ensures Within(relay[i].sink, |Encoded(trace[j].db.outbox, ids, times)|)
    ensures ReportMatches(Replay(Relayed(Encoded(trace[j].db.outbox, ids, times), relay[i].sink)).rows,
                          Theorems.BooksAt(trace, j), sku)
  {
    hide Relay.Run, Relay.First, Relay.EligibleIds, Requests.Run, Replay, Coherent, Encoded, ReportMatches;
    var messages := Encoded(trace[j].db.outbox, ids, times);
    EncodedCoherent(trace[j].db.outbox, ids, times);
    RelayedPrefix(relay, batch, i, messages);
    Relay.DrainedIsComplete(relay, batch, i);
    assert messages[..|messages|] == messages;
    InterleavedReportMatches(trace, apart, j, ids, times, messages, sku);
  }
}
