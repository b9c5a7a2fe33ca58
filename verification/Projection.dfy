/**
 The flow-and-accuracy projection: an idempotent fold of delivered events into report rows. The rows depend only on
 which events were delivered, not on how often or in what order.
 */
module Projection {
  import opened Shared
  import opened Sums

  type EventId = string

  const HOUR := 3_600_000_000_000

  /** The start of the hour an instant falls in. */
  function HourBucket(at: Time): Time {
    at - at % HOUR
  }

  datatype RowKey = RowKey(sku: Sku, bin: BinId, hour: Time)

  datatype Counters = Counters(received: int, stowed: int, picked: int, created: int, expired: int, revoked: int,
                               counts: int, discrepancies: int, unlocated: int)

  const ZERO := Counters(0, 0, 0, 0, 0, 0, 0, 0, 0)

  function Plus(c: Counters, d: Counters): Counters {
    Counters(c.received + d.received, c.stowed + d.stowed, c.picked + d.picked,
             c.created + d.created, c.expired + d.expired, c.revoked + d.revoked,
             c.counts + d.counts, c.discrepancies + d.discrepancies, c.unlocated + d.unlocated)
  }

  datatype Metric = Received | Stowed | Picked | Created | Expired | Revoked | Counts | Discrepancies | Unlocated

  function Value(c: Counters, m: Metric): int {
    match m
    case Received => c.received
    case Stowed => c.stowed
    case Picked => c.picked
    case Created => c.created
    case Expired => c.expired
    case Revoked => c.revoked
    case Counts => c.counts
    case Discrepancies => c.discrepancies
    case Unlocated => c.unlocated
  }

  lemma SameCounters(c: Counters, d: Counters)
    requires forall m :: Value(c, m) == Value(d, m)
    ensures c == d
  {
    assert forall m :: Value(c, m) == Value(d, m);
    assert Value(c, Received) == Value(d, Received) && Value(c, Stowed) == Value(d, Stowed);
    assert Value(c, Picked) == Value(d, Picked) && Value(c, Created) == Value(d, Created);
    assert Value(c, Metric.Expired) == Value(d, Metric.Expired) && Value(c, Revoked) == Value(d, Revoked);
    assert Value(c, Counts) == Value(d, Counts) && Value(c, Discrepancies) == Value(d, Discrepancies);
    assert Value(c, Unlocated) == Value(d, Unlocated);
  }

  /** An event of the analytics topic; any other type of event is Other. */
  datatype Fact =
    | StockReceivedFact(sku: Sku, quantity: int)
    | ItemStowedFact(sku: Sku, bin: BinId)
    | StockPickedFact(sku: Sku, quantity: int)
    | StockReservedFact(sku: Sku)
    | ReservationExpiredFact(sku: Sku)
    | ReservationRevokedFact(sku: Sku)
    | CycleCountCompletedFact(bin: BinId)
    | DiscrepancyDetectedFact(bin: BinId)
    | ItemUnlocatedFact(sku: Sku, bin: BinId)
    | Other

  datatype Delivery = Delivery(id: EventId, fact: Fact, at: Time)

  predicate Projects(f: Fact) {
    !f.Other?
  }

  /** The row a fact belongs to: flow facts carry no bin, accuracy facts of a bin carry no SKU. */
  function KeyOf(f: Fact, at: Time): RowKey {
    match f
    case ItemStowedFact(sku, bin) => RowKey(sku, bin, HourBucket(at))
    case ItemUnlocatedFact(sku, bin) => RowKey(sku, bin, HourBucket(at))
    case CycleCountCompletedFact(bin) => RowKey("", bin, HourBucket(at))
    case DiscrepancyDetectedFact(bin) => RowKey("", bin, HourBucket(at))
    case Other => RowKey("", "", HourBucket(at))
    case _ => RowKey(f.sku, "", HourBucket(at))
  }

  /** What a fact adds to its row. */
  function DeltaOf(f: Fact): Counters {
    match f
    case StockReceivedFact(_, quantity) => ZERO.(received := quantity)
    case ItemStowedFact(_, _) => ZERO.(stowed := 1)
    case StockPickedFact(_, quantity) => ZERO.(picked := quantity)
    case StockReservedFact(_) => ZERO.(created := 1)
    case ReservationExpiredFact(_) => ZERO.(expired := 1)
    case ReservationRevokedFact(_) => ZERO.(revoked := 1)
    case CycleCountCompletedFact(_) => ZERO.(counts := 1)
    case DiscrepancyDetectedFact(_) => ZERO.(discrepancies := 1)
    case ItemUnlocatedFact(_, _) => ZERO.(unlocated := 1)
    case Other => ZERO
  }

  type Rows = map<RowKey, Counters>

  /** Event ids already applied, the rows, and the latest occurrence seen (0 for none). */
  datatype Store = Store(seen: set<EventId>, rows: Rows, latest: Time)

  const NEW_STORE := Store({}, map[], 0)

  function RowOf(rows: Rows, k: RowKey): Counters {
    if k in rows then rows[k] else ZERO
  }

  /** Apply an increment once per event id. */
  function ApplyOnce(s: Store, id: EventId, k: RowKey, delta: Counters, at: Time): Store {
    if id in s.seen then s
    else Store(s.seen + {id}, s.rows[k := Plus(RowOf(s.rows, k), delta)], if at > s.latest then at else s.latest)
  }

  function ApplyFact(s: Store, d: Delivery): Store {
    if Projects(d.fact) then ApplyOnce(s, d.id, KeyOf(d.fact, d.at), DeltaOf(d.fact), d.at) else s
  }

  /** The store after a list of deliveries. */
  function Replay(log: seq<Delivery>): Store {
    if log == [] then NEW_STORE else ApplyFact(Replay(log[..|log| - 1]), log[|log| - 1])
  }

  // ---- a function of the set of distinct events

  /** Equal ids carry equal events. */
  ghost predicate Coherent(log: seq<Delivery>) {
    forall i, j :: 0 <= i < |log| && 0 <= j < |log| && log[i].id == log[j].id ==> log[i] == log[j]
  }

  /** The projecting events delivered, by id. */
  function ById(log: seq<Delivery>): map<EventId, Delivery> {
    if log == [] then map[]
    else
      var front, last := ById(log[..|log| - 1]), log[|log| - 1];
      if Projects(last.fact) && last.id !in front then front[last.id := last] else front
  }

  /** What one event adds to one cell of the report. */
  ghost function Share(k: RowKey, m: Metric): Delivery -> int {
    (d: Delivery) => if KeyOf(d.fact, d.at) == k then Value(DeltaOf(d.fact), m) else 0
  }

  lemma PlusValue(c: Counters, d: Counters, m: Metric)
    ensures Value(Plus(c, d), m) == Value(c, m) + Value(d, m) && Value(ZERO, m) == 0
  {
  }

  /**
   Exactly once per distinct event: every cell of the report is the sum of the increments of the distinct events
   delivered, a row exists exactly if some event belongs to it, and the ids seen are those events' ids.
   */
  lemma {:induction false} RowsAreSums(log: seq<Delivery>, k: RowKey, m: Metric)
    ensures Replay(log).seen == ById(log).Keys
    ensures Value(RowOf(Replay(log).rows, k), m) == Sum(ById(log), Share(k, m))
    ensures k in Replay(log).rows <==> exists id :: id in ById(log) && KeyOf(ById(log)[id].fact, ById(log)[id].at) == k
  {
    if log != [] {
      var front, last := log[..|log| - 1], log[|log| - 1];
      RowsAreSums(front, k, m);
      if Projects(last.fact) && last.id !in ById(front) {
        SumUpdate(ById(front), last.id, last, Share(k, m));
        PlusValue(RowOf(Replay(front).rows, k), DeltaOf(last.fact), m);
        RowAdded(ById(front), last, k);
      }
    }
  }

  lemma RowAdded(events: map<EventId, Delivery>, d: Delivery, k: RowKey)
    requires d.id !in events
    ensures var more := events[d.id := d];
      (exists id :: id in more && KeyOf(more[id].fact, more[id].at) == k) <==>
      KeyOf(d.fact, d.at) == k || exists id :: id in events && KeyOf(events[id].fact, events[id].at) == k
  {
    var more := events[d.id := d];
    assert d.id in more && more[d.id] == d;
    if id :| id in events && KeyOf(events[id].fact, events[id].at) == k {
      assert more[id] == events[id];
    }
  }

  lemma {:induction false} ByIdHas(log: seq<Delivery>, id: EventId, d: Delivery)
    requires Coherent(log)
    ensures id in ById(log) && ById(log)[id] == d <==> d in log && d.id == id && Projects(d.fact)
  {
    if log != [] {
      var front, last := log[..|log| - 1], log[|log| - 1];
      assert log == front + [last] && Coherent(front);
      ByIdHas(front, id, d);
      if last.id in ById(front) {
        ByIdHas(front, last.id, ById(front)[last.id]);
        assert ById(front)[last.id] in log && last in log;
      }
    }
  }

  /** The latest occurrence is the maximum over the projecting events, never below zero. */
  lemma {:induction false} LatestIsMax(log: seq<Delivery>)
    requires Coherent(log)
    ensures var latest := Replay(log).latest;
      && latest >= 0
      && (forall d :: d in log && Projects(d.fact) ==> d.at <= latest)
      && (latest != 0 ==> exists d :: d in log && Projects(d.fact) && d.at == latest)
  {
    hide KeyOf, DeltaOf, Plus, RowOf, ById;
    if log != [] {
      var front, last := log[..|log| - 1], log[|log| - 1];
      assert log == front + [last] && Coherent(front);
      LatestIsMax(front);
      SeenBefore(front, last);
      assert Replay(log).latest == if Projects(last.fact) && last.id !in Replay(front).seen && last.at > Replay(front).latest
                                   then last.at else Replay(front).latest;
      hide Replay;
      if d :| d in front && Projects(d.fact) && d.at == Replay(front).latest {
        assert d in log;
      }
    }
  }

  /** An event whose id was seen before was delivered before. */
  lemma SeenBefore(front: seq<Delivery>, last: Delivery)
    requires Coherent(front + [last])
    ensures Projects(last.fact) && last.id in Replay(front).seen ==> last in front
  {
    RowsAreSums(front, KeyOf(last.fact, last.at), Received);
    hide Replay, ById;
    if last.id in Replay(front).seen {
      var log := front + [last];
      assert forall d :: d in front ==> d in log;
      assert Coherent(front) by {
        assert forall i :: 0 <= i < |front| ==> front[i] == log[i];
      }
      ByIdHas(front, last.id, ById(front)[last.id]);
      var i :| 0 <= i < |front| && front[i] == ById(front)[last.id];
      assert log[i].id == log[|front|].id;
    }
  }

  /** Reordering and duplicating deliveries changes nothing: only the set of events counts. */
  lemma ReplayOfSameEvents(log: seq<Delivery>, other: seq<Delivery>)
    requires Coherent(log) && Coherent(other)
    requires forall d :: d in log <==> d in other
    ensures Replay(log) == Replay(other)
  {
    hide Replay, ById;
    SameById(log, other);
    var s, t := Replay(log), Replay(other);
    forall k ensures (k in s.rows <==> k in t.rows) && RowOf(s.rows, k) == RowOf(t.rows, k) {
      forall m ensures Value(RowOf(s.rows, k), m) == Value(RowOf(t.rows, k), m) {
        RowsAreSums(log, k, m);
        RowsAreSums(other, k, m);
      }
      SameCounters(RowOf(s.rows, k), RowOf(t.rows, k));
      RowsAreSums(log, k, Received);
      RowsAreSums(other, k, Received);
    }
    RowsAreSums(log, RowKey("", "", 0), Received);
    RowsAreSums(other, RowKey("", "", 0), Received);
    assert s.rows == t.rows by {
      assert forall k :: k in s.rows ==> k in t.rows && s.rows[k] == RowOf(s.rows, k) && t.rows[k] == RowOf(t.rows, k);
    }
    LatestIsMax(log);
    LatestIsMax(other);
  }

  lemma SameById(log: seq<Delivery>, other: seq<Delivery>)
    requires Coherent(log) && Coherent(other)
    requires forall d :: d in log <==> d in other
    ensures ById(log) == ById(other)
  {
    hide ById, Coherent;
    forall id | id in ById(log) ensures id in ById(other) && ById(other)[id] == ById(log)[id] {
      ByIdHas(log, id, ById(log)[id]);
      ByIdHas(other, id, ById(log)[id]);
    }
    forall id | id in ById(other) ensures id in ById(log) {
      ByIdHas(other, id, ById(other)[id]);
      ByIdHas(log, id, ById(other)[id]);
    }
  }

  // ---- queries

  datatype Query = Query(from: Time, to: Time, sku: Sku, bin: BinId) {
    /** The window is closed at its start and open at its end; an empty dimension does not filter. */
    predicate Selects(k: RowKey) {
      && from <= k.hour < to
      && (sku == "" || k.sku == sku)
      && (bin == "" || k.bin == bin)
    }
  }

  function Selected(rows: Rows, q: Query): Rows {
    map k | k in rows && q.Selects(k) :: rows[k]
  }

  /** Adjoining windows add up: [a, b) and [b, c) are disjoint and together give [a, c). */
  lemma WindowsAddUp(rows: Rows, a: Time, b: Time, c: Time, sku: Sku, bin: BinId)
    requires a <= b <= c
    ensures var first, second := Selected(rows, Query(a, b, sku, bin)), Selected(rows, Query(b, c, sku, bin));
      first.Keys !! second.Keys && first + second == Selected(rows, Query(a, c, sku, bin))
  {
  }

  /** Age of the newest event applied: zero when there is none, and never negative. */
  function Lag(s: Store, now: Time): int {
    if s.latest == 0 || now < s.latest then 0 else now - s.latest
  }

  /** The lag is the age of the latest event delivered, zero before its time; events up to instant 0 leave none. */
  lemma LagIsAge(log: seq<Delivery>, now: Time)
    requires Coherent(log)
    ensures (forall d :: d in log && !d.fact.Other? ==> d.at <= 0) ==> Lag(Replay(log), now) == 0
    ensures forall d :: d in log && !d.fact.Other? && d.at > 0 && (forall e :: e in log && !e.fact.Other? ==> e.at <= d.at) ==>
      Lag(Replay(log), now) == if now < d.at then 0 else now - d.at
  {
    hide Replay, Coherent;
    LatestIsMax(log);
  }
}
