/** The projection's stores, changed in place: the in-memory one, the Postgres one, and the consumer feeding them. */
module ProjectionStores {
  import opened Shared
  import opened Projection

  class MemoryStore {
    var seen: set<EventId>
    var rows: Rows
    var latest: Time

    function Now(): Store
      reads this
    {
      Store(seen, rows, latest)
    }

    constructor ()
      ensures Now() == NEW_STORE
    {
      seen, rows, latest := {}, map[], 0;
    }

    /** Mark an id seen and say whether it was new; only a new one moves the freshness watermark. */
    method FirstApply(id: EventId, at: Time) returns (first: bool)
      modifies `seen, `latest
      ensures first <==> id !in old(seen)
      ensures seen == old(seen) + {id}
      ensures latest == if first && at > old(latest) then at else old(latest)
    {
      if id in seen {
        return false;
      }
      seen := seen + {id};
      if at > latest {
        latest := at;
      }
      return true;
    }

    /** Find or create the row, then change it. */
    method Bump(k: RowKey, delta: Counters)
      modifies `rows
      ensures rows == old(rows)[k := Plus(RowOf(old(rows), k), delta)]
    {
      if k !in rows {
        rows := rows[k := ZERO];
      }
      rows := rows[k := Plus(rows[k], delta)];
    }

    method ApplyStockReceived(id: EventId, sku: Sku, quantity: int, at: Time)
      modifies this
      ensures Now() == ApplyFact(old(Now()), Delivery(id, StockReceivedFact(sku, quantity), at))
    {
      hide HourBucket, Plus, RowOf;
      var first := FirstApply(id, at);
      if first {
        Bump(RowKey(sku, "", HourBucket(at)), ZERO.(received := quantity));
      }
    }

    method ApplyItemStowed(id: EventId, sku: Sku, bin: BinId, at: Time)
      modifies this
      ensures Now() == ApplyFact(old(Now()), Delivery(id, ItemStowedFact(sku, bin), at))
    {
      hide HourBucket, Plus, RowOf;
      var first := FirstApply(id, at);
      if first {
        Bump(RowKey(sku, bin, HourBucket(at)), ZERO.(stowed := 1));
      }
    }

    method ApplyStockPicked(id: EventId, sku: Sku, quantity: int, at: Time)
      modifies this
      ensures Now() == ApplyFact(old(Now()), Delivery(id, StockPickedFact(sku, quantity), at))
    {
      hide HourBucket, Plus, RowOf;
      var first := FirstApply(id, at);
      if first {
        Bump(RowKey(sku, "", HourBucket(at)), ZERO.(picked := quantity));
      }
    }

    method ApplyStockReserved(id: EventId, sku: Sku, at: Time)
      modifies this
      ensures Now() == ApplyFact(old(Now()), Delivery(id, StockReservedFact(sku), at))
    {
      hide HourBucket, Plus, RowOf;
      var first := FirstApply(id, at);
      if first {
        Bump(RowKey(sku, "", HourBucket(at)), ZERO.(created := 1));
      }
    }

    method ApplyReservationExpired(id: EventId, sku: Sku, at: Time)
      modifies this
      ensures Now() == ApplyFact(old(Now()), Delivery(id, ReservationExpiredFact(sku), at))
    {
      hide HourBucket, Plus, RowOf;
      var first := FirstApply(id, at);
      if first {
        Bump(RowKey(sku, "", HourBucket(at)), ZERO.(expired := 1));
      }
    }

    method ApplyReservationRevoked(id: EventId, sku: Sku, at: Time)
      modifies this
      ensures Now() == ApplyFact(old(Now()), Delivery(id, ReservationRevokedFact(sku), at))
    {
      hide HourBucket, Plus, RowOf;
      var first := FirstApply(id, at);
      if first {
        Bump(RowKey(sku, "", HourBucket(at)), ZERO.(revoked := 1));
      }
    }

    method ApplyCycleCountCompleted(id: EventId, bin: BinId, at: Time)
      modifies this
      ensures Now() == ApplyFact(old(Now()), Delivery(id, CycleCountCompletedFact(bin), at))
    {
      hide HourBucket, Plus, RowOf;
      var first := FirstApply(id, at);
      if first {
        Bump(RowKey("", bin, HourBucket(at)), ZERO.(counts := 1));
      }
    }

    method ApplyDiscrepancyDetected(id: EventId, bin: BinId, at: Time)
      modifies this
      ensures Now() == ApplyFact(old(Now()), Delivery(id, DiscrepancyDetectedFact(bin), at))
    {
      hide HourBucket, Plus, RowOf;
      var first := FirstApply(id, at);
      if first {
        Bump(RowKey("", bin, HourBucket(at)), ZERO.(discrepancies := 1));
      }
    }

    method ApplyItemUnlocated(id: EventId, sku: Sku, bin: BinId, at: Time)
      modifies this
      ensures Now() == ApplyFact(old(Now()), Delivery(id, ItemUnlocatedFact(sku, bin), at))
    {
      hide HourBucket, Plus, RowOf;
      var first := FirstApply(id, at);
      if first {
        Bump(RowKey(sku, bin, HourBucket(at)), ZERO.(unlocated := 1));
      }
    }

    /** Route a projecting event to its method; any other type changes nothing. */
    method ApplyEvent(d: Delivery)
      modifies this
      ensures Now() == ApplyFact(old(Now()), d)
    {
      hide ApplyOnce, KeyOf, DeltaOf;
      match d.fact
      case StockReceivedFact(sku, quantity) => ApplyStockReceived(d.id, sku, quantity, d.at);
      case ItemStowedFact(sku, bin) => ApplyItemStowed(d.id, sku, bin, d.at);
      case StockPickedFact(sku, quantity) => ApplyStockPicked(d.id, sku, quantity, d.at);
      case StockReservedFact(sku) => ApplyStockReserved(d.id, sku, d.at);
      case ReservationExpiredFact(sku) => ApplyReservationExpired(d.id, sku, d.at);
      case ReservationRevokedFact(sku) => ApplyReservationRevoked(d.id, sku, d.at);
      case CycleCountCompletedFact(bin) => ApplyCycleCountCompleted(d.id, bin, d.at);
      case DiscrepancyDetectedFact(bin) => ApplyDiscrepancyDetected(d.id, bin, d.at);
      case ItemUnlocatedFact(sku, bin) => ApplyItemUnlocated(d.id, sku, bin, d.at);
      case Other =>
    }

    /** The rows a query selects, in whatever order the map is walked: each exactly once. */
    method RunQuery(q: Query) returns (found: seq<(RowKey, Counters)>)
      ensures forall i :: 0 <= i < |found| ==> found[i].0 in Selected(rows, q) && found[i].1 == rows[found[i].0]
      ensures forall k :: k in Selected(rows, q) ==> exists i :: 0 <= i < |found| && found[i].0 == k
      ensures forall i, j :: 0 <= i < j < |found| ==> found[i].0 != found[j].0
    {
      found := [];
      var rest := rows.Keys;
      while rest != {}
        invariant rest <= rows.Keys
        invariant forall i :: 0 <= i < |found| ==>
          found[i].0 in Selected(rows, q) && found[i].0 !in rest && found[i].1 == rows[found[i].0]
        invariant forall k :: k in Selected(rows, q) && k !in rest ==> exists i :: 0 <= i < |found| && found[i].0 == k
        invariant forall i, j :: 0 <= i < j < |found| ==> found[i].0 != found[j].0
        decreases |rest|
      {
        var k :| k in rest;
        rest := rest - {k};
        if k.hour < q.from || k.hour >= q.to {
          continue;
        }
        if q.sku != "" && k.sku != q.sku {
          continue;
        }
        if q.bin != "" && k.bin != q.bin {
          continue;
        }
        ghost var before := found;
        found := found + [(k, rows[k])];
        assert found[|before|].0 == k;
        forall x | x in Selected(rows, q) && x !in rest ensures exists i :: 0 <= i < |found| && found[i].0 == x {
          if x != k {
            var i :| 0 <= i < |before| && before[i].0 == x;
            assert found[i] == before[i];
          }
        }
      }
    }

    method FreshnessLag(now: Time) returns (lag: int)
      ensures lag == Lag(Now(), now) && lag >= 0
    {
      if latest == 0 {
        return 0;
      }
      lag := now - latest;
      if lag < 0 {
        return 0;
      }
    }
  }

  /** The Postgres writer: one transaction claims the id and adds the increment, or neither happens. */
  class PostgresProjection {
    var processed: set<EventId>
    var rollup: Rows

    constructor ()
      ensures processed == {} && rollup == map[]
    {
      processed, rollup := {}, map[];
    }

    method ApplyDelta(id: EventId, sku: Sku, bin: BinId, at: Time, delta: Counters, commits: bool) returns (ok: bool)
      modifies this
      ensures ok == commits
      ensures var s := Store(old(processed), old(rollup), 0);
        Store(processed, rollup, 0) == if commits then ApplyOnce(s, id, RowKey(sku, bin, HourBucket(at)), delta, 0) else s
    {
      var isNew := id !in processed;
      var staged, stagedRows := processed + {id}, rollup;
      if isNew {
        var k := RowKey(sku, bin, HourBucket(at));
        stagedRows := if k in stagedRows then stagedRows[k := Plus(stagedRows[k], delta)] else stagedRows[k := delta];
        PlusZero(delta);
      } else {
        assert staged == processed;
      }
      if commits {
        processed, rollup := staged, stagedRows;
      }
      return commits;
    }

    /** Every projecting event takes the one path, with its own row and increment. */
    method ApplyEvent(d: Delivery, commits: bool) returns (ok: bool)
      modifies this
      ensures ok == (commits || d.fact.Other?)
      ensures var s := Store(old(processed), old(rollup), 0);
        Store(processed, rollup, 0) == if ok then ApplyFact(s, d).(latest := 0) else s
    {
      hide HourBucket, Plus, RowOf;
      match d.fact
      case StockReceivedFact(sku, quantity) => ok := ApplyDelta(d.id, sku, "", d.at, ZERO.(received := quantity), commits);
      case ItemStowedFact(sku, bin) => ok := ApplyDelta(d.id, sku, bin, d.at, ZERO.(stowed := 1), commits);
      case StockPickedFact(sku, quantity) => ok := ApplyDelta(d.id, sku, "", d.at, ZERO.(picked := quantity), commits);
      case StockReservedFact(sku) => ok := ApplyDelta(d.id, sku, "", d.at, ZERO.(created := 1), commits);
      case ReservationExpiredFact(sku) => ok := ApplyDelta(d.id, sku, "", d.at, ZERO.(expired := 1), commits);
      case ReservationRevokedFact(sku) => ok := ApplyDelta(d.id, sku, "", d.at, ZERO.(revoked := 1), commits);
      case CycleCountCompletedFact(bin) => ok := ApplyDelta(d.id, "", bin, d.at, ZERO.(counts := 1), commits);
      case DiscrepancyDetectedFact(bin) => ok := ApplyDelta(d.id, "", bin, d.at, ZERO.(discrepancies := 1), commits);
      case ItemUnlocatedFact(sku, bin) => ok := ApplyDelta(d.id, sku, bin, d.at, ZERO.(unlocated := 1), commits);
      case Other => ok := true;
    }
  }

  lemma PlusZero(c: Counters)
    ensures Plus(ZERO, c) == c
  {
  }

  /** Both stores, fed the same deliveries, hold the same rows: the replay of those deliveries. */
  method FeedBoth(log: seq<Delivery>) returns (memory: MemoryStore, postgres: PostgresProjection)
    ensures memory.Now() == Replay(log)
    ensures postgres.processed == memory.seen && postgres.rollup == memory.rows
  {
    memory := new MemoryStore();
    postgres := new PostgresProjection();
    var i := 0;
    while i < |log|
      invariant 0 <= i <= |log|
      invariant fresh(memory) && fresh(postgres)
      invariant memory.Now() == Replay(log[..i])
      invariant postgres.processed == memory.seen && postgres.rollup == memory.rows
    {
      assert log[..i + 1][..i] == log[..i];
      memory.ApplyEvent(log[i]);
      var ok := postgres.ApplyEvent(log[i], true);
      i := i + 1;
    }
    assert log[..i] == log;
  }

  // ---- the consumer's gate

  /** How handling one delivery went: the mark failed, the mark stuck but the apply failed, or both succeeded. */
  datatype Handling = MarkFailed | ApplyFailed | Handled

  /** The consumer's own record of processed ids, and the store it feeds. */
  datatype Fed = Fed(processed: set<EventId>, store: Store)

  const UNFED := Fed({}, NEW_STORE)

  /** Mark first, apply after: an apply that fails is not made up for, because the id stays marked. */
  function Handle(f: Fed, d: Delivery, how: Handling): Fed {
    if !Projects(d.fact) || how.MarkFailed? || d.id in f.processed then f
    else Fed(f.processed + {d.id}, if how.Handled? then ApplyFact(f.store, d) else f.store)
  }

  datatype Turn = Turn(d: Delivery, how: Handling)

  function HandleAll(turns: seq<Turn>): Fed {
    if turns == [] then UNFED else Handle(HandleAll(turns[..|turns| - 1]), turns[|turns| - 1].d, turns[|turns| - 1].how)
  }

  /** The first turn whose mark succeeded for an id. */
  function FirstMarked(turns: seq<Turn>, id: EventId): Option<Turn> {
    if turns == [] then None
    else
      var front, last := FirstMarked(turns[..|turns| - 1], id), turns[|turns| - 1];
      if front.Some? then front
      else if last.d.id == id && Projects(last.d.fact) && !last.how.MarkFailed? then Some(last) else None
  }

  /** The deliveries that took effect: each was the first marked for its id, and its apply succeeded. */
  function Effective(turns: seq<Turn>): seq<Delivery> {
    if turns == [] then []
    else
      var last := turns[|turns| - 1];
      Effective(turns[..|turns| - 1]) +
      if Projects(last.d.fact) && FirstMarked(turns[..|turns| - 1], last.d.id).None? && last.how.Handled? then [last.d] else []
  }

  lemma {:induction false} ProcessedAreMarked(turns: seq<Turn>, id: EventId)
    ensures id in HandleAll(turns).processed <==> FirstMarked(turns, id).Some?
  {
    if turns != [] {
      ProcessedAreMarked(turns[..|turns| - 1], id);
    }
  }

  /** The store is the replay of the deliveries that took effect. */
  lemma {:induction false} StoreIsEffective(turns: seq<Turn>)
    ensures HandleAll(turns).store == Replay(Effective(turns))
  {
    if turns != [] {
      var front, last := turns[..|turns| - 1], turns[|turns| - 1];
      StoreIsEffective(front);
      ProcessedAreMarked(front, last.d.id);
      assert (Effective(front) + [last.d])[..|Effective(front)|] == Effective(front);
      assert Effective(front) + [] == Effective(front);
    }
  }

  /**
   At most once under failure: an event's id is in the store if and only if the first delivery that was marked for it
   was also applied. No later delivery makes up for a failed one, none counts twice.
   */
  lemma {:induction false} AppliedIffFirstSucceeds(turns: seq<Turn>, id: EventId)
    ensures id in HandleAll(turns).store.seen <==> FirstMarked(turns, id).Some? && FirstMarked(turns, id).value.how.Handled?
  {
    if turns != [] {
      AppliedIffFirstSucceeds(turns[..|turns| - 1], id);
      ProcessedAreMarked(turns[..|turns| - 1], id);
    }
  }

  /** The losing input: one failed apply, then a redelivery that goes through, and the event is lost for good. */
  lemma FailedThenRedelivered(d: Delivery)
    requires Projects(d.fact)
    ensures var turns := [Turn(d, ApplyFailed), Turn(d, Handled)];
      HandleAll(turns) == Fed({d.id}, NEW_STORE) && Replay([d, d]).seen == {d.id}
  {
    var failed, handled := Turn(d, ApplyFailed), Turn(d, Handled);
    assert [failed, handled][..1] == [failed] && [failed][..0] == [];
    assert HandleAll([failed]) == Handle(UNFED, d, ApplyFailed);
    assert [d, d][..1] == [d] && [d][..0] == [];
    assert Replay([d]) == ApplyFact(NEW_STORE, d);
  }

  /** With no failure at all, the gate changes nothing: the store is the replay of everything delivered. */
  lemma {:induction false} NoFailureNoLoss(turns: seq<Turn>, log: seq<Delivery>)
    requires |log| == |turns| && forall i :: 0 <= i < |turns| ==> turns[i] == Turn(log[i], Handled)
    ensures HandleAll(turns).store == Replay(log) && HandleAll(turns).processed == HandleAll(turns).store.seen
  {
    if turns != [] {
      NoFailureNoLoss(turns[..|turns| - 1], log[..|log| - 1]);
    }
  }

  class AnalyticsConsumer {
    var processed: set<EventId>
    const store: MemoryStore

    constructor (store: MemoryStore)
      ensures processed == {} && this.store == store
    {
      processed := {};
      this.store := store;
    }

    ghost function Now(): Fed
      reads this, store
    {
      Fed(processed, store.Now())
    }

    /**
     Handle one message; how the mark and the apply turn out is up to their databases. A message that does not decode
     as an event is refused and leaves no trace, not even in the processed set.
     */
    method HandleMessage(raw: Option<Delivery>, how: Handling) returns (refused: bool)
      modifies this, store
      ensures refused <==> raw.None?
      ensures Now() == if raw.None? then old(Now()) else Handle(old(Now()), raw.value, how)
    {
      if raw.None? {
        return true;
      }
      var d := raw.value;
      refused := false;
      if !Projects(d.fact) {
        return;
      }
      if how.MarkFailed? {
        return;
      }
      var isNew := d.id !in processed;
      processed := processed + {d.id};
      if !isNew {
        return;
      }
      if how.ApplyFailed? {
        return;
      }
      store.ApplyEvent(d);
    }
  }
}
