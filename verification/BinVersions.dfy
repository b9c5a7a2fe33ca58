/**
 How far committed versions of a bin row advance. A confirmation reads and saves the bin once for each allocation
 picked from it, all within one transaction, so the versions in between are never seen by anyone else.
 */
module BinVersions {
  import opened Shared
  import opened Claims
  import opened Ledger
  import opened Transitions
  import opened Evolution
  import opened Rows
  import opened Requests
  import opened Invariants
  import opened Interleavings
  import opened Theorems

  /** Step m of the run confirms r. */
  ghost predicate ConfirmsAt(trace: seq<System>, m: nat, r: ResId)
    requires m + 1 < |trace|
  {
    Confirmed(trace[m].db.reservations, trace[m + 1].db.reservations, r)
  }

  /** Two of the allocations sit in the bin. */
  predicate Twice(allocs: seq<Allocation>, k: BinId) {
    exists i, j :: 0 <= i < j < |allocs| && allocs[i].bin == k && allocs[j].bin == k
  }

  predicate Once(allocs: seq<Allocation>, k: BinId) {
    exists i :: 0 <= i < |allocs| && allocs[i].bin == k
  }

  lemma TwiceGrows(front: seq<Allocation>, last: Allocation, k: BinId)
    ensures Once(front + [last], k) <==> Once(front, k) || last.bin == k
    ensures Twice(front + [last], k) <==> Twice(front, k) || (last.bin == k && Once(front, k))
  {
    var allocs := front + [last];
    assert forall i :: 0 <= i < |front| ==> allocs[i] == front[i];
    assert allocs[|front|] == last;
    if Twice(front, k) {
      var i, j :| 0 <= i < j < |front| && front[i].bin == k && front[j].bin == k;
      assert allocs[i].bin == k && allocs[j].bin == k;
    } else if last.bin == k && Once(front, k) {
      var i :| 0 <= i < |front| && front[i].bin == k;
      assert allocs[i].bin == k && allocs[|front|].bin == k;
    }
  }

  lemma {:induction false} SavesTwiceIff(allocs: seq<Allocation>, k: BinId)
    ensures SavesOf(allocs, k) >= 1 <==> Once(allocs, k)
    ensures SavesOf(allocs, k) >= 2 <==> Twice(allocs, k)
  {
    hide Once, Twice;
    if allocs == [] {
      NoneOnce(allocs, k);
    } else {
      var front, last := allocs[..|allocs| - 1], allocs[|allocs| - 1];
      SavesTwiceIff(front, k);
      TwiceGrows(front, last, k);
      assert front + [last] == allocs;
    }
  }

  lemma NoneOnce(allocs: seq<Allocation>, k: BinId)
    requires allocs == []
    ensures !Once(allocs, k) && !Twice(allocs, k)
  {
  }

  /**
   One step leaves a bin row alone, or moves it by one (a stow, a registration, a resize), or moves it by the number of
   allocations picked from it in the confirmation it commits. So it skips a version if and only if it confirms a
   reservation with two allocations in the bin.
   */
  lemma BinVersionStep(trace: seq<System>, apart: (Sku, Sku) -> bool, m: nat, k: BinId)
    requires Run(trace, apart) && Symmetric(apart) && m + 1 < |trace| && k in trace[m].db.bins
    ensures k in trace[m + 1].db.bins
    ensures var row, row' := trace[m].db.bins[k], trace[m + 1].db.bins[k];
      && (row'.version == row.version ==> row' == row)
      && (forall r :: ConfirmsAt(trace, m, r) ==>
            row'.version == row.version + SavesOf(trace[m].db.reservations[r].content.allocations, k))
      && ((forall r :: !ConfirmsAt(trace, m, r)) ==> row' == row || row'.version == row.version + 1)
      && (row'.version > row.version + 1 <==>
          exists r :: ConfirmsAt(trace, m, r) && Twice(trace[m].db.reservations[r].content.allocations, k))
  {
    hide Run, Evolves, BooksOf, SavesOf, Twice;
    RunEvolves(trace, apart, m);
    assert BinOn(trace[m].db, trace[m + 1].db, k);
    var t, t' := trace[m].db.reservations, trace[m + 1].db.reservations;
    assert forall r :: Confirmed(t, t', r) ==> ConfirmsAt(trace, m, r);
    forall r | ConfirmsAt(trace, m, r)
      ensures var allocs := trace[m].db.reservations[r].content.allocations; SavesOf(allocs, k) >= 2 <==> Twice(allocs, k)
    {
      SavesTwiceIff(trace[m].db.reservations[r].content.allocations, k);
    }
  }

  /** The saves of a bin that step m commits: those of the confirmation, or one if the row changed. */
  ghost function SavesAt(trace: seq<System>, m: nat, k: BinId): nat
    requires m + 1 < |trace|
  {
    if exists r :: ConfirmsAt(trace, m, r) then
      var r :| ConfirmsAt(trace, m, r);
      SavesOf(trace[m].db.reservations[r].content.allocations, k)
    else if k in trace[m].db.bins && k in trace[m + 1].db.bins && trace[m].db.bins[k] == trace[m + 1].db.bins[k] then 0
    else 1
  }

  ghost function SavesBetween(trace: seq<System>, i: nat, j: nat, k: BinId): nat
    requires i <= j < |trace|
  {
    if i == j then 0 else SavesBetween(trace, i, j - 1, k) + SavesAt(trace, j - 1, k)
  }

  /** Over any stretch of a run a bin row stays, keeps one content per version, and its version counts its saves. */
  lemma {:induction false} BinVersionCounts(trace: seq<System>, apart: (Sku, Sku) -> bool, i: nat, j: nat, k: BinId)
    requires Run(trace, apart) && Symmetric(apart) && i <= j < |trace| && k in trace[i].db.bins
    ensures Seen(trace[j].db.bins, k, trace[i].db.bins[k])
    ensures trace[j].db.bins[k].version == trace[i].db.bins[k].version + SavesBetween(trace, i, j, k)
    decreases j
  {
    hide Run, ConfirmsAt, SavesOf, Twice;
    BinVersionsGrow(trace, apart, i, j, k);
    if i < j {
      BinVersionCounts(trace, apart, i, j - 1, k);
      BinVersionStep(trace, apart, j - 1, k);
    }
  }

  // ---- which versions are ever seen

  /** Version v of the bin is committed by moment j. */
  ghost predicate CommittedBy(trace: seq<System>, j: nat, k: BinId, v: nat)
    requires j < |trace|
  {
    exists i: nat :: i <= j && k in trace[i].db.bins && trace[i].db.bins[k].version == v
  }

  ghost predicate NoneSkipped(trace: seq<System>, j: nat, k: BinId)
    requires j < |trace| && k in trace[j].db.bins
  {
    forall v: nat :: 1 <= v <= trace[j].db.bins[k].version ==> CommittedBy(trace, j, k, v)
  }

  /** No confirmed reservation has two allocations in the bin. */
  ghost predicate PickedSingly(reservations: Table<ResId, ResData>, k: BinId) {
    forall r :: r in reservations && reservations[r].content.status == CONFIRMED ==>
      !Twice(reservations[r].content.allocations, k)
  }

  /**
   The committed versions of a bin are 1, 2, 3 and so on without a gap if and only if no reservation confirmed so far
   had two allocations in that bin.
   */
  lemma BinVersionsSkipIff(trace: seq<System>, apart: (Sku, Sku) -> bool, j: nat, k: BinId)
    requires Run(trace, apart) && Symmetric(apart) && j < |trace| && k in trace[j].db.bins
    ensures NoneSkipped(trace, j, k) <==> PickedSingly(trace[j].db.reservations, k)
  {
    hide Run, NoneSkipped, Twice;
    if PickedSingly(trace[j].db.reservations, k) {
      SinglyPicked(trace, apart, j, k);
    } else {
      var r :| r in trace[j].db.reservations && trace[j].db.reservations[r].content.status == CONFIRMED
               && Twice(trace[j].db.reservations[r].content.allocations, k);
      TwicePicked(trace, apart, j, k, r);
    }
  }

  lemma {:induction false} SinglyPicked(trace: seq<System>, apart: (Sku, Sku) -> bool, j: nat, k: BinId)
    requires Run(trace, apart) && Symmetric(apart) && j < |trace| && k in trace[j].db.bins
    requires PickedSingly(trace[j].db.reservations, k)
    ensures NoneSkipped(trace, j, k)
    decreases j
  {
    hide Run, PickedSingly, NoneSkipped;
    NewBinVersion(trace, apart, j, k);
    if k !in trace[j - 1].db.bins {
      FirstCommitted(trace, j, k);
    } else {
      SingleStep(trace, apart, j - 1, k);
      SinglyPicked(trace, apart, j - 1, k);
      NextCommitted(trace, j, k);
    }
  }

  lemma FirstCommitted(trace: seq<System>, j: nat, k: BinId)
    requires j < |trace| && k in trace[j].db.bins && trace[j].db.bins[k].version == 1
    ensures NoneSkipped(trace, j, k)
  {
    assert CommittedBy(trace, j, k, 1);
  }

  lemma NextCommitted(trace: seq<System>, j: nat, k: BinId)
    requires 0 < j < |trace| && k in trace[j - 1].db.bins && k in trace[j].db.bins
    requires NoneSkipped(trace, j - 1, k) && trace[j].db.bins[k].version <= trace[j - 1].db.bins[k].version + 1
    ensures NoneSkipped(trace, j, k)
  {
    forall v: nat | 1 <= v <= trace[j].db.bins[k].version ensures CommittedBy(trace, j, k, v) {
      assert v <= trace[j - 1].db.bins[k].version ==> CommittedBy(trace, j - 1, k, v);
    }
  }

  lemma NewBinVersion(trace: seq<System>, apart: (Sku, Sku) -> bool, j: nat, k: BinId)
    requires Run(trace, apart) && Symmetric(apart) && j < |trace| && k in trace[j].db.bins
    ensures j > 0 && (k !in trace[j - 1].db.bins ==> trace[j].db.bins[k].version == 1)
  {
    StartsEmpty(trace, apart);
    hide Run, Evolves, BooksOf;
    RunEvolves(trace, apart, j - 1);
  }

  /** A reservation's terms and, once it is CONFIRMED, its status are those of the next moment. */
  lemma TermsStay(trace: seq<System>, apart: (Sku, Sku) -> bool, i: nat, j: nat, r: ResId)
    requires Run(trace, apart) && Symmetric(apart) && i <= j < |trace| && r in trace[i].db.reservations
    ensures r in trace[j].db.reservations
    ensures var before, after := trace[i].db.reservations[r].content, trace[j].db.reservations[r].content;
      after.allocations == before.allocations && (before.status != ACTIVE ==> after == before)
  {
    hide Run, BooksOf;
    ContentAt(trace[i].db);
    ContentAt(trace[j].db);
    ResolvedForGood(trace, apart, i, j, r);
  }

  /** A step into a moment at which the bin was only ever picked singly moves it by one at most. */
  lemma SingleStep(trace: seq<System>, apart: (Sku, Sku) -> bool, m: nat, k: BinId)
    requires Run(trace, apart) && Symmetric(apart) && m + 1 < |trace| && k in trace[m].db.bins
    requires PickedSingly(trace[m + 1].db.reservations, k)
    ensures PickedSingly(trace[m].db.reservations, k)
    ensures k in trace[m + 1].db.bins && trace[m + 1].db.bins[k].version <= trace[m].db.bins[k].version + 1
  {
    hide Run, Twice;
    forall r | r in trace[m].db.reservations
      ensures r in trace[m + 1].db.reservations
      ensures var before, after := trace[m].db.reservations[r].content, trace[m + 1].db.reservations[r].content;
        after.allocations == before.allocations && (before.status != ACTIVE ==> after == before)
    {
      TermsStay(trace, apart, m, m + 1, r);
    }
    BinVersionStep(trace, apart, m, k);
  }

  lemma TwicePicked(trace: seq<System>, apart: (Sku, Sku) -> bool, j: nat, k: BinId, r: ResId)
    requires Run(trace, apart) && Symmetric(apart) && j < |trace| && k in trace[j].db.bins
    requires r in trace[j].db.reservations && trace[j].db.reservations[r].content.status == CONFIRMED
    requires Twice(trace[j].db.reservations[r].content.allocations, k)
    ensures !NoneSkipped(trace, j, k)
  {
    hide Run, Twice;
    var m := ConfirmingStep(trace, apart, j, r);
    BinOfClaim(trace, apart, m, r, k);
    BinVersionStep(trace, apart, m, k);
    var skipped := trace[m].db.bins[k].version + 1;
    BinVersionsGrow(trace, apart, m + 1, j, k);
    forall i: nat | i <= j && k in trace[i].db.bins ensures trace[i].db.bins[k].version != skipped {
      if i <= m {
        BinVersionsGrow(trace, apart, i, m, k);
      } else {
        BinVersionsGrow(trace, apart, m + 1, i, k);
      }
    }
    assert !CommittedBy(trace, j, k, skipped);
  }

  lemma ConfirmingStep(trace: seq<System>, apart: (Sku, Sku) -> bool, j: nat, r: ResId) returns (m: nat)
    requires Run(trace, apart) && Symmetric(apart) && j < |trace|
    requires r in trace[j].db.reservations && trace[j].db.reservations[r].content.status == CONFIRMED
    ensures m < j && ConfirmsAt(trace, m, r)
    ensures trace[m].db.reservations[r].content.allocations == trace[j].db.reservations[r].content.allocations
  {
    hide Run, BooksOf, Resolves;
    ContentAt(trace[j].db);
    m := ResolvingStep(trace, apart, j, r);
    ContentAt(trace[m].db);
    ContentAt(trace[m + 1].db);
    ResolutionFacts(BooksAt(trace, m), r, CONFIRMED, BooksAt(trace, m + 1));
    TermsStay(trace, apart, m, j, r);
  }

  /** A bin that a reservation has an allocation in is registered. */
  lemma BinOfClaim(trace: seq<System>, apart: (Sku, Sku) -> bool, m: nat, r: ResId, k: BinId)
    requires Run(trace, apart) && Symmetric(apart) && m < |trace| && r in trace[m].db.reservations
    requires Twice(trace[m].db.reservations[r].content.allocations, k)
    ensures k in trace[m].db.bins
  {
    hide Run, BooksOf, Covered, Audited, UnitsSound, OnHand;
    ContentAt(trace[m].db);
    LawfulAt(trace, apart, m);
    var b, allocs := BooksAt(trace, m), trace[m].db.reservations[r].content.allocations;
    assert DrawsOn(allocs, b.units, b.reservations[r].sku);
    var i :| 0 <= i < |allocs| && allocs[i].bin == k;
    assert b.units[allocs[i].unit].bin == k;
  }
}
