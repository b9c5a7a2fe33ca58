/**
 The outbox relay: one relay sends committed outbox rows in id order, at least once. Sends may fail, with or without
 the message having arrived, and the relay may crash before it commits what it marked.
 */
module Relay {
  import opened Shared

  /** A committed outbox row; its id is its place in the table. */
  datatype OutboxRow = OutboxRow(published: bool, attempts: nat)

  /** A pass in progress: the claimed rows and how many of them were sent so far, marked but not committed. */
  datatype Batch = Batch(claimed: seq<nat>, sent: nat)

  datatype RelayState = RelayState(rows: seq<OutboxRow>, sink: seq<nat>, pass: Option<Batch>)

  const UNUSED := RelayState([], [], None)

  /** A row may be claimed while unpublished and, when attempts are limited, below the limit. */
  predicate Eligible(row: OutboxRow, maxAttempts: nat) {
    !row.published && (maxAttempts == 0 || row.attempts < maxAttempts)
  }

  /** All eligible rows, in id order. */
  function EligibleIds(rows: seq<OutboxRow>, maxAttempts: nat): (ids: seq<nat>)
    ensures forall i :: i in ids <==> 0 <= i < |rows| && Eligible(rows[i], maxAttempts)
    ensures forall i, j :: 0 <= i < j < |ids| ==> ids[i] < ids[j]
  {
    if rows == [] then []
    else
      var n := |rows| - 1;
      var front := EligibleIds(rows[..n], maxAttempts);
      assert forall k :: 0 <= k < |front| ==> front[k] in front;
      front + if Eligible(rows[n], maxAttempts) then [n] else []
  }

  /** The oldest eligible rows, as many as a batch takes. */
  function Claim(rows: seq<OutboxRow>, batch: nat, maxAttempts: nat): (ids: seq<nat>)
    ensures |ids| <= batch && forall i :: i in ids ==> i < |rows|
    ensures forall i, j :: 0 <= i < j < |ids| ==> ids[i] < ids[j]
  {
    var ids := EligibleIds(rows, maxAttempts);
    assert forall k :: 0 <= k < |ids| ==> ids[k] in ids;
    if |ids| <= batch then ids else ids[..batch]
  }

  /** A pass takes the oldest of the unpublished rows that have attempts left, and all of them if a batch holds them. */
  lemma ClaimsOldest(rows: seq<OutboxRow>, batch: nat, maxAttempts: nat, i: nat)
    requires i < |rows|
    ensures var ids := Claim(rows, batch, maxAttempts);
      && (i in ids ==> !rows[i].published && (maxAttempts == 0 || rows[i].attempts < maxAttempts))
      && (i !in ids && !rows[i].published && (maxAttempts == 0 || rows[i].attempts < maxAttempts) ==>
            |ids| == batch && forall j :: j in ids ==> j < i)
  {
    hide EligibleIds;
    var ids := EligibleIds(rows, maxAttempts);
    if i in ids && |ids| > batch {
      var k :| 0 <= k < |ids| && ids[k] == i;
      assert k < batch ==> ids[..batch][k] == i;
    }
    assert forall j :: j in Claim(rows, batch, maxAttempts) ==> j in ids;
  }

  /** The rows after these were marked published. */
  function Marked(rows: seq<OutboxRow>, ids: seq<nat>): (r: seq<OutboxRow>)
    ensures |r| == |rows|
    ensures forall i :: 0 <= i < |rows| ==> r[i] == if i in ids then rows[i].(published := true) else rows[i]
  {
    seq(|rows|, i requires 0 <= i < |rows| => if i in ids then rows[i].(published := true) else rows[i])
  }

  function Retried(rows: seq<OutboxRow>, id: nat): (r: seq<OutboxRow>)
    requires id < |rows|
    ensures |r| == |rows|
    ensures forall i :: 0 <= i < |rows| ==> r[i] == if i == id then rows[i].(attempts := rows[i].attempts + 1) else rows[i]
  {
    rows[id := rows[id].(attempts := rows[id].attempts + 1)]
  }

  datatype RelayAction =
    | Append                   // a transaction commits one more outbox row
    | Begin                    // claim a batch
    | Sent                     // the sink acknowledged the next claimed row
    | Failed(delivered: bool)  // it did not; the marks so far and the attempt are committed
    | Crash(delivered: bool)   // the pass ends with nothing committed, the next row possibly on its way
    | Finish                   // the whole batch was sent; commit

  /** The state after an action, or None when it is not possible. */
  function Act(s: RelayState, a: RelayAction, batch: nat, maxAttempts: nat): Option<RelayState> {
    match a
    case Append => Some(s.(rows := s.rows + [OutboxRow(false, 0)]))
    case Begin => if s.pass.None? then Some(s.(pass := Some(Batch(Claim(s.rows, batch, maxAttempts), 0)))) else None
    case Sent =>
      if s.pass.None? || s.pass.value.sent >= |s.pass.value.claimed| then None
      else
        var p := s.pass.value;
        Some(s.(sink := s.sink + [p.claimed[p.sent]], pass := Some(p.(sent := p.sent + 1))))
    case Failed(delivered) =>
      if s.pass.None? || s.pass.value.sent >= |s.pass.value.claimed| then None
      else
        var p := s.pass.value;
        if p.claimed[p.sent] >= |s.rows| then None
        else Some(RelayState(Retried(Marked(s.rows, p.claimed[..p.sent]), p.claimed[p.sent]), Arrived(s, delivered), None))
    case Crash(delivered) => if s.pass.None? then None else Some(RelayState(s.rows, Arrived(s, delivered), None))
    case Finish =>
      if s.pass.None? || s.pass.value.sent != |s.pass.value.claimed| then None
      else Some(RelayState(Marked(s.rows, s.pass.value.claimed), s.sink, None))
  }

  /** The sink after the next claimed row arrived, or did not. */
  function Arrived(s: RelayState, delivered: bool): seq<nat>
    requires s.pass.Some?
  {
    var p := s.pass.value;
    if delivered && p.sent < |p.claimed| then s.sink + [p.claimed[p.sent]] else s.sink
  }

  ghost predicate Step(s: RelayState, s': RelayState, batch: nat, maxAttempts: nat) {
    exists a :: Act(s, a, batch, maxAttempts) == Some(s')
  }

  ghost predicate Steps(trace: seq<RelayState>, batch: nat, maxAttempts: nat) {
    trace != [] && forall i :: 0 <= i < |trace| - 1 ==> Step(trace[i], trace[i + 1], batch, maxAttempts)
  }

  ghost predicate Run(trace: seq<RelayState>, batch: nat, maxAttempts: nat) {
    Steps(trace, batch, maxAttempts) && trace[0] == UNUSED
  }

  // ---- order and no loss

  /** A log with repeated deliveries dropped. */
  function First(log: seq<nat>): (f: seq<nat>)
    ensures forall x :: x in f <==> x in log
  {
    if log == [] then []
    else
      var front, last := log[..|log| - 1], log[|log| - 1];
      if last in front then First(front) else First(front) + [last]
  }

  /** The ids in order: 0, 1, 2, ... */
  function UpTo(n: nat): (ids: seq<nat>)
    ensures |ids| == n && forall i :: 0 <= i < n ==> ids[i] == i
  {
    seq(n, i => i)
  }

  /** What consumers see first is the outbox in id order, without a hole, and whatever is marked published has arrived. */
  ghost predicate Faithful(s: RelayState) {
    && |First(s.sink)| <= |s.rows| && First(s.sink) == UpTo(|First(s.sink)|)
    && forall i :: 0 <= i < |s.rows| && s.rows[i].published ==> i in s.sink
  }

  /** Published rows are the first p; a pass works on the rows right after them, which have arrived as far as it got. */
  ghost predicate InOrder(s: RelayState, p: nat) {
    && p <= |First(s.sink)| <= |s.rows| && First(s.sink) == UpTo(|First(s.sink)|)
    && (forall i :: 0 <= i < |s.rows| ==> (s.rows[i].published <==> i < p))
    && (s.pass.Some? ==>
          var c := s.pass.value.claimed;
          && s.pass.value.sent <= |c| && p + |c| <= |s.rows| && p + s.pass.value.sent <= |First(s.sink)|
          && forall i :: 0 <= i < |c| ==> c[i] == p + i)
  }

  lemma FirstOnUpTo(log: seq<nat>, x: nat)
    requires First(log) == UpTo(|First(log)|) && x <= |First(log)|
    ensures First(log + [x]) == UpTo(|First(log + [x])|)
    ensures x < |First(log + [x])| <= |First(log)| + if x < |First(log)| then 0 else 1
  {
    assert (log + [x])[..|log|] == log;
    assert x < |First(log)| ==> UpTo(|First(log)|)[x] == x;
  }

  /** With unlimited attempts the eligible rows are all unpublished ones: right after the published prefix, no gaps. */
  lemma {:induction false} EligibleFrom(rows: seq<OutboxRow>, p: nat)
    requires p <= |rows| && forall i :: 0 <= i < |rows| ==> (rows[i].published <==> i < p)
    ensures |EligibleIds(rows, 0)| == |rows| - p
    ensures forall i :: 0 <= i < |rows| - p ==> EligibleIds(rows, 0)[i] == p + i
  {
    if |rows| > p {
      EligibleFrom(rows[..|rows| - 1], p);
    } else {
      NoneEligible(rows, 0);
    }
  }

  lemma {:induction false} NoneEligible(rows: seq<OutboxRow>, maxAttempts: nat)
    requires forall i :: 0 <= i < |rows| ==> !Eligible(rows[i], maxAttempts)
    ensures EligibleIds(rows, maxAttempts) == []
  {
    if rows != [] {
      NoneEligible(rows[..|rows| - 1], maxAttempts);
    }
  }

  /** How far the published prefix reaches after an action. */
  function Reach(s: RelayState, a: RelayAction, p: nat): nat {
    if s.pass.Some? && (a.Failed? || a.Finish?) then p + s.pass.value.sent else p
  }

  lemma ActInOrder(s: RelayState, a: RelayAction, batch: nat, p: nat)
    requires InOrder(s, p) && Act(s, a, batch, 0).Some?
    ensures InOrder(Act(s, a, batch, 0).value, Reach(s, a, p))
  {
    hide First, UpTo, Marked, Retried, EligibleIds;
    match a
    case Append =>
    case Begin => EligibleFrom(s.rows, p);
    case Sent => FirstOnUpTo(s.sink, s.pass.value.claimed[s.pass.value.sent]);
    case Failed(delivered) => EndInOrder(s, delivered, p);
    case Crash(delivered) => EndInOrder(s, delivered, p);
    case Finish => MarkedInOrder(s.rows, s.pass.value.claimed, s.pass.value.sent, p);
  }

  lemma MarkedInOrder(rows: seq<OutboxRow>, c: seq<nat>, n: nat, p: nat)
    requires n <= |c| && (forall i :: 0 <= i < |c| ==> c[i] == p + i) && p + |c| <= |rows|
    requires forall i :: 0 <= i < |rows| ==> (rows[i].published <==> i < p)
    ensures forall i :: 0 <= i < |rows| ==> (Marked(rows, c[..n])[i].published <==> i < p + n)
    ensures n == |c| ==> c[..n] == c
  {
    forall i | 0 <= i < |rows| ensures i in c[..n] <==> p <= i < p + n {
      if p <= i < p + n {
        assert c[..n][i - p] == i;
      }
    }
  }

  lemma EndInOrder(s: RelayState, delivered: bool, p: nat)
    requires InOrder(s, p) && s.pass.Some?
    ensures InOrder(RelayState(s.rows, Arrived(s, delivered), None), p)
    ensures var q := s.pass.value;
      q.sent < |q.claimed| ==>
        InOrder(RelayState(Retried(Marked(s.rows, q.claimed[..q.sent]), q.claimed[q.sent]), Arrived(s, delivered), None),
                p + q.sent)
  {
    var q := s.pass.value;
    if q.sent < |q.claimed| {
      FirstOnUpTo(s.sink, q.claimed[q.sent]);
      MarkedInOrder(s.rows, q.claimed, q.sent, p);
    }
  }

  lemma {:induction false} StepsInOrder(trace: seq<RelayState>, batch: nat, p: nat, i: nat)
    requires Steps(trace, batch, 0) && InOrder(trace[0], p) && i < |trace|
    ensures exists q :: p <= q && InOrder(trace[i], q)
  {
    if i > 0 {
      hide InOrder;
      StepsInOrder(trace, batch, p, i - 1);
      var q :| p <= q && InOrder(trace[i - 1], q);
      assert Step(trace[i - 1], trace[i - 1 + 1], batch, 0);
      var a :| Act(trace[i - 1], a, batch, 0) == Some(trace[i]);
      ActInOrder(trace[i - 1], a, batch, q);
      assert p <= Reach(trace[i - 1], a, q);
    }
  }

  /** With unlimited attempts, in every run of one relay: order kept, nothing lost, whatever fails or crashes. */
  lemma RelayIsFaithful(trace: seq<RelayState>, batch: nat, i: nat)
    requires Run(trace, batch, 0) && i < |trace|
    ensures Faithful(trace[i])
  {
    assert InOrder(UNUSED, 0);
    StepsInOrder(trace, batch, 0, i);
    var q :| 0 <= q && InOrder(trace[i], q);
    forall x | 0 <= x < q ensures x in trace[i].sink {
      assert UpTo(|First(trace[i].sink)|)[x] == x;
    }
  }

  /** Once nothing is left to send, every row has arrived. */
  lemma DrainedIsComplete(trace: seq<RelayState>, batch: nat, i: nat)
    requires Run(trace, batch, 0) && i < |trace| && EligibleIds(trace[i].rows, 0) == []
    ensures |First(trace[i].sink)| == |trace[i].rows|
  {
    hide Run, EligibleIds, First, UpTo;
    RelayIsFaithful(trace, batch, i);
    var s := trace[i];
    if |s.rows| > 0 {
      assert |s.rows| - 1 !in EligibleIds(s.rows, 0);
      assert |s.rows| - 1 in First(s.sink);
    }
  }

  // ---- limited attempts give up on order

  /** Row 0 after n failed passes, nothing delivered. */
  function Stalled(n: nat): RelayState {
    RelayState([OutboxRow(false, n), OutboxRow(false, 0)], [], None)
  }

  lemma EligibleOfTwo(a: OutboxRow, b: OutboxRow, maxAttempts: nat)
    ensures EligibleIds([a, b], maxAttempts) ==
            (if Eligible(a, maxAttempts) then [0] else []) + (if Eligible(b, maxAttempts) then [1] else [])
  {
    assert [a, b][..1] == [a] && [a][..0] == [];
    assert EligibleIds([a], maxAttempts) == if Eligible(a, maxAttempts) then [0] else [];
  }

  lemma StalledPass(n: nat, maxAttempts: nat)
    requires n < maxAttempts
    ensures var claimed := Stalled(n).(pass := Some(Batch([0, 1], 0)));
      && Act(Stalled(n), Begin, 2, maxAttempts) == Some(claimed)
      && Act(claimed, Failed(false), 2, maxAttempts) == Some(Stalled(n + 1))
  {
    EligibleOfTwo(OutboxRow(false, n), OutboxRow(false, 0), maxAttempts);
    hide EligibleIds, Marked, Retried;
    assert Claim(Stalled(n).rows, 2, maxAttempts) == [0, 1] && [0, 1][..0] == [];
    assert Retried(Marked(Stalled(n).rows, []), 0) == Stalled(n + 1).rows;
  }

  lemma {:induction false} ReachStalled(n: nat, maxAttempts: nat) returns (trace: seq<RelayState>)
    requires n <= maxAttempts && maxAttempts > 0
    ensures Run(trace, 2, maxAttempts) && trace[|trace| - 1] == Stalled(n)
  {
    if n == 0 {
      var one := RelayState([OutboxRow(false, 0)], [], None);
      assert UNUSED.rows + [OutboxRow(false, 0)] == one.rows && one.rows + [OutboxRow(false, 0)] == Stalled(0).rows;
      assert Act(UNUSED, Append, 2, maxAttempts) == Some(one);
      assert Act(one, Append, 2, maxAttempts) == Some(Stalled(0));
      trace := [UNUSED, one, Stalled(0)];
    } else {
      var before := ReachStalled(n - 1, maxAttempts);
      StalledPass(n - 1, maxAttempts);
      trace := Extend(before, Begin, 2, maxAttempts);
      trace := Extend(trace, Failed(false), 2, maxAttempts);
    }
  }

  lemma Extend(trace: seq<RelayState>, a: RelayAction, batch: nat, maxAttempts: nat) returns (longer: seq<RelayState>)
    requires Run(trace, batch, maxAttempts) && Act(trace[|trace| - 1], a, batch, maxAttempts).Some?
    ensures Run(longer, batch, maxAttempts)
    ensures longer == trace + [Act(trace[|trace| - 1], a, batch, maxAttempts).value]
  {
    longer := trace + [Act(trace[|trace| - 1], a, batch, maxAttempts).value];
    forall i | 0 <= i < |longer| - 1 ensures Step(longer[i], longer[i + 1], batch, maxAttempts) {
      if i < |trace| - 1 {
        assert Step(trace[i], trace[i + 1], batch, maxAttempts);
      }
    }
  }

  /** A run in which row 0 has used up its attempts and row 1 goes out ahead of it. */
  lemma Overtakes(maxAttempts: nat) returns (trace: seq<RelayState>)
    requires maxAttempts > 0
    ensures Run(trace, 2, maxAttempts) && !Faithful(trace[|trace| - 1])
  {
    hide Run, Act, Faithful;
    trace := ReachStalled(maxAttempts, maxAttempts);
    PassesOver(maxAttempts);
    var begun := Stalled(maxAttempts).(pass := Some(Batch([1], 0)));
    trace := Extend(trace, Begin, 2, maxAttempts);
    trace := Extend(trace, Sent, 2, maxAttempts);
    OutOfOrder(begun.(sink := [1], pass := Some(Batch([1], 1))));
  }

  /** With row 0 out of attempts, a pass claims and sends row 1 alone. */
  lemma PassesOver(maxAttempts: nat)
    requires maxAttempts > 0
    ensures var begun := Stalled(maxAttempts).(pass := Some(Batch([1], 0)));
      && Act(Stalled(maxAttempts), Begin, 2, maxAttempts) == Some(begun)
      && Act(begun, Sent, 2, maxAttempts) == Some(begun.(sink := [1], pass := Some(Batch([1], 1))))
  {
    hide Claim;
    ClaimsSecond(maxAttempts);
    assert [] + [1] == [1];
  }

  lemma ClaimsSecond(maxAttempts: nat)
    requires maxAttempts > 0
    ensures Claim(Stalled(maxAttempts).rows, 2, maxAttempts) == [1]
  {
    hide EligibleIds;
    EligibleOfTwo(OutboxRow(false, maxAttempts), OutboxRow(false, 0), maxAttempts);
  }

  lemma OutOfOrder(s: RelayState)
    requires s.sink == [1]
    ensures !Faithful(s)
  {
    assert [1][..0] == [];
    assert First([1]) == [1] && UpTo(1)[0] == 0;
  }

  /** Order and no loss hold over all runs if and only if attempts are unlimited. */
  lemma FaithfulIffUnlimited(maxAttempts: nat)
    ensures (forall trace, batch, i :: Run(trace, batch, maxAttempts) && 0 <= i < |trace| ==> Faithful(trace[i]))
            <==> maxAttempts == 0
  {
    if maxAttempts == 0 {
      forall trace, batch: nat, i | Run(trace, batch, 0) && 0 <= i < |trace| ensures Faithful(trace[i]) {
        RelayIsFaithful(trace, batch, i);
      }
    } else {
      hide Run, Faithful;
      var trace := Overtakes(maxAttempts);
      assert !Faithful(trace[|trace| - 1]);
    }
  }

  // ---- the pass itself

  /** Strictly increasing lists with the same elements are the same list. */
  lemma {:induction false} IncreasingUnique(s: seq<nat>, t: seq<nat>)
    requires forall i, j :: 0 <= i < j < |s| ==> s[i] < s[j]
    requires forall i, j :: 0 <= i < j < |t| ==> t[i] < t[j]
    requires forall x :: x in s <==> x in t
    ensures s == t
    decreases |s|
  {
    assert (|t| > 0 ==> t[0] in t) && (|s| > 0 ==> s[0] in s);
    if s != [] {
      assert s[|s| - 1] in t;
      var front, front' := s[..|s| - 1], t[..|t| - 1];
      assert s[|s| - 1] == t[|t| - 1] by {
        assert t[|t| - 1] in s;
      }
      forall x ensures x in front <==> x in front' {
        assert x in front ==> x in s && x != s[|s| - 1];
        assert x in front' ==> x in t && x != t[|t| - 1];
      }
      IncreasingUnique(front, front');
    }
  }

  /** Publishing the claimed batch leaves exactly the eligible rows after it. */
  lemma ClaimedAreDone(rows: seq<OutboxRow>, batch: nat, maxAttempts: nat)
    ensures var ids, claimed := EligibleIds(rows, maxAttempts), Claim(rows, batch, maxAttempts);
      && |claimed| <= |ids| && claimed == ids[..|claimed|] && (|claimed| < batch ==> claimed == ids)
      && EligibleIds(Marked(rows, claimed), maxAttempts) == ids[|claimed|..]
  {
    hide EligibleIds, Marked;
    var ids, claimed := EligibleIds(rows, maxAttempts), Claim(rows, batch, maxAttempts);
    MarkedAreDone(rows, ids, |claimed|, maxAttempts);
    assert claimed == ids[..|claimed|];
  }

  lemma MarkedAreDone(rows: seq<OutboxRow>, ids: seq<nat>, n: nat, maxAttempts: nat)
    requires ids == EligibleIds(rows, maxAttempts) && n <= |ids|
    ensures EligibleIds(Marked(rows, ids[..n]), maxAttempts) == ids[n..]
  {
    var claimed, rest, left := ids[..n], ids[n..], EligibleIds(Marked(rows, ids[..n]), maxAttempts);
    hide EligibleIds, Marked;
    SplitIncreasing(ids, n);
    forall x ensures x in left <==> x in rest {
      assert x in left <==> 0 <= x < |rows| && Eligible(Marked(rows, claimed)[x], maxAttempts);
      assert x in ids <==> 0 <= x < |rows| && Eligible(rows[x], maxAttempts);
    }
    IncreasingUnique(left, rest);
  }

  lemma SplitIncreasing(ids: seq<nat>, n: nat)
    requires n <= |ids| && forall i, j :: 0 <= i < j < |ids| ==> ids[i] < ids[j]
    ensures forall x :: x in ids[n..] <==> x in ids && x !in ids[..n]
  {
    forall x | x in ids[n..] ensures x in ids && x !in ids[..n] {
      var j :| 0 <= j < |ids| - n && ids[n..][j] == x;
      assert ids[n + j] == x;
    }
    assert ids == ids[..n] + ids[n..];
  }

  ghost predicate Reaches(s: RelayState, s': RelayState, batch: nat, maxAttempts: nat) {
    exists trace :: Steps(trace, batch, maxAttempts) && trace[0] == s && trace[|trace| - 1] == s'
  }

  lemma StepOn(s: RelayState, t: RelayState, a: RelayAction, batch: nat, maxAttempts: nat)
    requires Reaches(s, t, batch, maxAttempts) && Act(t, a, batch, maxAttempts).Some?
    ensures Reaches(s, Act(t, a, batch, maxAttempts).value, batch, maxAttempts)
  {
    var trace :| Steps(trace, batch, maxAttempts) && trace[0] == s && trace[|trace| - 1] == t;
    var longer := trace + [Act(t, a, batch, maxAttempts).value];
    forall i | 0 <= i < |longer| - 1 ensures Step(longer[i], longer[i + 1], batch, maxAttempts) {
      if i < |trace| - 1 {
        assert Step(trace[i], trace[i + 1], batch, maxAttempts);
      }
    }
    assert longer[|longer| - 1] == Act(t, a, batch, maxAttempts).value;
  }

  lemma StartHere(s: RelayState, batch: nat, maxAttempts: nat)
    ensures Reaches(s, s, batch, maxAttempts)
  {
    assert Steps([s], batch, maxAttempts);
  }

  /** What became of one send. */
  datatype SendResult = Acknowledged | Refused(delivered: bool)

  /**
   What a pass over the claimed rows leaves behind: the first n were acknowledged and the next one, if any, was not. Those
   n are published and no other, the failed one has one attempt more, and nothing else in the table changed, or nothing
   at all if the commit failed. The sink has the n rows and perhaps the failed one.
   */
  ghost predicate Sends(s: RelayState, claimed: seq<nat>, n: nat, sends: seq<SendResult>, commits: bool, s': RelayState) {
    && n <= |claimed| && n <= |sends| && (forall i :: 0 <= i < n ==> sends[i] == Acknowledged)
    && (n < |claimed| ==> n < |sends| && sends[n].Refused?)
    && s'.sink == s.sink + claimed[..n] + (if n < |claimed| && sends[n].delivered then [claimed[n]] else [])
    && |s'.rows| == |s.rows|
    && forall i :: 0 <= i < |s.rows| ==>
         if !commits then s'.rows[i] == s.rows[i]
         else
           && (s'.rows[i].published <==> s.rows[i].published || i in claimed[..n])
           && s'.rows[i].attempts == s.rows[i].attempts + if n < |claimed| && i == claimed[n] then 1 else 0
  }

  /** The relay over its table and its sink; how sends and the commit turn out is up to the environment. */
  class OutboxRelay {
    const batchSize: nat
    const maxAttempts: nat
    var rows: seq<OutboxRow>
    var sink: seq<nat>

    function Between(): RelayState
      reads this
    {
      RelayState(rows, sink, None)
    }

    constructor (batchSize: nat, maxAttempts: nat)
      ensures Between() == UNUSED && this.batchSize == batchSize && this.maxAttempts == maxAttempts
    {
      this.batchSize, this.maxAttempts := batchSize, maxAttempts;
      rows, sink := [], [];
    }

    /** Select the oldest eligible rows, up to a batch. */
    method ClaimBatch() returns (claimed: seq<nat>)
      ensures claimed == Claim(rows, batchSize, maxAttempts)
    {
      hide EligibleIds, Eligible;
      claimed := [];
      var i := 0;
      EligibleNone(rows, maxAttempts);
      while i < |rows| && |claimed| < batchSize
        invariant 0 <= i <= |rows| && |claimed| <= batchSize
        invariant claimed == EligibleIds(rows[..i], maxAttempts)
      {
        EligibleNext(rows, i, maxAttempts);
        if Eligible(rows[i], maxAttempts) {
          claimed := claimed + [i];
        }
        i := i + 1;
      }
      EligiblePrefix(rows, i, maxAttempts);
    }

    /**
     One claim-and-send pass: rows go out one at a time in id order, and the first failure ends the pass. Whatever
     happens, the pass is a sequence of steps of the relay; when every send and the commit succeed, exactly the
     claimed rows were sent and are published.
     */
    method RelayOnce(sends: seq<SendResult>, commits: bool) returns (published: nat, full: bool, ok: bool)
      requires |sends| >= batchSize
      modifies this
      ensures Reaches(old(Between()), Between(), batchSize, maxAttempts)
      ensures var claimed := Claim(old(rows), batchSize, maxAttempts);
        && published <= |claimed|
        && (full ==> ok && published == batchSize)
        && (ok <==> claimed == [] || (commits && forall i :: 0 <= i < |claimed| ==> sends[i] == Acknowledged))
        && (ok ==> published == |claimed| && (full <==> |claimed| == batchSize && claimed != [])
                   && rows == Marked(old(rows), claimed) && sink == old(sink) + claimed)
        && (!commits ==> rows == old(rows))
      ensures Sends(old(Between()), Claim(old(rows), batchSize, maxAttempts), published, sends, commits, Between())
    {
      hide Claim, Act, Marked, Retried, Reaches;
      ghost var start := Between();
      var claimed := ClaimBatch();
      if claimed == [] {
        NothingMarked(rows);
        StartHere(start, batchSize, maxAttempts);
        assert old(sink) + [] == old(sink);
        return 0, false, true;
      }
      BeginsPass(start, batchSize, maxAttempts);
      var staged := rows;
      NothingMarked(rows);
      published := 0;
      while published < |claimed|
        invariant 0 <= published <= |claimed|
        invariant rows == old(rows) && sink == old(sink) + claimed[..published]
        invariant staged == Marked(rows, claimed[..published])
        invariant forall i :: 0 <= i < published ==> sends[i] == Acknowledged
        invariant Reaches(start, RelayState(rows, sink, Some(Batch(claimed, published))), batchSize, maxAttempts)
      {
        var id := claimed[published];
        assert id in claimed;
        ghost var now := RelayState(rows, sink, Some(Batch(claimed, published)));
        if sends[published].Refused? {
          EndsPass(start, now, sends[published].delivered, batchSize, maxAttempts);
          if sends[published].delivered {
            sink := sink + [id];
          }
          if commits {
            rows := Retried(staged, id);
          }
          return published, false, false;
        }
        SendsOne(start, now, batchSize, maxAttempts);
        MarkedOneMore(rows, claimed, published);
        assert claimed[..published + 1] == claimed[..published] + [id];
        sink := sink + [id];
        staged := staged[id := staged[id].(published := true)];
        published := published + 1;
      }
      assert claimed[..published] == claimed;
      AllSent(start, RelayState(rows, sink, Some(Batch(claimed, published))), batchSize, maxAttempts);
      if !commits {
        return published, false, false;
      }
      rows := staged;
      return published, published == batchSize, true;
    }

    /** With a working sink, full batches are followed at once by the next pass, until nothing eligible is left. */
    method Drain()
      requires batchSize > 0
      modifies this
      ensures EligibleIds(rows, maxAttempts) == []
      ensures Reaches(old(Between()), Between(), batchSize, maxAttempts)
      ensures sink == old(sink) + EligibleIds(old(rows), maxAttempts)
    {
      hide EligibleIds, Marked, Reaches, Sends, Claim;
      StartHere(Between(), batchSize, maxAttempts);
      ghost var todo := EligibleIds(rows, maxAttempts);
      ghost var sent: nat := 0;
      var full := true;
      while full
        invariant sent <= |todo| && EligibleIds(rows, maxAttempts) == todo[sent..]
        invariant sink == old(sink) + todo[..sent]
        invariant !full ==> EligibleIds(rows, maxAttempts) == []
        invariant Reaches(old(Between()), Between(), batchSize, maxAttempts)
        decreases |EligibleIds(rows, maxAttempts)|, full
      {
        ClaimedAreDone(rows, batchSize, maxAttempts);
        ghost var claimed, middle := Claim(rows, batchSize, maxAttempts), Between();
        var sends := seq(batchSize, _ => Acknowledged);
        var published, ok;
        published, full, ok := RelayOnce(sends, true);
        ReachesOn(old(Between()), middle, Between(), batchSize, maxAttempts);
        TakesMore(todo, sent, |claimed|);
        sent := sent + |claimed|;
      }
      assert todo[sent..] == [] ==> todo[..sent] == todo;
    }
  }

  lemma TakesMore(todo: seq<nat>, sent: nat, n: nat)
    requires sent + n <= |todo|
    ensures todo[..sent + n] == todo[..sent] + todo[sent..][..n] && todo[sent..][n..] == todo[sent + n..]
  {
  }

  lemma NothingMarked(rows: seq<OutboxRow>)
    ensures Marked(rows, []) == rows
  {
  }

  lemma MarkedOneMore(rows: seq<OutboxRow>, ids: seq<nat>, n: nat)
    requires n < |ids| && ids[n] < |rows|
    ensures var before := Marked(rows, ids[..n]);
      Marked(rows, ids[..n + 1]) == before[ids[n] := before[ids[n]].(published := true)]
  {
    assert ids[..n + 1] == ids[..n] + [ids[n]];
  }

  lemma EligibleNone(rows: seq<OutboxRow>, maxAttempts: nat)
    ensures EligibleIds(rows[..0], maxAttempts) == []
  {
  }

  lemma EligibleNext(rows: seq<OutboxRow>, n: nat, maxAttempts: nat)
    requires n < |rows|
    ensures EligibleIds(rows[..n + 1], maxAttempts) ==
            EligibleIds(rows[..n], maxAttempts) + if Eligible(rows[n], maxAttempts) then [n] else []
  {
    assert rows[..n + 1][..n] == rows[..n];
  }

  lemma {:induction false} EligiblePrefix(rows: seq<OutboxRow>, n: nat, maxAttempts: nat)
    requires n <= |rows|
    ensures EligibleIds(rows[..n], maxAttempts) <= EligibleIds(rows, maxAttempts)
    ensures n == |rows| ==> EligibleIds(rows[..n], maxAttempts) == EligibleIds(rows, maxAttempts)
    decreases |rows|
  {
    if n < |rows| {
      assert rows[..|rows| - 1][..n] == rows[..n];
      EligiblePrefix(rows[..|rows| - 1], n, maxAttempts);
    } else {
      assert rows[..n] == rows;
    }
  }

  lemma BeginsPass(s: RelayState, batch: nat, maxAttempts: nat)
    requires s.pass.None?
    ensures Reaches(s, s.(pass := Some(Batch(Claim(s.rows, batch, maxAttempts), 0))), batch, maxAttempts)
  {
    StartHere(s, batch, maxAttempts);
    StepOn(s, s, Begin, batch, maxAttempts);
  }

  lemma SendsOne(s: RelayState, t: RelayState, batch: nat, maxAttempts: nat)
    requires Reaches(s, t, batch, maxAttempts) && t.pass.Some? && t.pass.value.sent < |t.pass.value.claimed|
    ensures var p := t.pass.value;
      Reaches(s, t.(sink := t.sink + [p.claimed[p.sent]], pass := Some(p.(sent := p.sent + 1))), batch, maxAttempts)
  {
    StepOn(s, t, Sent, batch, maxAttempts);
  }

  lemma EndsPass(s: RelayState, t: RelayState, delivered: bool, batch: nat, maxAttempts: nat)
    requires Reaches(s, t, batch, maxAttempts) && t.pass.Some? && t.pass.value.sent < |t.pass.value.claimed|
    requires t.pass.value.claimed[t.pass.value.sent] < |t.rows|
    ensures var p := t.pass.value;
      var sink := if delivered then t.sink + [p.claimed[p.sent]] else t.sink;
      && Reaches(s, RelayState(Retried(Marked(t.rows, p.claimed[..p.sent]), p.claimed[p.sent]), sink, None), batch, maxAttempts)
      && Reaches(s, RelayState(t.rows, sink, None), batch, maxAttempts)
  {
    StepOn(s, t, Failed(delivered), batch, maxAttempts);
    StepOn(s, t, Crash(delivered), batch, maxAttempts);
  }

  lemma AllSent(s: RelayState, t: RelayState, batch: nat, maxAttempts: nat)
    requires Reaches(s, t, batch, maxAttempts) && t.pass.Some? && t.pass.value.sent == |t.pass.value.claimed|
    ensures Reaches(s, RelayState(Marked(t.rows, t.pass.value.claimed), t.sink, None), batch, maxAttempts)
    ensures Reaches(s, RelayState(t.rows, t.sink, None), batch, maxAttempts)
  {
    StepOn(s, t, Finish, batch, maxAttempts);
    StepOn(s, t, Crash(false), batch, maxAttempts);
  }

  lemma ReachesOn(s: RelayState, t: RelayState, u: RelayState, batch: nat, maxAttempts: nat)
    requires Reaches(s, t, batch, maxAttempts) && Reaches(t, u, batch, maxAttempts)
    ensures Reaches(s, u, batch, maxAttempts)
  {
    var first :| Steps(first, batch, maxAttempts) && first[0] == s && first[|first| - 1] == t;
    var second :| Steps(second, batch, maxAttempts) && second[0] == t && second[|second| - 1] == u;
    var both := first + second[1..];
    forall i | 0 <= i < |both| - 1 ensures Step(both[i], both[i + 1], batch, maxAttempts) {
      if i < |first| - 1 {
        assert Step(first[i], first[i + 1], batch, maxAttempts);
      } else {
        var j := i - (|first| - 1);
        assert Step(second[j], second[j + 1], batch, maxAttempts);
      }
    }
    assert both[|both| - 1] == u;
  }

  /** What a pass or a drain reaches from a state of a run is again a state of a run. */
  lemma ReachedByRun(trace: seq<RelayState>, batch: nat, maxAttempts: nat, s: RelayState) returns (longer: seq<RelayState>)
    requires Run(trace, batch, maxAttempts) && Reaches(trace[|trace| - 1], s, batch, maxAttempts)
    ensures Run(longer, batch, maxAttempts) && longer[|longer| - 1] == s
  {
    ReachesOn(UNUSED, trace[|trace| - 1], s, batch, maxAttempts) by {
      assert Steps(trace, batch, maxAttempts);
    }
    longer :| Steps(longer, batch, maxAttempts) && longer[0] == UNUSED && longer[|longer| - 1] == s;
  }
}
