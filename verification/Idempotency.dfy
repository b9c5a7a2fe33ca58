/**
 The Idempotency-Key middleware: the key row, the handler's writes and the recorded response share one transaction,
 and the unique index makes a second request with the key wait until that transaction has ended. A body stands for its
 own hash.
 */
module Idempotency {
  import opened Shared

  type Key = string
  type Body = string

  datatype Response = Response(status: nat, body: string)

  /** A committed key row: the request it was inserted for, and the outcome recorded for it, if any. */
  datatype Entry = Entry(owner: nat, body: Body, response: Option<Response>)

  datatype Phase =
    | Arrived
    | Fresh                         // its INSERT affected a row: it holds the key
    | Handled(response: Response)   // the wrapped handler returned; its writes are staged
    | Recorded(response: Response)  // the outcome is staged in the key row
    | Replaying                     // its INSERT affected no row
    | Done(reply: Reply)

  datatype Reply = Answered(response: Response) | KeyReused | Broken | Panicked | Refused

  datatype Request = Request(key: Key, body: Body, phase: Phase) {
    /** An uncommitted key row is held in these phases. */
    predicate Holds() {
      phase.Fresh? || phase.Handled? || phase.Recorded?
    }
  }

  /** Committed key rows, the requests whose handler writes have been committed, and everyone who has asked. */
  datatype System = System(keys: map<Key, Entry>, ran: seq<nat>, requests: map<nat, Request>)

  const EMPTY := System(map[], [], map[])

  datatype Action =
    | Arrive(id: nat, key: Key, body: Body)
    | Insert(id: nat)
    | Handle(id: nat, response: Response)
    | Panic(id: nat)
    | Record(id: nat)
    | Commit(id: nat)
    | Break(id: nat)  // a failed begin, statement, commit or read: an open transaction is rolled back
    | Replay(id: nat)

  function To(s: System, id: nat, phase: Phase): System
    requires id in s.requests
  {
    s.(requests := s.requests[id := s.requests[id].(phase := phase)])
  }

  /** Someone holds the key's uncommitted row. */
  ghost predicate Held(s: System, key: Key) {
    exists q :: q in s.requests && s.requests[q].key == key && s.requests[q].Holds()
  }

  /** The reply read from a committed row: a different body is refused, a missing outcome is an internal error. */
  function ReplyFrom(entry: Entry, body: Body): Reply {
    if entry.body != body then KeyReused
    else if entry.response.None? then Broken
    else Answered(entry.response.value)
  }

  /** The reply to a request that found the key taken. */
  function Replayed(s: System, id: nat): Reply
    requires id in s.requests
  {
    var q := s.requests[id];
    if q.key in s.keys then ReplyFrom(s.keys[q.key], q.body) else Broken
  }

  /** The system after an action, or None when it is not possible. */
  ghost function Act(s: System, a: Action): Option<System> {
    if a.Arrive? then
      if a.id in s.requests || a.key == "" then None
      else Some(s.(requests := s.requests[a.id := Request(a.key, a.body, Arrived)]))
    else if a.id !in s.requests then None
    else
      var q := s.requests[a.id];
      match a
      case Insert(id) =>
        if !q.phase.Arrived? || Held(s, q.key) then None
        else Some(To(s, id, if q.key in s.keys then Replaying else Fresh))
      case Handle(id, response) => if q.phase.Fresh? then Some(To(s, id, Handled(response))) else None
      case Panic(id) => if q.phase.Fresh? then Some(To(s, id, Done(Panicked))) else None
      case Record(id) => if q.phase.Handled? then Some(To(s, id, Recorded(q.phase.response))) else None
      case Commit(id) =>
        if !q.phase.Recorded? then None
        else Some(To(s, id, Done(Answered(q.phase.response)))
                  .(keys := s.keys[q.key := Entry(id, q.body, Some(q.phase.response))], ran := s.ran + [id]))
      case Break(id) => if q.phase.Fresh? || q.phase.Done? then None else Some(To(s, id, Done(Broken)))
      case Replay(id) => if q.phase.Replaying? then Some(To(s, id, Done(Replayed(s, id)))) else None
  }

  ghost predicate Step(s: System, s': System) {
    exists a :: Act(s, a) == Some(s')
  }

  ghost predicate Run(trace: seq<System>) {
    trace != [] && trace[0] == EMPTY && forall i :: 0 <= i < |trace| - 1 ==> Step(trace[i], trace[i + 1])
  }

  // ---- what every step keeps

  /** Whoever finished with this reply, or is about to replay, agrees with the committed rows. */
  ghost predicate Agrees(s: System, q: Request) {
    match q.phase
    case Replaying => q.key in s.keys
    case Done(Answered(response)) => q.key in s.keys && s.keys[q.key].body == q.body && s.keys[q.key].response == Some(response)
    case Done(KeyReused) => q.key in s.keys && s.keys[q.key].body != q.body
    case _ => true
  }

  ghost predicate OwnerAsked(s: System, key: Key)
    requires key in s.keys
  {
    s.keys[key].owner in s.requests && s.requests[s.keys[key].owner].key == key
  }

  /** Every committed row has its outcome and was committed by the one request that ran for the key. */
  ghost predicate RowsComplete(s: System) {
    && (forall k :: k in s.keys ==> s.keys[k].response.Some? && s.keys[k].owner in s.ran && OwnerAsked(s, k))
    && (forall i :: 0 <= i < |s.ran| ==>
          && s.ran[i] in s.requests && s.requests[s.ran[i]].key in s.keys
          && s.keys[s.requests[s.ran[i]].key].owner == s.ran[i])
    && (forall i, j :: 0 <= i < j < |s.ran| ==> s.ran[i] != s.ran[j])
  }

  predicate BothHold(a: Request, b: Request) {
    a.Holds() && b.Holds() && a.key == b.key
  }

  /** A key row is held by at most one request, and only while no row is committed; a holder's writes are not. */
  ghost predicate OneHolder(s: System) {
    && (forall p, q :: p in s.requests && q in s.requests && BothHold(s.requests[p], s.requests[q]) ==> p == q)
    && (forall p :: p in s.requests && s.requests[p].Holds() ==> s.requests[p].key !in s.keys && p !in s.ran)
  }

  ghost predicate Inv(s: System) {
    && RowsComplete(s) && OneHolder(s)
    && forall p :: p in s.requests ==> Agrees(s, s.requests[p])
  }

  /** Committed rows never change or disappear. */
  ghost predicate RowsStay(s: System, s': System) {
    && (forall k :: k in s.keys ==> k in s'.keys && s'.keys[k] == s.keys[k])
    && s.ran <= s'.ran
  }

  /** A request may come to hold its key only from Arrived, with no row committed and no other holder. */
  ghost predicate MayMove(s: System, id: nat, phase: Phase)
    requires id in s.requests
  {
    var q := s.requests[id];
    q.(phase := phase).Holds() ==>
      q.Holds() || (q.key !in s.keys && !Held(s, q.key) && id !in s.ran)
  }

  lemma MoveKeeps(s: System, id: nat, phase: Phase)
    requires Inv(s) && id in s.requests && MayMove(s, id, phase) && Agrees(s, s.requests[id].(phase := phase))
    ensures Inv(To(s, id, phase)) && RowsStay(s, To(s, id, phase))
  {
    MoveKeepsRows(s, id, phase);
    MoveKeepsHolder(s, id, phase);
    hide RowsComplete, OneHolder, MayMove;
    var s' := To(s, id, phase);
    forall p | p in s'.requests ensures Agrees(s', s'.requests[p]) {
      assert p != id ==> s'.requests[p] == s.requests[p];
    }
  }

  lemma MoveKeepsRows(s: System, id: nat, phase: Phase)
    requires RowsComplete(s) && id in s.requests
    ensures RowsComplete(To(s, id, phase))
  {
    var s' := To(s, id, phase);
    forall k | k in s'.keys ensures s'.keys[k].response.Some? && s'.keys[k].owner in s'.ran && OwnerAsked(s', k) {
      assert OwnerAsked(s, k);
    }
  }

  lemma MoveKeepsHolder(s: System, id: nat, phase: Phase)
    requires OneHolder(s) && id in s.requests && MayMove(s, id, phase)
    ensures OneHolder(To(s, id, phase))
  {
    var s' := To(s, id, phase);
    forall p, q | p in s'.requests && q in s'.requests && BothHold(s'.requests[p], s'.requests[q]) ensures p == q {
      if p != id && q != id {
        assert BothHold(s.requests[p], s.requests[q]);
      }
    }
  }

  /** A request that has only arrived has not run. */
  lemma ArrivedHasNotRun(s: System, id: nat)
    requires Inv(s) && id in s.requests && s.requests[id].phase.Arrived? && s.requests[id].key !in s.keys
    ensures id !in s.ran
  {
  }

  lemma CommitKeeps(s: System, id: nat)
    requires Inv(s) && Act(s, Commit(id)).Some?
    ensures Inv(Act(s, Commit(id)).value) && RowsStay(s, Act(s, Commit(id)).value)
  {
    var s' := Act(s, Commit(id)).value;
    CommitKeepsRows(s, id);
    CommitKeepsHolder(s, id);
    CommitFacts(s, id);
    hide RowsComplete, OneHolder, Act;
    forall p | p in s'.requests ensures Agrees(s', s'.requests[p]) {
      assert Agrees(s, s.requests[p]);
    }
  }

  /** What a commit writes, and that nothing was committed for the key before. */
  lemma CommitFacts(s: System, id: nat)
    requires OneHolder(s) && Act(s, Commit(id)).Some?
    ensures var q := s.requests[id];
      && q.phase.Recorded? && q.key !in s.keys
      && Act(s, Commit(id)).value ==
         System(s.keys[q.key := Entry(id, q.body, Some(q.phase.response))], s.ran + [id],
                s.requests[id := Request(q.key, q.body, Done(Answered(q.phase.response)))])
  {
    assert s.requests[id].Holds();
  }

  lemma CommitKeepsRows(s: System, id: nat)
    requires RowsComplete(s) && OneHolder(s) && Act(s, Commit(id)).Some?
    ensures RowsComplete(Act(s, Commit(id)).value)
  {
    var s' := Act(s, Commit(id)).value;
    var key := s.requests[id].key;
    assert s.requests[id].Holds();
    hide OneHolder, Act;
    forall i | 0 <= i < |s'.ran|
      ensures s'.ran[i] in s'.requests && s'.requests[s'.ran[i]].key in s'.keys
      ensures s'.keys[s'.requests[s'.ran[i]].key].owner == s'.ran[i]
    {
      assert i < |s.ran| ==> s.ran[i] != id;
    }
    assert s'.ran[|s.ran|] == id;
    forall k | k in s'.keys ensures s'.keys[k].response.Some? && s'.keys[k].owner in s'.ran && OwnerAsked(s', k) {
      assert k != key ==> s.keys[k].owner in s.ran && OwnerAsked(s, k);
    }
  }

  lemma CommitKeepsHolder(s: System, id: nat)
    requires OneHolder(s) && Act(s, Commit(id)).Some?
    ensures OneHolder(Act(s, Commit(id)).value)
  {
    var s' := Act(s, Commit(id)).value;
    forall p | p in s'.requests && s'.requests[p].Holds() ensures s'.requests[p].key !in s'.keys && p !in s'.ran {
      assert p != id && s.requests[p].Holds() && s.requests[id].Holds();
      assert !BothHold(s.requests[p], s.requests[id]);
    }
    forall p, q | p in s'.requests && q in s'.requests && BothHold(s'.requests[p], s'.requests[q]) ensures p == q {
      assert BothHold(s.requests[p], s.requests[q]);
    }
  }

  /** Every step keeps the invariant, and committed rows as they are. */
  lemma StepKeeps(s: System, s': System)
    requires Inv(s) && Step(s, s')
    ensures Inv(s') && RowsStay(s, s')
  {
    var a :| Act(s, a) == Some(s');
    if a.Arrive? {
      ArriveKeeps(s, a.id, a.key, a.body);
    } else if a.Commit? {
      CommitKeeps(s, a.id);
    } else {
      hide Inv, RowsComplete, OneHolder, RowsStay, Held;
      MoveFacts(s, a);
      MoveKeeps(s, a.id, s'.requests[a.id].phase);
    }
  }

  lemma ArriveKeeps(s: System, id: nat, key: Key, body: Body)
    requires Inv(s) && id !in s.requests
    ensures var s' := s.(requests := s.requests[id := Request(key, body, Arrived)]); Inv(s') && RowsStay(s, s')
  {
    var s' := s.(requests := s.requests[id := Request(key, body, Arrived)]);
    assert forall p :: p in s.requests ==> s'.requests[p] == s.requests[p];
    forall k | k in s'.keys ensures OwnerAsked(s', k) {
      assert OwnerAsked(s, k);
    }
    forall p | p in s'.requests ensures Agrees(s', s'.requests[p]) {
      assert p != id ==> Agrees(s, s.requests[p]);
    }
  }

  /** Every other action moves one request to a phase it may enter and that agrees with the rows. */
  lemma MoveFacts(s: System, a: Action)
    requires Inv(s) && Act(s, a).Some? && !a.Arrive? && !a.Commit?
    ensures var s' := Act(s, a).value;
      && a.id in s.requests && a.id in s'.requests && s' == To(s, a.id, s'.requests[a.id].phase)
      && MayMove(s, a.id, s'.requests[a.id].phase) && Agrees(s, s.requests[a.id].(phase := s'.requests[a.id].phase))
  {
    assert Agrees(s, s.requests[a.id]);
    if a.Insert? && s.requests[a.id].key !in s.keys {
      ArrivedHasNotRun(s, a.id);
    }
    if a.Replay? {
      assert s.requests[a.id].key in s.keys && OwnerAsked(s, s.requests[a.id].key);
    }
    hide RowsComplete, OneHolder, Held;
  }

  lemma {:induction false} RunKeeps(trace: seq<System>, i: nat)
    requires Run(trace) && i < |trace|
    ensures Inv(trace[i])
  {
    if i > 0 {
      hide Inv, Step;
      RunKeeps(trace, i - 1);
      assert Step(trace[i - 1], trace[i - 1 + 1]);
      StepKeeps(trace[i - 1], trace[i]);
    }
  }

  lemma {:induction false} RowsStayOverRun(trace: seq<System>, i: nat, j: nat)
    requires Run(trace) && i <= j < |trace|
    ensures RowsStay(trace[i], trace[j])
    decreases j
  {
    if i < j {
      hide Inv, Step;
      RowsStayOverRun(trace, i, j - 1);
      RunKeeps(trace, j - 1);
      assert Step(trace[j - 1], trace[j - 1 + 1]);
      StepKeeps(trace[j - 1], trace[j]);
    }
  }

  // ---- what the middleware promises

  /** A visible row always has its outcome: no reader ever meets one half-written. */
  lemma VisibleRowsHaveOutcomes(trace: seq<System>, i: nat, key: Key)
    requires Run(trace) && i < |trace| && key in trace[i].keys
    ensures trace[i].keys[key].response.Some?
  {
    RunKeeps(trace, i);
  }

  /** For each key the writes of at most one handler run are ever committed. */
  lemma OneRunPerKey(trace: seq<System>, i: nat, a: nat, b: nat)
    requires Run(trace) && i < |trace| && a < b < |trace[i].ran|
    ensures trace[i].ran[a] in trace[i].requests && trace[i].ran[b] in trace[i].requests
    ensures trace[i].requests[trace[i].ran[a]].key != trace[i].requests[trace[i].ran[b]].key
  {
    RunKeeps(trace, i);
    var s := trace[i];
    assert s.keys[s.requests[s.ran[a]].key].owner == s.ran[a] && s.keys[s.requests[s.ran[b]].key].owner == s.ran[b];
  }

  /** All answers ever given for one key are the same response, to the same body. */
  lemma AnswersAgree(trace: seq<System>, i: nat, p: nat, q: nat)
    requires Run(trace) && i < |trace| && p in trace[i].requests && q in trace[i].requests
    requires var a, b := trace[i].requests[p], trace[i].requests[q];
      a.key == b.key && a.phase.Done? && a.phase.reply.Answered? && b.phase.Done? && b.phase.reply.Answered?
    ensures trace[i].requests[p].phase == trace[i].requests[q].phase && trace[i].requests[p].body == trace[i].requests[q].body
  {
    RunKeeps(trace, i);
    assert Agrees(trace[i], trace[i].requests[p]) && Agrees(trace[i], trace[i].requests[q]);
  }

  /** A replay is never broken: it returns the stored response to the same body, and refuses any other. */
  lemma ReplaySucceeds(trace: seq<System>, i: nat, id: nat)
    requires Run(trace) && i < |trace| && id in trace[i].requests && trace[i].requests[id].phase.Replaying?
    ensures trace[i].requests[id].key in trace[i].keys
    ensures var q, entry := trace[i].requests[id], trace[i].keys[trace[i].requests[id].key];
      && entry.response.Some?
      && Act(trace[i], Replay(id)) ==
         Some(To(trace[i], id, Done(if entry.body == q.body then Answered(entry.response.value) else KeyReused)))
  {
    RunKeeps(trace, i);
    assert Agrees(trace[i], trace[i].requests[id]);
  }

  /**
   A waiting request can go on exactly when nobody holds its key. It runs afresh if and only if nothing has been
   committed for the key, that is, after every earlier attempt was rolled back; otherwise it replays.
   */
  lemma WaiterGoesOn(trace: seq<System>, i: nat, id: nat)
    requires Run(trace) && i < |trace| && id in trace[i].requests && trace[i].requests[id].phase.Arrived?
    ensures var s, q := trace[i], trace[i].requests[id];
      && (Act(s, Insert(id)).Some? <==> !Held(s, q.key))
      && (Act(s, Insert(id)).Some? ==>
            (Act(s, Insert(id)).value.requests[id].phase == Fresh <==>
             forall r :: r in s.ran ==> r in s.requests && s.requests[r].key != q.key))
  {
    RunKeeps(trace, i);
    var s, q := trace[i], trace[i].requests[id];
    if q.key in s.keys {
      assert OwnerAsked(s, q.key);
    } else {
      forall r | r in s.ran ensures r in s.requests && s.requests[r].key != q.key {
        var j :| 0 <= j < |s.ran| && s.ran[j] == r;
      }
    }
  }

  // ---- one request from start to end

  ghost predicate Reaches(s: System, s': System) {
    exists trace :: StepsFrom(trace, s) && trace[|trace| - 1] == s'
  }

  ghost predicate StepsFrom(trace: seq<System>, s: System) {
    trace != [] && trace[0] == s && forall i :: 0 <= i < |trace| - 1 ==> Step(trace[i], trace[i + 1])
  }

  lemma StartHere(s: System)
    ensures Reaches(s, s)
  {
    assert StepsFrom([s], s);
  }

  lemma StepOn(s: System, m: System, a: Action)
    requires Reaches(s, m) && Act(m, a).Some?
    ensures Reaches(s, Act(m, a).value)
  {
    hide Act;
    var trace :| StepsFrom(trace, s) && trace[|trace| - 1] == m;
    var longer := trace + [Act(m, a).value];
    forall i | 0 <= i < |longer| - 1 ensures Step(longer[i], longer[i + 1]) {
      if i < |trace| - 1 {
        assert Step(trace[i], trace[i + 1]);
      }
    }
    assert StepsFrom(longer, s) && longer[|longer| - 1] == Act(m, a).value;
  }

  /** How the wrapped handler ended. */
  datatype HandlerRun = Returns(response: Response) | Panics

  /** Whether each use of the database works: begin and insert, the read of a stored outcome, the update, the commit. */
  datatype Database = Database(inserts: bool, loads: bool, records: bool, commits: bool)

  /** The outcome of one request: a replay and any failure change nothing, a full run adds its row and its writes. */
  ghost predicate Served(s: System, id: nat, key: Key, body: Body, handler: HandlerRun, works: Database,
                         keys: map<Key, Entry>, ran: seq<nat>, reply: Reply)
  {
    if works.inserts && key !in s.keys && handler.Returns? && works.records && works.commits then
      && keys == s.keys[key := Entry(id, body, Some(handler.response))] && ran == s.ran + [id]
      && reply == Answered(handler.response)
    else
      && keys == s.keys && ran == s.ran
      && reply == if works.inserts && key in s.keys && works.loads then ReplyFrom(s.keys[key], body)
                  else if works.inserts && key !in s.keys && handler.Panics? then Panicked
                  else Broken
  }

  /**
   A request and a later one with the same key, with no other in between and the second's uses of the database working.
   Whatever became of the first, its key runs once: a first answer is given again to the same body without a run, any
   other body is refused, and after a failure or a panic the second runs as if it were the first.
   */
  lemma ServedAgain(s: System, id: nat, key: Key, body: Body, handler: HandlerRun, works: Database, m: System, reply: Reply,
                    id': nat, body': Body, handler': HandlerRun, keys': map<Key, Entry>, ran': seq<nat>, reply': Reply)
    requires forall k :: k in s.keys ==> s.keys[k].response.Some?
    requires Served(s, id, key, body, handler, works, m.keys, m.ran, reply)
    requires Served(m, id', key, body', handler', Database(true, true, true, true), keys', ran', reply')
    ensures reply.Answered? ==>
      keys' == m.keys && ran' == m.ran && reply' == if body' == body then reply else KeyReused
    ensures reply == KeyReused ==> key in s.keys && s.keys[key].body != body && m.keys == s.keys && m.ran == s.ran
    ensures reply == Panicked ==> key !in s.keys && handler.Panics? && works.inserts
    ensures key !in s.keys && !reply.Answered? ==>
      && m.keys == s.keys && m.ran == s.ran
      && (handler'.Returns? ==> reply' == Answered(handler'.response) && ran' == s.ran + [id'])
      && (handler'.Panics? ==> reply' == Panicked && ran' == s.ran)
    ensures key !in s.keys && reply.Answered? ==> handler == Returns(reply.response) && m.ran == s.ran + [id]
    ensures key !in s.keys && handler.Returns? && works == Database(true, true, true, true) ==> reply == Answered(handler.response)
    ensures |ran'| <= |s.ran| + 1
  {
  }

  /** The key table and the handlers' committed writes, and the middleware in front of them. */
  class Middleware {
    var keys: map<Key, Entry>
    var ran: seq<nat>

    constructor ()
      ensures keys == map[] && ran == []
    {
      keys, ran := map[], [];
    }

    /** The database as the protocol sees it, with the other requests as they stand. */
    ghost function Seen(others: map<nat, Request>): System
      reads this
    {
      System(keys, ran, others)
    }

    /**
     Serve one request whose key nobody else holds. A missing key or an unreadable body is refused before the protocol
     begins. Inserting the key row, running the handler against a captured response, recording it and committing
     follow the protocol; only then does the client see anything.
     */
    method Serve(id: nat, key: Key, read: Option<Body>, handler: HandlerRun, works: Database,
                 ghost others: map<nat, Request>) returns (reply: Reply)
      requires id !in others && !Held(Seen(others), key)
      modifies this
      ensures key == "" || read.None? ==> reply == Refused && keys == old(keys) && ran == old(ran)
      ensures key != "" && read.Some? ==>
        && Reaches(old(Seen(others)), Seen(others[id := Request(key, read.value, Done(reply))]))
        && Served(System(old(keys), old(ran), others), id, key, read.value, handler, works, keys, ran, reply)
    {
      hide Act, Held, Reaches;
      if key == "" || read.None? {
        return Refused;
      }
      var body := read.value;
      ghost var start := Seen(others);
      Arrives(start, id, key, body);
      if !works.inserts {
        Breaks(start, id, key, body);
        return Broken;
      }
      if key in keys {
        // no row affected: the transaction is rolled back and the stored outcome read
        Replays(start, id, key, body);
        if !works.loads {
          return Broken;
        }
        var entry := keys[key];
        if entry.body != body {
          return KeyReused;
        }
        if entry.response.None? {
          return Broken;
        }
        return Answered(entry.response.value);
      }
      RunsFresh(start, id, key, body, handler);
      if handler.Panics? {
        return Panicked;
      }
      var captured := handler.response;
      if !works.records || !works.commits {
        return Broken;
      }
      keys := keys[key := Entry(id, body, Some(captured))];
      ran := ran + [id];
      return Answered(captured);
    }
  }

  lemma Arrives(s: System, id: nat, key: Key, body: Body)
    requires key != "" && id !in s.requests && !Held(s, key)
    ensures var m := s.(requests := s.requests[id := Request(key, body, Arrived)]);
      Reaches(s, m) && !Held(m, key)
  {
    StartHere(s);
    StepOn(s, s, Arrive(id, key, body));
    var m := s.(requests := s.requests[id := Request(key, body, Arrived)]);
    forall q | q in m.requests ensures !(m.requests[q].key == key && m.requests[q].Holds()) {
      assert q != id ==> s.requests[q] == m.requests[q];
    }
  }

  lemma Breaks(s: System, id: nat, key: Key, body: Body)
    requires Reaches(s, s.(requests := s.requests[id := Request(key, body, Arrived)]))
    ensures Reaches(s, s.(requests := s.requests[id := Request(key, body, Done(Broken))]))
  {
    hide Reaches;
    var m := s.(requests := s.requests[id := Request(key, body, Arrived)]);
    StepOn(s, m, Break(id));
    assert To(m, id, Done(Broken)).requests == s.requests[id := Request(key, body, Done(Broken))];
  }

  lemma Replays(s: System, id: nat, key: Key, body: Body)
    requires key in s.keys && !Held(s.(requests := s.requests[id := Request(key, body, Arrived)]), key)
    requires Reaches(s, s.(requests := s.requests[id := Request(key, body, Arrived)]))
    ensures Reaches(s, s.(requests := s.requests[id := Request(key, body, Done(ReplyFrom(s.keys[key], body)))]))
    ensures Reaches(s, s.(requests := s.requests[id := Request(key, body, Done(Broken))]))
  {
    hide Held, Reaches;
    var m := s.(requests := s.requests[id := Request(key, body, Arrived)]);
    StepOn(s, m, Insert(id));
    var r := To(m, id, Replaying);
    assert Act(m, Insert(id)) == Some(r);
    StepOn(s, r, Replay(id));
    StepOn(s, r, Break(id));
    assert To(r, id, Done(Broken)).requests == s.requests[id := Request(key, body, Done(Broken))];
    var t := Act(r, Replay(id)).value;
    assert t.requests == s.requests[id := t.requests[id]];
  }

  lemma RunsFresh(s: System, id: nat, key: Key, body: Body, handler: HandlerRun)
    requires key !in s.keys && !Held(s.(requests := s.requests[id := Request(key, body, Arrived)]), key)
    requires Reaches(s, s.(requests := s.requests[id := Request(key, body, Arrived)]))
    ensures handler.Panics? ==> Reaches(s, s.(requests := s.requests[id := Request(key, body, Done(Panicked))]))
    ensures handler.Returns? ==>
      && Reaches(s, s.(requests := s.requests[id := Request(key, body, Done(Broken))]))
      && Reaches(s, System(s.keys[key := Entry(id, body, Some(handler.response))], s.ran + [id],
                           s.requests[id := Request(key, body, Done(Answered(handler.response)))]))
  {
    hide Held, Reaches;
    var m := s.(requests := s.requests[id := Request(key, body, Arrived)]);
    StepOn(s, m, Insert(id));
    var holding := s.(requests := s.requests[id := Request(key, body, Fresh)]);
    assert To(m, id, Fresh).requests == holding.requests;
    if handler.Panics? {
      StepOn(s, holding, Panic(id));
      assert To(holding, id, Done(Panicked)).requests == s.requests[id := Request(key, body, Done(Panicked))];
    } else {
      StepOn(s, holding, Handle(id, handler.response));
      var handled := s.(requests := s.requests[id := Request(key, body, Handled(handler.response))]);
      assert To(holding, id, Handled(handler.response)).requests == handled.requests;
      StepOn(s, handled, Break(id));
      assert To(handled, id, Done(Broken)).requests == s.requests[id := Request(key, body, Done(Broken))];
      RecordsAndCommits(s, id, key, body, handler.response);
    }
  }

  lemma RecordsAndCommits(s: System, id: nat, key: Key, body: Body, response: Response)
    requires Reaches(s, s.(requests := s.requests[id := Request(key, body, Handled(response))]))
    ensures Reaches(s, System(s.keys[key := Entry(id, body, Some(response))], s.ran + [id],
                              s.requests[id := Request(key, body, Done(Answered(response)))]))
  {
    hide Reaches;
    var handled := s.(requests := s.requests[id := Request(key, body, Handled(response))]);
    StepOn(s, handled, Record(id));
    var recorded := s.(requests := s.requests[id := Request(key, body, Recorded(response))]);
    assert To(handled, id, Recorded(response)).requests == recorded.requests;
    StepOn(s, recorded, Commit(id));
    assert To(recorded, id, Done(Answered(response))).requests ==
           s.requests[id := Request(key, body, Done(Answered(response)))];
  }
}
