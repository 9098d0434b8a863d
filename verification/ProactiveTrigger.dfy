/**
 * `ProactiveConversationStore.store_workflow_information`: collect the workflow runs of
 * a commit until none is pending, and start the conversation once if one failed.
 * Events of all (repository, PR, commit) keys interleave over one table; each call is
 * one transaction.
 */
module ProactiveTrigger {
  import opened Prelude

  datatype Status = FAILURE | COMPLETED | PENDING

  type Runs = map<string, Status>

  datatype Key = Key(repo: string, pr: int, commit: string)

  /** `created` is the column `last_updated_at`, which only the insertion sets. */
  datatype Entry = Entry(runs: Runs, sent: bool, created: int)

  /** An incoming run, with what `get_all_workflows` would answer at that moment. */
  datatype Event = Event(key: Key, snapshot: Runs, id: string, status: Status, now: int)

  type Table = map<Key, Entry>

  /** Nothing is pending and something failed. */
  predicate Triggers(runs: Runs) {
    (forall id | id in runs :: runs[id] != PENDING) && FAILURE in runs.Values
  }

  /** The group returned, if any, and the table after one event. */
  function Handle(table: Table, e: Event): (Table, Option<Runs>) {
    if e.key in table && table[e.key].sent then (table, None)
    else
      var known := if e.key in table then table[e.key].runs else e.snapshot;
      var runs := known[e.id := e.status];
      var created := if e.key in table then table[e.key].created else e.now;
      (table[e.key := Entry(runs, Triggers(runs), created)], if Triggers(runs) then Some(runs) else None)
  }

  function TableAfter(events: seq<Event>): Table
    decreases |events|
  {
    if events == [] then map[]
    else Handle(TableAfter(events[..|events| - 1]), events[|events| - 1]).0
  }

  /** What the call for the i-th event returns. */
  function Returned(events: seq<Event>, i: nat): Option<Runs>
    requires i < |events|
  {
    Handle(TableAfter(events[..i]), events[i]).1
  }

  // ----------------------------------------------------------- the intended meaning

  predicate Mentions(events: seq<Event>, key: Key) { exists e | e in events :: e.key == key }

  /** The first snapshot for the key overlaid by all its events, whatever was sent. */
  function Overlay(events: seq<Event>, key: Key): Runs
    decreases |events|
  {
    if events == [] then map[]
    else
      var before, e := events[..|events| - 1], events[|events| - 1];
      if e.key != key then Overlay(before, key)
      else (if Mentions(before, key) then Overlay(before, key) else e.snapshot)[e.id := e.status]
  }

  /** When the first event for the key arrived. */
  function FirstSeen(events: seq<Event>, key: Key): int
    requires Mentions(events, key)
    decreases |events|
  {
    var before := events[..|events| - 1];
    if Mentions(before, key) then FirstSeen(before, key)
    else
      assert events == before + [events[|events| - 1]];
      events[|events| - 1].now
  }

  /** Right after the i-th event, which is one for the key, no run is pending and one has failed. */
  predicate TriggersAt(events: seq<Event>, key: Key, i: nat) {
    && i < |events| && events[i].key == key
    && var runs := Overlay(events[..i + 1], key);
       && (forall id | id in runs :: runs[id] != PENDING) && (exists id | id in runs :: runs[id] == FAILURE)
  }

  /** It does, and did after no earlier event. */
  ghost predicate FirstTrigger(events: seq<Event>, key: Key, i: nat) {
    TriggersAt(events, key, i) && forall j: nat :: j < i ==> !TriggersAt(events, key, j)
  }

  ghost predicate Triggered(events: seq<Event>, key: Key) {
    exists i: nat :: FirstTrigger(events, key, i)
  }

  /** The row of a key: absent, tracking the overlay, or frozen at the trigger. */
  ghost predicate RowOk(events: seq<Event>, key: Key) {
    var table := TableAfter(events);
    && (key in table <==> Mentions(events, key))
    && (key in table ==> table[key].created == FirstSeen(events, key))
    && (key in table ==> (table[key].sent <==> Triggered(events, key)))
    && (key in table && !table[key].sent ==> table[key].runs == Overlay(events, key))
    && (forall i: nat :: key in table && FirstTrigger(events, key, i) ==>
          table[key].runs == Overlay(events[..i + 1], key))
  }

  /** Triggering looks only at the events up to it. */
  lemma TriggerOfPrefix(prefix: seq<Event>, events: seq<Event>, key: Key, i: nat)
    requires prefix <= events && i < |prefix|
    ensures prefix[..i + 1] == events[..i + 1]
    ensures FirstTrigger(prefix, key, i) <==> FirstTrigger(events, key, i)
  {
    forall j: nat | j <= i ensures TriggersAt(prefix, key, j) <==> TriggersAt(events, key, j) {
      assert prefix[..j + 1] == events[..j + 1];
    }
  }

  /** Where some event triggers there is a first one that does. */
  lemma {:induction false} EarliestTrigger(events: seq<Event>, key: Key, j: nat)
    requires TriggersAt(events, key, j)
    ensures Triggered(events, key)
    decreases j
  {
    if !FirstTrigger(events, key, j) {
      var k: nat :| k < j && TriggersAt(events, key, k);
      EarliestTrigger(events, key, k);
    }
  }

  /** One more event: an earlier trigger stays the first, else this one may be. */
  lemma OneMoreEvent(events: seq<Event>, key: Key)
    requires events != []
    ensures
      var n := |events| - 1;
      && (FirstTrigger(events, key, n) <==>
          !Triggered(events[..n], key) && events[n].key == key && Triggers(Overlay(events, key)))
      && (Triggered(events, key) <==> Triggered(events[..n], key) || FirstTrigger(events, key, n))
  {
    var n := |events| - 1;
    var before := events[..n];
    assert events[..n + 1] == events;
    forall i: nat | i < n ensures FirstTrigger(before, key, i) <==> FirstTrigger(events, key, i) {
      TriggerOfPrefix(before, events, key, i);
    }
    if TriggersAt(events, key, n) && !FirstTrigger(events, key, n) {
      var j: nat :| j < n && TriggersAt(events, key, j);
      assert before[..j + 1] == events[..j + 1];
      EarliestTrigger(before, key, j);
    }
    if i: nat :| FirstTrigger(events, key, i) {
      assert i == n || FirstTrigger(before, key, i);
    }
    if i: nat :| FirstTrigger(before, key, i) {
      assert FirstTrigger(events, key, i);
    }
  }

  lemma {:induction false} RowsOk(events: seq<Event>, key: Key)
    ensures RowOk(events, key)
    decreases |events|
  {
    if events == [] {
      assert !Mentions(events, key);
    } else {
      var n := |events| - 1;
      var before, e := events[..n], events[n];
      RowsOk(before, key);
      OneMoreEvent(events, key);
      assert events == before + [e];
      assert Mentions(events, key) <==> Mentions(before, key) || e.key == key;
      RunsAtTrigger(events, key);
    }
  }

  /** One event keeps the runs of a triggered row at what they were at the trigger. */
  lemma RunsAtTrigger(events: seq<Event>, key: Key)
    requires events != [] && RowOk(events[..|events| - 1], key)
    ensures forall i: nat :: key in TableAfter(events) && FirstTrigger(events, key, i) ==>
              TableAfter(events)[key].runs == Overlay(events[..i + 1], key)
  {
    forall i: nat | key in TableAfter(events) && FirstTrigger(events, key, i)
      ensures TableAfter(events)[key].runs == Overlay(events[..i + 1], key)
    {
      if i < |events| - 1 { KeptSinceTrigger(events, key, i); } else { StoredAtTrigger(events, key); }
    }
  }

  lemma KeptSinceTrigger(events: seq<Event>, key: Key, i: nat)
    requires i < |events| - 1 && RowOk(events[..|events| - 1], key) && FirstTrigger(events, key, i)
    ensures key in TableAfter(events) && TableAfter(events)[key].runs == Overlay(events[..i + 1], key)
  {
    var before := events[..|events| - 1];
    TriggerOfPrefix(before, events, key, i);
    RowSinceTrigger(before, key, i);
    SentRowStays(events, key);
  }

  lemma RowSinceTrigger(events: seq<Event>, key: Key, i: nat)
    requires RowOk(events, key) && FirstTrigger(events, key, i)
    ensures
      var table := TableAfter(events);
      key in table && table[key].sent && table[key].runs == Overlay(events[..i + 1], key)
  {
    assert events[i] in events;
  }

  lemma SentRowStays(events: seq<Event>, key: Key)
    requires events != []
    requires var table := TableAfter(events[..|events| - 1]); key in table && table[key].sent
    ensures key in TableAfter(events) && TableAfter(events)[key] == TableAfter(events[..|events| - 1])[key]
  {
  }

  lemma StoredAtTrigger(events: seq<Event>, key: Key)
    requires events != [] && RowOk(events[..|events| - 1], key) && FirstTrigger(events, key, |events| - 1)
    ensures key in TableAfter(events) && TableAfter(events)[key].runs == Overlay(events[..|events|], key)
  {
    var n := |events| - 1;
    OneMoreEvent(events, key);
    assert events[..n + 1] == events;
    var table := TableAfter(events[..n]);
    assert key in table ==> !table[key].sent;
  }

  // ------------------------------------------------------------------ main results

  /**
   * A call returns a group exactly at the first event after which the overlaid snapshot
   * has no pending and some failed run, and the group is that overlay.
   */
  lemma ReturnsExactlyAtFirstTrigger(events: seq<Event>, i: nat)
    requires i < |events|
    ensures Returned(events, i).Some? <==> FirstTrigger(events, events[i].key, i)
    ensures Returned(events, i).Some? ==>
              var runs := Returned(events, i).value;
              && runs == Overlay(events[..i + 1], events[i].key)
              && (forall id :: id in runs ==> runs[id] != PENDING)
              && exists id :: id in runs && runs[id] == FAILURE
  {
    var key, upTo := events[i].key, events[..i + 1];
    assert upTo[..i] == events[..i];
    RowsOk(events[..i], key);
    OneMoreEvent(upTo, key);
    TriggerOfPrefix(upTo, events, key, i);
  }

  /** So per key at most one call ever returns a group. */
  lemma ReturnsAtMostOnce(events: seq<Event>, i: nat, j: nat)
    requires i < |events| && j < |events| && events[i].key == events[j].key
    requires Returned(events, i).Some? && Returned(events, j).Some?
    ensures i == j
  {
    ReturnsExactlyAtFirstTrigger(events, i);
    ReturnsExactlyAtFirstTrigger(events, j);
  }

  /** From the trigger on the row is frozen, whatever else arrives for any key. */
  lemma FrozenAfterTrigger(events: seq<Event>, key: Key, i: nat, n: nat)
    requires FirstTrigger(events, key, i) && i < n <= |events|
    ensures key in TableAfter(events[..n])
    ensures Mentions(events[..n], key)
    ensures TableAfter(events[..n])[key] == Entry(Overlay(events[..i + 1], key), true, FirstSeen(events[..n], key))
  {
    var prefix := events[..n];
    TriggerOfPrefix(prefix, events, key, i);
    RowsOk(prefix, key);
    assert prefix[i] in prefix;
  }

  // ---------------------------------------------------------------- with clean-ups

  const MINUTE: int := 60

  datatype Op = Arrival(event: Event) | CleanUp(now: int, olderThanMinutes: nat)

  function TimeOf(op: Op): int { if op.Arrival? then op.event.now else op.now }

  function Cutoff(op: Op): int
    requires op.CleanUp?
  {
    op.now - op.olderThanMinutes * MINUTE
  }

  /** The clean-up deletes what was created before its cutoff. */
  predicate Sweeps(op: Op, entry: Entry) { op.CleanUp? && entry.created < Cutoff(op) }

  function Step(table: Table, op: Op): Table {
    match op
    case Arrival(e) => Handle(table, e).0
    case CleanUp(_, _) => map k | k in table && !Sweeps(op, table[k]) :: table[k]
  }

  function After(table: Table, ops: seq<Op>): Table
    decreases |ops|
  {
    if ops == [] then table else After(Step(table, ops[0]), ops[1..])
  }

  ghost predicate InOrder(ops: seq<Op>) {
    forall i, j :: 0 <= i < j < |ops| ==> TimeOf(ops[i]) <= TimeOf(ops[j])
  }

  /** Once gone, a row can come back only as a younger one. */
  lemma {:induction false} OnlyYounger(table: Table, ops: seq<Op>, key: Key, created: int)
    requires key in table ==> table[key].created > created
    requires forall i :: 0 <= i < |ops| ==> TimeOf(ops[i]) > created
    ensures key in After(table, ops) ==> After(table, ops)[key].created > created
    decreases |ops|
  {
    if ops != [] {
      assert TimeOf(ops[0]) > created;
      OnlyYounger(Step(table, ops[0]), ops[1..], key, created);
    }
  }

  /**
   * A row that has been answered stays as it is, through any events and clean-ups, if and only
   * if no clean-up has a cutoff later than its creation; later events do not make it younger.
   */
  lemma {:induction false} FrozenUntilSwept(table: Table, ops: seq<Op>, key: Key)
    requires key in table && table[key].sent && InOrder(ops)
    ensures (key in After(table, ops) && After(table, ops)[key] == table[key]) <==>
      forall i :: 0 <= i < |ops| && ops[i].CleanUp? ==>
        table[key].created >= ops[i].now - ops[i].olderThanMinutes * 60
    decreases |ops|
  {
    if ops != [] {
      var op, rest, next := ops[0], ops[1..], Step(table, ops[0]);
      if Sweeps(op, table[key]) {
        forall i | 0 <= i < |rest| ensures TimeOf(rest[i]) > table[key].created {
          assert TimeOf(ops[0]) <= TimeOf(ops[i + 1]);
        }
        OnlyYounger(next, rest, key, table[key].created);
      } else {
        assert forall i :: 0 <= i < |rest| ==> rest[i] == ops[i + 1];
        FrozenUntilSwept(next, rest, key);
        assert forall i :: 0 < i < |ops| ==> ops[i] == rest[i - 1];
      }
    }
  }

  /** So a key that has been answered is answered again only after a clean-up took its row. */
  lemma SecondGroupNeedsSweep(table: Table, ops: seq<Op>, e: Event)
    requires e.key in table && table[e.key].sent && InOrder(ops)
    requires Handle(After(table, ops), e).1.Some?
    ensures exists i ::
              && 0 <= i < |ops| && ops[i].CleanUp?
              && table[e.key].created < ops[i].now - ops[i].olderThanMinutes * 60
  {
    FrozenUntilSwept(table, ops, e.key);
  }

  lemma {:induction false} AfterSnoc(table: Table, ops: seq<Op>, op: Op)
    ensures After(table, ops + [op]) == Step(After(table, ops), op)
    decreases |ops|
  {
    if ops == [] {
      assert ops + [op] == [op];
    } else {
      assert (ops + [op])[1..] == ops[1..] + [op];
      AfterSnoc(Step(table, ops[0]), ops[1..], op);
    }
  }

  /** The events for the key since its row was last absent. */
  function Life(ops: seq<Op>, key: Key): seq<Event>
    decreases |ops|
  {
    if ops == [] then []
    else
      var before, op := ops[..|ops| - 1], ops[|ops| - 1];
      if op.CleanUp? || op.event.key != key then Life(before, key)
      else (if key in After(map[], before) then Life(before, key) else []) + [op.event]
  }

  lemma TableAfterSnoc(events: seq<Event>, e: Event)
    ensures TableAfter(events + [e]) == Handle(TableAfter(events), e).0
  {
    assert (events + [e])[..|events|] == events;
  }

  /** A row is what its own life makes of an empty table. */
  lemma {:induction false} LifeMakesTheRow(ops: seq<Op>, key: Key)
    ensures
      var table, lived := After(map[], ops), TableAfter(Life(ops, key));
      key in table ==> key in lived && lived[key] == table[key]
    decreases |ops|
  {
    if ops != [] {
      var before, op := ops[..|ops| - 1], ops[|ops| - 1];
      assert ops == before + [op];
      AfterSnoc(map[], before, op);
      LifeMakesTheRow(before, key);
      if op.Arrival? && op.event.key == key {
        TableAfterSnoc(if key in After(map[], before) then Life(before, key) else [], op.event);
      }
    }
  }

  /**
   * Over any run of events and clean-ups a call is answered if and only if its event is the
   * first trigger of the life of its row, and then with the overlay of that life: once per
   * life, and again only in the next.
   */
  lemma AnsweredIff(ops: seq<Op>, e: Event)
    ensures
      var life := Life(ops + [Arrival(e)], e.key);
      var answer := Handle(After(map[], ops), e).1;
      && life != []
      && (answer.Some? <==> FirstTrigger(life, e.key, |life| - 1))
      && (answer.Some? ==> answer.value == Overlay(life, e.key))
  {
    var earlier := if e.key in After(map[], ops) then Life(ops, e.key) else [];
    LifeOfArrival(ops, e);
    LifeMakesTheRow(ops, e.key);
    AnsweredInLife(After(map[], ops), earlier, e);
  }

  lemma LifeOfArrival(ops: seq<Op>, e: Event)
    ensures Life(ops + [Arrival(e)], e.key) == (if e.key in After(map[], ops) then Life(ops, e.key) else []) + [e]
  {
    assert (ops + [Arrival(e)])[..|ops|] == ops;
  }

  lemma AnsweredInLife(table: Table, earlier: seq<Event>, e: Event)
    requires e.key in table <==> e.key in TableAfter(earlier)
    requires e.key in table ==> table[e.key] == TableAfter(earlier)[e.key]
    ensures
      var life, answer := earlier + [e], Handle(table, e).1;
      && (answer.Some? <==> FirstTrigger(life, e.key, |life| - 1))
      && (answer.Some? ==> answer.value == Overlay(life, e.key))
  {
    var life := earlier + [e];
    SameAnswer(table, TableAfter(earlier), e);
    LastIsReturned(earlier, e);
    ReturnsExactlyAtFirstTrigger(life, |earlier|);
    assert life[..|earlier| + 1] == life;
  }

  lemma LastIsReturned(earlier: seq<Event>, e: Event)
    ensures Returned(earlier + [e], |earlier|) == Handle(TableAfter(earlier), e).1
  {
    assert (earlier + [e])[..|earlier|] == earlier;
  }

  /** An answer depends on the row of the key alone. */
  lemma SameAnswer(t1: Table, t2: Table, e: Event)
    requires e.key in t1 <==> e.key in t2
    requires e.key in t1 ==> t1[e.key] == t2[e.key]
    ensures Handle(t1, e).1 == Handle(t2, e).1
  {
  }

  // ------------------------------------- first events that read before they write

  /**
   * One key.  A call that finds no row locks nothing, so others may start beside it; each of
   * them inserts a row.  A call that finds rows holds them until it has updated all of them.
   */
  datatype Race = Race(rows: seq<Entry>, started: map<nat, Event>)

  datatype Move =
    | FindNone(call: nat, event: Event)
    | Insert(call: nat)
    | Update(event: Event, pick: nat)

  predicate CanMove(r: Race, m: Move) {
    match m
    case FindNone(call, _) => r.rows == [] && call !in r.started
    case Insert(call) => call in r.started
    case Update(_, pick) => pick < |r.rows|
  }

  /** The runs that the move stores; an answered row is left alone. */
  function Stored(r: Race, m: Move): Option<Runs>
    requires CanMove(r, m)
  {
    match m
    case FindNone(_, _) => None
    case Insert(call) => Some(r.started[call].snapshot[r.started[call].id := r.started[call].status])
    case Update(e, pick) => if r.rows[pick].sent then None else Some(r.rows[pick].runs[e.id := e.status])
  }

  predicate Answers(r: Race, m: Move)
    requires CanMove(r, m)
  {
    Stored(r, m).Some? && Triggers(Stored(r, m).value)
  }

  function Moved(r: Race, m: Move): Race
    requires CanMove(r, m)
  {
    match m
    case FindNone(call, e) => r.(started := r.started[call := e])
    case Insert(call) =>
      Race(r.rows + [Entry(Stored(r, m).value, Answers(r, m), r.started[call].now)], r.started - {call})
    case Update(e, pick) =>
      if Stored(r, m).None? then r
      else
        r.(rows := seq(|r.rows|, i requires 0 <= i < |r.rows| =>
          Entry(Stored(r, m).value, Answers(r, m), r.rows[i].created)))
  }

  ghost predicate Moves(r: Race, moves: seq<Move>, r': Race)
    decreases |moves|
  {
    if moves == [] then r == r' else CanMove(r, moves[0]) && Moves(Moved(r, moves[0]), moves[1..], r')
  }

  function AnswerCount(r: Race, moves: seq<Move>): nat
    decreases |moves|
  {
    if moves == [] || !CanMove(r, moves[0]) then 0
    else (if Answers(r, moves[0]) then 1 else 0) + AnswerCount(Moved(r, moves[0]), moves[1..])
  }

  ghost predicate CanAnswer(r: Race) { exists moves, r' :: Moves(r, moves, r') && AnswerCount(r, moves) > 0 }

  /** Nobody is under way and every row is answered. */
  predicate Settled(r: Race) { r.started == map[] && forall i :: 0 <= i < |r.rows| ==> r.rows[i].sent }

  lemma {:induction false} SettledStays(r: Race, moves: seq<Move>, r': Race)
    requires r.rows != [] && Settled(r) && Moves(r, moves, r')
    ensures AnswerCount(r, moves) == 0
    decreases |moves|
  {
    if moves != [] { SettledStays(Moved(r, moves[0]), moves[1..], r'); }
  }

  lemma MovesCons(r: Race, m: Move, rest: seq<Move>, r': Race)
    requires CanMove(r, m) && Moves(Moved(r, m), rest, r')
    ensures Moves(r, [m] + rest, r')
    ensures AnswerCount(r, [m] + rest) == (if Answers(r, m) then 1 else 0) + AnswerCount(Moved(r, m), rest)
  {
    assert ([m] + rest)[1..] == rest;
  }

  lemma AnswersNow(r: Race, m: Move)
    requires CanMove(r, m) && Answers(r, m)
    ensures CanAnswer(r)
  {
    MovesCons(r, m, [], Moved(r, m));
  }

  lemma AnswersLater(r: Race, m: Move)
    requires CanMove(r, m) && CanAnswer(Moved(r, m))
    ensures CanAnswer(r)
  {
    var moves, r' :| Moves(Moved(r, m), moves, r') && AnswerCount(Moved(r, m), moves) > 0;
    MovesCons(r, m, moves, r');
  }

  function PendingIds(runs: Runs): set<string> { set id | id in runs && runs[id] == PENDING }

  /** Failures of the pending runs, one after the other, bring a row that is not answered to its trigger. */
  lemma {:induction false} OpenRowCanAnswer(r: Race, i: nat, key: Key)
    requires i < |r.rows| && !r.rows[i].sent
    ensures CanAnswer(r)
    decreases |PendingIds(r.rows[i].runs)|
  {
    var pending := PendingIds(r.rows[i].runs);
    var id := "";
    if pending != {} { id :| id in pending; }
    var m := Update(Event(key, map[], id, FAILURE, 0), i);
    var runs := r.rows[i].runs[id := FAILURE];
    assert Stored(r, m) == Some(runs) && PendingIds(runs) == pending - {id};
    assert id in runs && runs[id] == FAILURE;
    if Answers(r, m) {
      AnswersNow(r, m);
    } else {
      assert pending != {} by { if pending == {} { NothingPending(runs); } }
      OpenRowCanAnswer(Moved(r, m), i, key);
      AnswersLater(r, m);
    }
  }

  lemma NothingPending(runs: Runs)
    requires PendingIds(runs) == {}
    ensures forall id :: id in runs ==> runs[id] != PENDING
  {
    forall id | id in runs ensures runs[id] != PENDING {
      assert id !in PendingIds(runs);
    }
  }

  /** With a row there, the key can be answered (again) if and only if it is not settled. */
  lemma CanAnswerIff(r: Race, key: Key)
    requires r.rows != []
    ensures CanAnswer(r) <==> !Settled(r)
  {
    if Settled(r) {
      forall moves, r' | Moves(r, moves, r') ensures AnswerCount(r, moves) == 0 {
        SettledStays(r, moves, r');
      }
    } else if r.started != map[] {
      var call :| call in r.started;
      var m := Insert(call);
      if Answers(r, m) {
        AnswersNow(r, m);
      } else {
        OpenRowCanAnswer(Moved(r, m), |r.rows|, key);
        AnswersLater(r, m);
      }
    } else {
      var i :| 0 <= i < |r.rows| && !r.rows[i].sent;
      OpenRowCanAnswer(r, i, key);
    }
  }

  /**
   * So an answer is the last one if and only if no other call that found no row is under way
   * and, where it inserts, the rows inserted beside it are answered already.
   */
  lemma AnswerIsLastIff(r: Race, m: Move, key: Key)
    requires CanMove(r, m) && Answers(r, m)
    ensures !CanAnswer(Moved(r, m)) <==>
      if m.Update? then r.started == map[]
      else r.started.Keys == {m.call} && forall i :: 0 <= i < |r.rows| ==> r.rows[i].sent
  {
    var next := Moved(r, m);
    CanAnswerIff(next, key);
    if m.Insert? {
      assert forall i :: 0 <= i < |r.rows| ==> next.rows[i] == r.rows[i];
      assert next.started == map[] <==> next.started.Keys == {};
      assert next.started.Keys == r.started.Keys - {m.call};
    }
  }

  /** Two first events whose snapshots trigger are both answered if neither sees the other's row. */
  lemma BothFirstAnswered(e1: Event, e2: Event) returns (moves: seq<Move>, r': Race)
    requires forall e | e in [e1, e2] ::
               var runs := e.snapshot[e.id := e.status];
               && (forall id :: id in runs ==> runs[id] != PENDING)
               && exists id :: id in runs && runs[id] == FAILURE
    ensures Moves(Race([], map[]), moves, r') && AnswerCount(Race([], map[]), moves) == 2
  {
    assert e1 in [e1, e2] && e2 in [e1, e2];
    var start := Race([], map[]);
    var one, both := start.(started := map[1 := e1]), start.(started := map[1 := e1, 2 := e2]);
    var inserted := Moved(both, Insert(1));
    r' := Moved(inserted, Insert(2));
    MovesCons(inserted, Insert(2), [], r');
    MovesCons(both, Insert(1), [Insert(2)] + [], r');
    MovesCons(one, FindNone(2, e2), [Insert(1)] + ([Insert(2)] + []), r');
    MovesCons(start, FindNone(1, e1), [FindNone(2, e2)] + ([Insert(1)] + ([Insert(2)] + [])), r');
    moves := [FindNone(1, e1)] + ([FindNone(2, e2)] + ([Insert(1)] + ([Insert(2)] + [])));
  }

  // ------------------------------------------------------- the code as a method

  class ProactiveConversationStore {
    var rows: Table

    constructor ()
      ensures rows == map[]
    {
      rows := map[];
    }

    method StoreWorkflowInformation(e: Event) returns (group: Option<Runs>)
      modifies this
      ensures (rows, group) == Handle(old(rows), e)
      ensures forall k :: k != e.key ==> (k in rows <==> k in old(rows)) && (k in rows ==> rows[k] == old(rows)[k])
      ensures e.key in old(rows) && old(rows)[e.key].sent ==> group.None? && rows == old(rows)
      ensures e.key !in old(rows) || !old(rows)[e.key].sent ==>
        && e.key in rows
        && rows[e.key].runs == (if e.key in old(rows) then old(rows)[e.key].runs else e.snapshot)[e.id := e.status]
        && rows[e.key].created == (if e.key in old(rows) then old(rows)[e.key].created else e.now)
        && group == (if rows[e.key].sent then Some(rows[e.key].runs) else None)
        && (rows[e.key].sent <==>
              && (forall id :: id in rows[e.key].runs ==> rows[e.key].runs[id] != PENDING)
              && exists id :: id in rows[e.key].runs && rows[e.key].runs[id] == FAILURE)
    {
      var entry := if e.key in rows then Some(rows[e.key]) else None;
      if entry.Some? && entry.value.sent { return None; }
      var runs := if entry.None? then e.snapshot else entry.value.runs;
      runs := runs[e.id := e.status];
      var created := if entry.None? then e.now else entry.value.created;
      var nonePending := forall id | id in runs :: runs[id] != PENDING;
      var shouldSend := false;
      if nonePending { shouldSend := FAILURE in runs.Values; }
      group := if shouldSend then Some(runs) else None;
      rows := rows[e.key := Entry(runs, shouldSend, created)];
    }

    /** `clean_old_convos`. */
    method CleanOldConvos(now: int, olderThanMinutes: nat)
      modifies this
      ensures rows == Step(old(rows), CleanUp(now, olderThanMinutes))
      ensures forall k :: k in rows <==> k in old(rows) && old(rows)[k].created >= now - olderThanMinutes * 60
      ensures forall k :: k in rows ==> rows[k] == old(rows)[k]
    {
      var cutoff := now - olderThanMinutes * MINUTE;
      rows := map k | k in rows && rows[k].created >= cutoff :: rows[k];
    }
  }
}
