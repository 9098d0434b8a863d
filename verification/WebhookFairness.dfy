/**
 * The GitLab webhook installer: each run takes the 100 pending rows synced longest ago,
 * processes them in order and stamps each one, while other code inserts, resets, updates
 * and deletes rows.  The question is whether every pending row is reached.
 */
module WebhookFairness {
  import opened Prelude

  const CHUNK_SIZE: nat := 100

  type Id = string

  /** `pending`: webhook_exists is false. */
  datatype Hook = Hook(group: Option<string>, project: Option<string>, pending: bool, lastSynced: Option<int>) {
    /** Exactly one of the two ids. */
    predicate WellFormed() { group.Some? != project.Some? }
  }

  datatype World = World(rows: map<Id, Hook>, now: int)

  /** How processing one row ends; `Fails` is any exception other than `BreakLoopException`. */
  datatype Outcome = Deleted | AlreadyThere | Installed | NotInstalled | Fails

  /** One turn of the loop; `stamped` says whether `update_last_synced` got through. */
  datatype Visit = Visit(outcome: Outcome, at: int, stamped: bool)

  datatype Event = Other(next: World) | Process(id: Id, visit: Visit)

  /** Ascending with nulls last, as Postgres orders. */
  predicate NotAfter(a: Option<int>, b: Option<int>) { b.None? || (a.Some? && a.value <= b.value) }

  predicate Pending(w: World, q: Id) { q in w.rows && w.rows[q].pending }

  function PendingRows(w: World): set<Id> { set q | q in w.rows && w.rows[q].pending }

  /** What `filter_rows` may answer; ties come in any order. */
  ghost predicate OldestFirst(w: World, batch: seq<Id>, limit: nat) {
    && Distinct(batch) && |batch| <= limit
    && (forall i :: 0 <= i < |batch| ==> Pending(w, batch[i]))
    && (forall i, j :: 0 <= i < j < |batch| ==> NotAfter(w.rows[batch[i]].lastSynced, w.rows[batch[j]].lastSynced))
    && (forall q :: Pending(w, q) && q !in batch ==>
          |batch| == limit && forall p :: p in batch ==> NotAfter(w.rows[p].lastSynced, w.rows[q].lastSynced))
  }

  /** Anyone else: every row they insert or change carries a current stamp (or none). */
  ghost predicate OthersStep(w: World, w': World) {
    && w'.now >= w.now
    && forall q :: q in w'.rows ==>
         (q in w.rows && w'.rows[q] == w.rows[q]) || NotAfter(Some(w.now), w'.rows[q].lastSynced)
  }

  /**
   * The stamp goes through.  A row without exactly one id is no exception to this: it raises
   * before it is stamped, and the stamping raises as well.
   */
  predicate Stamped(w: World, id: Id, v: Visit) { id in w.rows && w.rows[id].WellFormed() ==> v.stamped }

  predicate AbortsRun(w: World, id: Id, v: Visit) { v.outcome.Fails? || (id in w.rows && !w.rows[id].WellFormed()) }

  function Step(w: World, e: Event): World {
    match e
    case Other(next) => next
    case Process(id, v) =>
      if id !in w.rows || !w.rows[id].WellFormed() then w.(now := v.at)
      else if v.outcome.Deleted? then World(w.rows - {id}, v.at)
      else
        var row := w.rows[id];
        var changed := v.outcome.AlreadyThere? || v.outcome.Installed?;
        World(w.rows[id := row.(
          pending := row.pending && !changed,
          lastSynced := if v.stamped || changed then Some(v.at) else row.lastSynced)], v.at)
  }

  function After(w: World, events: seq<Event>): World
    decreases |events|
  {
    if events == [] then w else After(Step(w, events[0]), events[1..])
  }

  function Processed(events: seq<Event>): seq<Id>
    decreases |events|
  {
    if events == [] then []
    else (if events[0].Process? then [events[0].id] else []) + Processed(events[1..])
  }

  /** Nothing is processed after an exception that is not absorbed. */
  ghost predicate Legal(w: World, events: seq<Event>)
    decreases |events|
  {
    events == [] ||
    (var e := events[0];
     && (match e
         case Other(next) => OthersStep(w, next)
         case Process(id, v) => v.at >= w.now && (AbortsRun(w, id, v) ==> Processed(events[1..]) == []))
     && Legal(Step(w, e), events[1..]))
  }

  ghost predicate AbortsSomewhere(w: World, events: seq<Event>)
    decreases |events|
  {
    events != [] &&
    (|| (events[0].Process? && AbortsRun(w, events[0].id, events[0].visit))
     || AbortsSomewhere(Step(w, events[0]), events[1..]))
  }

  /** One run: the batch is processed in order, to its end unless an exception aborts it. */
  ghost predicate InstallerRun(w: World, batch: seq<Id>, events: seq<Event>) {
    && OldestFirst(w, batch, CHUNK_SIZE) && Legal(w, events)
    && Processed(events) <= batch
    && (!AbortsSomewhere(w, events) ==> Processed(events) == batch)
    && (batch != [] ==> Processed(events) != [])
  }

  // ------------------------------------------------------------- who is ahead of r

  /** The pending rows that may be served before `r`, ties included. */
  function Ahead(w: World, r: Id): set<Id>
    requires r in w.rows
  {
    set q | q in w.rows && q != r && w.rows[q].pending && NotAfter(w.rows[q].lastSynced, w.rows[r].lastSynced)
  }

  /** No malformed row may be served before `r`. */
  ghost predicate ClearAhead(w: World, r: Id)
    requires r in w.rows
  {
    forall q :: q in Ahead(w, r) ==> w.rows[q].WellFormed()
  }

  /** `r` waits: pending, and synced strictly before now. */
  predicate Waits(w: World, r: Id) {
    Pending(w, r) && w.rows[r].lastSynced.Some? && w.rows[r].lastSynced.value < w.now
  }

  /** Nobody else touches `r`; where `stamps` is asked for, stamping does not fail. */
  ghost predicate LeavesAlone(w: World, events: seq<Event>, r: Id, stamps: bool)
    decreases |events|
  {
    events == [] ||
    (var e := events[0];
     && (match e
         case Other(next) => r in w.rows && r in next.rows && next.rows[r] == w.rows[r]
         case Process(id, v) => stamps ==> Stamped(w, id, v))
     && LeavesAlone(Step(w, e), events[1..], r, stamps))
  }

  lemma AheadAfterStep(w: World, e: Event, r: Id)
    requires Waits(w, r) && ClearAhead(w, r) && (e.Process? ==> e.id != r)
    requires match e
             case Other(next) => OthersStep(w, next) && r in next.rows && next.rows[r] == w.rows[r]
             case Process(id, v) => v.at >= w.now && Stamped(w, id, v)
    ensures Waits(Step(w, e), r) && Step(w, e).rows[r] == w.rows[r]
    ensures Ahead(Step(w, e), r) <= Ahead(w, r) && ClearAhead(Step(w, e), r)
    ensures e.Process? ==> e.id !in Ahead(Step(w, e), r)
  {
    var w1 := Step(w, e);
    forall q | q in Ahead(w1, r) ensures q in Ahead(w, r) && w1.rows[q].WellFormed() && !(e.Process? && q == e.id) {
      assert q in w.rows && w1.rows[q] == w.rows[q];
      assert w.rows[q].WellFormed();
    }
  }

  /** Each processed row goes behind `r`, and nothing ever comes before it. */
  lemma {:induction false} AheadShrinks(w: World, events: seq<Event>, r: Id)
    requires Waits(w, r) && ClearAhead(w, r)
    requires Legal(w, events) && LeavesAlone(w, events, r, true) && r !in Processed(events)
    ensures
      var w' := After(w, events);
      && Waits(w', r) && w'.rows[r] == w.rows[r] && ClearAhead(w', r)
      && Ahead(w', r) <= Ahead(w, r)
      && forall q :: q in Processed(events) ==> q !in Ahead(w', r)
    decreases |events|
  {
    if events != [] {
      var e, w1 := events[0], Step(w, events[0]);
      assert forall q :: q in Processed(events[1..]) ==> q in Processed(events);
      if e.Process? {
        assert e.id in Processed(events) by { assert Processed(events)[0] == e.id; }
      }
      AheadAfterStep(w, e, r);
      AheadShrinks(w1, events[1..], r);
      forall q | q in Processed(events) ensures q !in Ahead(After(w, events), r) {
        if q !in Processed(events[1..]) { assert e.Process? && q == e.id; }
      }
    }
  }

  function Elements(s: seq<Id>): set<Id> { set x | x in s }

  lemma {:induction false} DistinctSize(s: seq<Id>)
    requires Distinct(s)
    ensures |Elements(s)| == |s|
    decreases |s|
  {
    if s != [] {
      var before, x := s[..|s| - 1], s[|s| - 1];
      DistinctSize(before);
      assert Elements(s) == Elements(before) + {x};
    }
  }

  /** A run that passes `r` over serves that many rows ahead of it, a full chunk if not aborted. */
  lemma RunThatMissesServesOlder(w: World, batch: seq<Id>, events: seq<Event>, r: Id)
    requires Waits(w, r) && ClearAhead(w, r)
    requires InstallerRun(w, batch, events) && LeavesAlone(w, events, r, true) && r !in Processed(events)
    ensures 1 <= |Processed(events)|
    ensures !AbortsSomewhere(w, events) ==> |Processed(events)| == 100
    ensures r in After(w, events).rows
    ensures |Ahead(After(w, events), r)| + |Processed(events)| <= |Ahead(w, r)|
  {
    var served := Processed(events);
    AheadShrinks(w, events, r);
    assert Pending(w, r);
    forall q | q in served ensures q in Ahead(w, r) {
      var i :| 0 <= i < |served| && served[i] == q;
      assert batch[i] == q;
      if r in batch {
        var j :| 0 <= j < |batch| && batch[j] == r;
        assert j >= |served|;
        assert NotAfter(w.rows[batch[i]].lastSynced, w.rows[batch[j]].lastSynced);
      } else {
        assert q in batch;
      }
    }
    assert Distinct(served);
    DistinctSize(served);
    var gone, left := Elements(served), Ahead(After(w, events), r);
    assert gone !! left;
    SubsetSize(gone + left, Ahead(w, r));
    assert |gone + left| == |gone| + |left|;
  }

  lemma SubsetSize<T>(a: set<T>, b: set<T>)
    requires a <= b
    ensures |a| <= |b|
  {
    assert b == a + (b - a);
  }

  // ---------------------------------------------------------------- over many runs

  /** Events of others, then one installer run. */
  datatype Round = Round(between: seq<Event>, batch: seq<Id>, events: seq<Event>)

  function AfterRound(w: World, round: Round): World { After(After(w, round.between), round.events) }

  ghost predicate LegalRounds(w: World, rounds: seq<Round>, r: Id, stamps: bool)
    decreases |rounds|
  {
    rounds == [] ||
    (var start := After(w, rounds[0].between);
     && Legal(w, rounds[0].between) && Processed(rounds[0].between) == []
     && LeavesAlone(w, rounds[0].between, r, stamps)
     && InstallerRun(start, rounds[0].batch, rounds[0].events)
     && LeavesAlone(start, rounds[0].events, r, stamps)
     && LegalRounds(AfterRound(w, rounds[0]), rounds[1..], r, stamps))
  }

  ghost predicate Reached(rounds: seq<Round>, r: Id) {
    exists i :: 0 <= i < |rounds| && r in Processed(rounds[i].events)
  }

  /** The rows a series of runs must serve: a full chunk per complete run, one per aborted run. */
  ghost function Promised(w: World, rounds: seq<Round>): nat
    decreases |rounds|
  {
    if rounds == [] then 0
    else
      (if AbortsSomewhere(After(w, rounds[0].between), rounds[0].events) then 1 else CHUNK_SIZE)
      + Promised(AfterRound(w, rounds[0]), rounds[1..])
  }

  /** One round that passes `r` over. */
  lemma RoundThatMisses(w: World, round: Round, r: Id)
    requires Waits(w, r) && ClearAhead(w, r)
    requires r !in Processed(round.events) && Processed(round.between) == []
    requires Legal(w, round.between) && LeavesAlone(w, round.between, r, true)
    requires InstallerRun(After(w, round.between), round.batch, round.events)
    requires LeavesAlone(After(w, round.between), round.events, r, true)
    ensures Waits(AfterRound(w, round), r) && ClearAhead(AfterRound(w, round), r)
    ensures |Ahead(AfterRound(w, round), r)| +
              (if AbortsSomewhere(After(w, round.between), round.events) then 1 else CHUNK_SIZE) <= |Ahead(w, r)|
  {
    var start := After(w, round.between);
    AheadShrinks(w, round.between, r);
    SubsetSize(Ahead(start, r), Ahead(w, r));
    RunThatMissesServesOlder(start, round.batch, round.events, r);
    AheadShrinks(start, round.events, r);
  }

  /** While `r` is passed over, what the runs promise has all been ahead of it. */
  lemma {:induction false} PassedOverIsBounded(w: World, rounds: seq<Round>, r: Id)
    requires Waits(w, r) && ClearAhead(w, r) && LegalRounds(w, rounds, r, true) && !Reached(rounds, r)
    ensures Promised(w, rounds) <= |Ahead(w, r)|
    decreases |rounds|
  {
    if rounds != [] {
      assert r !in Processed(rounds[0].events);
      RoundThatMisses(w, rounds[0], r);
      forall i | 0 <= i < |rounds| - 1 ensures r !in Processed(rounds[1..][i].events) {
        assert rounds[1..][i] == rounds[i + 1];
      }
      PassedOverIsBounded(AfterRound(w, rounds[0]), rounds[1..], r);
    }
  }

  /**
   * Starvation freedom: a waiting row with no malformed row ahead is reached as soon as the
   * runs promise at least as many rows as are pending: after ceil(n / 100) complete runs, or
   * n runs of any kind.
   */
  lemma EveryWaitingRowIsReached(w: World, rounds: seq<Round>, r: Id)
    requires Waits(w, r) && ClearAhead(w, r) && LegalRounds(w, rounds, r, true)
    requires Promised(w, rounds) >= |PendingRows(w)|
    ensures Reached(rounds, r)
  {
    if !Reached(rounds, r) {
      PassedOverIsBounded(w, rounds, r);
      assert r in PendingRows(w);
      SubsetSize(Ahead(w, r) + {r}, PendingRows(w));
    }
  }

  lemma {:induction false} PromisedAtLeastOnePerRun(w: World, rounds: seq<Round>)
    ensures Promised(w, rounds) >= |rounds|
    ensures (forall k :: 0 <= k < |rounds| ==> !AbortsSomewhere(StartOf(w, rounds, k), rounds[k].events)) ==>
              Promised(w, rounds) == 100 * |rounds|
    decreases |rounds|
  {
    if rounds != [] {
      var w1 := AfterRound(w, rounds[0]);
      PromisedAtLeastOnePerRun(w1, rounds[1..]);
      if forall k :: 0 <= k < |rounds| ==> !AbortsSomewhere(StartOf(w, rounds, k), rounds[k].events) {
        assert !AbortsSomewhere(StartOf(w, rounds, 0), rounds[0].events);
        forall k | 0 <= k < |rounds| - 1
          ensures !AbortsSomewhere(StartOf(w1, rounds[1..], k), rounds[1..][k].events)
        {
          assert StartOf(w, rounds, k + 1) == StartOf(w1, rounds[1..], k);
        }
      }
    }
  }

  /** The table when the k-th run fetches its batch. */
  function StartOf(w: World, rounds: seq<Round>, k: nat): World
    requires k < |rounds|
    decreases k
  {
    if k == 0 then After(w, rounds[0].between) else StartOf(AfterRound(w, rounds[0]), rounds[1..], k - 1)
  }

  // ---------------------------------------------- what a malformed row does

  /** `m` has neither or both ids, waits, and is older than `r`, if `r` is there at all. */
  ghost predicate Blocks(w: World, m: Id, r: Id) {
    && m != r && Waits(w, m) && !w.rows[m].WellFormed()
    && (r in w.rows ==> !NotAfter(w.rows[r].lastSynced, w.rows[m].lastSynced))
  }

  lemma {:induction false} BlocksStays(w: World, events: seq<Event>, m: Id, r: Id)
    requires Blocks(w, m, r) && Legal(w, events) && LeavesAlone(w, events, m, false)
    ensures Blocks(After(w, events), m, r)
    decreases |events|
  {
    if events != [] {
      BlocksStays(Step(w, events[0]), events[1..], m, r);
    }
  }

  /** Once the malformed row is processed the run is over. */
  lemma {:induction false} BlockedRunEnds(w: World, events: seq<Event>, m: Id, r: Id, k: nat)
    requires Blocks(w, m, r) && Legal(w, events) && LeavesAlone(w, events, m, false)
    requires k < |Processed(events)| && Processed(events)[k] == m
    ensures k == |Processed(events)| - 1
    decreases |events|
  {
    var rest := Processed(events[1..]);
    if events[0].Other? {
      BlockedRunEnds(Step(w, events[0]), events[1..], m, r, k);
    } else if k > 0 {
      assert Processed(events)[k] == rest[k - 1];
      BlockedRunEnds(Step(w, events[0]), events[1..], m, r, k - 1);
    } else {
      assert events[0].id == m;
    }
  }

  lemma BlockedRunMisses(w: World, batch: seq<Id>, events: seq<Event>, m: Id, r: Id)
    requires Blocks(w, m, r) && InstallerRun(w, batch, events) && LeavesAlone(w, events, m, false)
    ensures r !in Processed(events)
  {
    var served := Processed(events);
    if r in served {
      var j :| 0 <= j < |served| && served[j] == r;
      assert batch[j] == r && Pending(w, r) && Pending(w, m);
      assert m in batch;
      var i :| 0 <= i < |batch| && batch[i] == m;
      if i < j {
        assert served[i] == m;
        BlockedRunEnds(w, events, m, r, i);
      }
    }
  }

  /**
   * A malformed row starves every row younger than it, in every schedule that leaves the
   * malformed row alone, whatever else happens to the younger one.
   */
  lemma {:induction false} PoisonStarvesTheRest(w: World, rounds: seq<Round>, m: Id, r: Id)
    requires Blocks(w, m, r) && LegalRounds(w, rounds, m, false)
    ensures !Reached(rounds, r)
    decreases |rounds|
  {
    if rounds != [] {
      var start := After(w, rounds[0].between);
      BlocksStays(w, rounds[0].between, m, r);
      BlockedRunMisses(start, rounds[0].batch, rounds[0].events, m, r);
      BlocksStays(start, rounds[0].events, m, r);
      PoisonStarvesTheRest(AfterRound(w, rounds[0]), rounds[1..], m, r);
      assert forall k :: 0 < k < |rounds| ==> rounds[k] == rounds[1..][k - 1];
    }
  }

  // ------------------------------------------------- the exact condition for being reached

  /** Every schedule that promises all pending rows and leaves `r` alone reaches `r`. */
  ghost predicate AlwaysReached(w: World, r: Id) {
    forall rounds ::
      LegalRounds(w, rounds, r, true) && Promised(w, rounds) >= |PendingRows(w)| ==> Reached(rounds, r)
  }

  /** The round in which all rows but `m` and `r` have been deleted and `m` ends the run. */
  function StuckRound(w: World, m: Id, r: Id): Round {
    var only := World(map q | q in w.rows && (q == m || q == r) :: w.rows[q], w.now);
    Round([Other(only)], [m, r], [Process(m, Visit(NotInstalled, w.now, true))])
  }

  lemma StuckRoundIsLegal(w: World, m: Id, r: Id)
    requires Waits(w, r) && m in Ahead(w, r) && !w.rows[m].WellFormed()
    ensures
      var round := StuckRound(w, m, r);
      var start := After(w, round.between);
      && Legal(w, round.between) && Processed(round.between) == [] && LeavesAlone(w, round.between, r, true)
      && InstallerRun(start, round.batch, round.events) && LeavesAlone(start, round.events, r, true)
      && AbortsSomewhere(start, round.events) && Processed(round.events) == [m]
      && AfterRound(w, round) == start
      && Waits(start, r) && m in Ahead(start, r) && !start.rows[m].WellFormed()
  {
    var round := StuckRound(w, m, r);
    var start := round.between[0].next;
    assert round.between[1..] == [] && round.events[1..] == [];
    assert Step(w, round.between[0]) == start && After(w, round.between) == start;
    assert Step(start, round.events[0]) == start && After(start, round.events) == start;
    assert Processed(round.events) == [m] + Processed([]);
    assert OldestFirst(start, [m, r], CHUNK_SIZE);
  }

  /** With a malformed row that may be served first, `r` can be missed by any number of runs. */
  lemma {:induction false} CanBeMissed(w: World, m: Id, r: Id, runs: nat) returns (rounds: seq<Round>)
    requires Waits(w, r) && m in Ahead(w, r) && !w.rows[m].WellFormed()
    ensures LegalRounds(w, rounds, r, true) && Promised(w, rounds) >= runs && !Reached(rounds, r)
    decreases runs
  {
    if runs == 0 {
      rounds := [];
    } else {
      StuckRoundIsLegal(w, m, r);
      var round := StuckRound(w, m, r);
      var rest := CanBeMissed(AfterRound(w, round), m, r, runs - 1);
      rounds := [round] + rest;
      assert rounds[1..] == rest;
    }
  }

  /** A waiting row is reached in every schedule if and only if no malformed row is ahead of it. */
  lemma ReachedIffNoMalformedAhead(w: World, r: Id)
    requires Waits(w, r)
    ensures AlwaysReached(w, r) <==> ClearAhead(w, r)
  {
    if ClearAhead(w, r) {
      forall rounds | LegalRounds(w, rounds, r, true) && Promised(w, rounds) >= |PendingRows(w)|
        ensures Reached(rounds, r)
      {
        EveryWaitingRowIsReached(w, rounds, r);
      }
    } else {
      var m :| m in Ahead(w, r) && !w.rows[m].WellFormed();
      var rounds := CanBeMissed(w, m, r, |PendingRows(w)|);
      assert LegalRounds(w, rounds, r, true);
    }
  }

  // ------------------------------------------------------- the code as methods

  lemma NothingYet(w: World)
    ensures Legal(w, []) && After(w, []) == w && Processed([]) == [] && !AbortsSomewhere(w, [])
  {
  }

  lemma {:induction false} LegalSnoc(w: World, events: seq<Event>, e: Event)
    requires Legal(w, events) && Legal(After(w, events), [e])
    requires e.Process? ==> !AbortsSomewhere(w, events)
    ensures Legal(w, events + [e]) && After(w, events + [e]) == Step(After(w, events), e)
    ensures Processed(events + [e]) == Processed(events) + Processed([e])
    ensures AbortsSomewhere(w, events + [e]) <==>
              AbortsSomewhere(w, events) || (e.Process? && AbortsRun(After(w, events), e.id, e.visit))
    decreases |events|
  {
    if events == [] {
      assert [e][1..] == [] && events + [e] == [e];
    } else {
      LegalSnoc(Step(w, events[0]), events[1..], e);
      assert (events + [e])[1..] == events[1..] + [e];
      if events[0].Process? && AbortsRun(w, events[0].id, events[0].visit) {
        assert Processed(events[1..] + [e]) == [];
      }
    }
  }

  /** An entry to store, with the row id the table would give it. */
  datatype Detail = Detail(id: Id, group: Option<string>, project: Option<string>, installed: bool)

  function NewHook(detail: Detail, now: int): Hook {
    Hook(detail.group, detail.project, !detail.installed, Some(now))
  }

  predicate GroupTaken(rows: map<Id, Hook>, group: Option<string>) {
    group.Some? && exists q | q in rows :: rows[q].group == group
  }

  predicate ProjectTaken(rows: map<Id, Hook>, project: Option<string>) {
    project.Some? && exists q | q in rows :: rows[q].project == project
  }

  /** The two unique constraints of the table. */
  ghost predicate UniqueIds(rows: map<Id, Hook>) {
    forall p, q :: p in rows && q in rows && p != q ==>
      && (rows[p].group.Some? ==> rows[p].group != rows[q].group)
      && (rows[p].project.Some? ==> rows[p].project != rows[q].project)
  }

  ghost predicate DistinctIds(details: seq<Detail>) {
    forall i, j :: 0 <= i < j < |details| ==> details[i].id != details[j].id
  }

  /** What is there under the id of an entry is that entry. */
  ghost predicate OwnRows(w: World, details: seq<Detail>) {
    forall i :: 0 <= i < |details| && details[i].id in w.rows ==> w.rows[details[i].id] == NewHook(details[i], w.now)
  }

  /** The rows before are kept, and every other is one of the entries, stored now. */
  ghost predicate OnlyAdds(w: World, w': World, details: seq<Detail>) {
    && w'.now == w.now
    && (forall q :: q in w.rows ==> q in w'.rows && w'.rows[q] == w.rows[q])
    && (forall q :: q in w'.rows && q !in w.rows ==> exists i :: Adds(w', details, i, q))
  }

  ghost predicate Adds(w: World, details: seq<Detail>, i: int, q: Id)
    requires q in w.rows
  {
    && 0 <= i < |details| && details[i].id == q && w.rows[q] == NewHook(details[i], w.now)
    && (details[i].group.Some? || details[i].project.Some?)
  }

  lemma AddingIsAStep(w: World, w': World, details: seq<Detail>)
    requires OnlyAdds(w, w', details)
    ensures OthersStep(w, w')
  {
    forall q | q in w'.rows && q !in w.rows ensures NotAfter(Some(w.now), w'.rows[q].lastSynced) {
      var i :| Adds(w', details, i, q);
    }
  }

  lemma AddsOne(start: World, w: World, details: seq<Detail>, k: nat)
    requires OnlyAdds(start, w, details) && k < |details| && details[k].id !in w.rows
    requires details[k].group.Some? || details[k].project.Some?
    ensures OnlyAdds(start, w.(rows := w.rows[details[k].id := NewHook(details[k], w.now)]), details)
  {
    var w' := w.(rows := w.rows[details[k].id := NewHook(details[k], w.now)]);
    forall q | q in w'.rows && q !in start.rows ensures exists i :: Adds(w', details, i, q) {
      if q == details[k].id {
        assert Adds(w', details, k, q);
      } else {
        var i :| Adds(w, details, i, q);
        assert Adds(w', details, i, q);
      }
    }
  }

  /** An entry with both ids one of which is known, from before or from another entry. */
  ghost predicate Clashes(rows: map<Id, Hook>, details: seq<Detail>, k: int) {
    && 0 <= k < |details| && details[k].group.Some? && details[k].project.Some?
    && (|| (exists q :: q in rows && (rows[q].group == details[k].group || rows[q].project == details[k].project))
        || (exists j :: 0 <= j < |details| && j != k && SharesId(details[j], details[k])))
  }

  predicate SharesId(d: Detail, e: Detail) { d.group == e.group || d.project == e.project }

  /** A taken id is an old row's or another entry's. */
  lemma TakenClashes(start: World, w: World, details: seq<Detail>, k: nat)
    requires OnlyAdds(start, w, details) && k < |details| && details[k].id !in w.rows
    requires details[k].group.Some? && details[k].project.Some?
    requires GroupTaken(w.rows, details[k].group) || ProjectTaken(w.rows, details[k].project)
    ensures Clashes(start.rows, details, k)
  {
    var q :| q in w.rows && (w.rows[q].group == details[k].group || w.rows[q].project == details[k].project);
    if q !in start.rows {
      var j :| Adds(w, details, j, q);
      assert SharesId(details[j], details[k]);
    }
  }

  /** Every entry has its id in the table. */
  ghost predicate AllTaken(rows: map<Id, Hook>, details: seq<Detail>, n: nat, byGroup: bool) {
    forall i :: 0 <= i < |details| && i < n ==>
      if byGroup then details[i].group.Some? ==> GroupTaken(rows, details[i].group)
      else details[i].project.Some? ==> ProjectTaken(rows, details[i].project)
  }

  lemma TakenStays(w: World, w': World, details: seq<Detail>, n: nat, byGroup: bool)
    requires AllTaken(w.rows, details, n, byGroup)
    requires forall q :: q in w.rows ==> q in w'.rows && w'.rows[q] == w.rows[q]
    ensures AllTaken(w'.rows, details, n, byGroup)
  {
    forall i | 0 <= i < |details| && i < n
      ensures if byGroup then details[i].group.Some? ==> GroupTaken(w'.rows, details[i].group)
              else details[i].project.Some? ==> ProjectTaken(w'.rows, details[i].project)
    {
      if byGroup && details[i].group.Some? {
        var q :| q in w.rows && w.rows[q].group == details[i].group;
        assert w'.rows[q].group == details[i].group;
      } else if !byGroup && details[i].project.Some? {
        var q :| q in w.rows && w.rows[q].project == details[i].project;
        assert w'.rows[q].project == details[i].project;
      }
    }
  }

  /** The turn of a row with exactly one id ends with the webhook in place or the row deleted. */
  predicate Settles(w: World, q: Id, outcome: Outcome) {
    && (q in w.rows ==> w.rows[q].group.Some? != w.rows[q].project.Some?)
    && (outcome.Deleted? || outcome.AlreadyThere? || outcome.Installed?)
  }

  class GitlabWebhookStore {
    var world: World

    constructor (w: World)
      ensures world == w
    {
      world := w;
    }

    method PassTime(now: int)
      requires now >= world.now
      modifies this
      ensures world == old(world).(now := now)
    {
      world := world.(now := now);
    }

    /**
     * `store_webhooks`, in one transaction: first the entries with a group, then those with a
     * project.  A known id is skipped by the statement for that id; it makes the other one
     * raise, which only an entry with both ids can do.
     */
    method StoreWebhooks(details: seq<Detail>) returns (ok: bool)
      requires UniqueIds(world.rows) && DistinctIds(details)
      requires forall i :: 0 <= i < |details| ==> details[i].id !in world.rows
      modifies this
      ensures OthersStep(old(world), world) && UniqueIds(world.rows)
      ensures !ok ==> world == old(world)
      ensures world.now == old(world).now
      ensures forall q :: q in old(world).rows ==> q in world.rows && world.rows[q] == old(world).rows[q]
      ensures forall q :: q in world.rows && q !in old(world).rows ==>
        exists i :: 0 <= i < |details| && details[i].id == q && world.rows[q]
          == Hook(details[i].group, details[i].project, !details[i].installed, Some(world.now))
      ensures ok ==> forall i :: 0 <= i < |details| && details[i].group.Some? ==>
        exists q :: q in world.rows && world.rows[q].group == details[i].group
      ensures ok ==> forall i :: 0 <= i < |details| && details[i].project.Some? ==>
        exists q :: q in world.rows && world.rows[q].project == details[i].project
      ensures !ok ==> exists k :: Clashes(old(world).rows, details, k)
    {
      var before := world;
      ok := InsertBatch(details, true, before);
      if ok {
        ghost var mid := world;
        ok := InsertBatch(details, false, before);
        TakenStays(mid, world, details, |details|, true);
      }
      if !ok { world := before; }
      AddingIsAStep(before, world, details);
    }

    /** One INSERT ... ON CONFLICT DO NOTHING on the group id, or on the project id. */
    method InsertBatch(details: seq<Detail>, byGroup: bool, ghost start: World) returns (ok: bool)
      requires UniqueIds(world.rows) && DistinctIds(details) && OwnRows(world, details)
      requires OnlyAdds(start, world, details)
      modifies this
      ensures UniqueIds(world.rows) && OwnRows(world, details) && OnlyAdds(start, world, details)
      ensures forall q :: q in old(world).rows ==> q in world.rows && world.rows[q] == old(world).rows[q]
      ensures ok ==> AllTaken(world.rows, details, |details|, byGroup)
      ensures !ok ==> exists k :: Clashes(start.rows, details, k)
    {
      hide OnlyAdds, Clashes, UniqueIds, OwnRows, DistinctIds;
      for k := 0 to |details|
        invariant UniqueIds(world.rows) && OwnRows(world, details) && OnlyAdds(start, world, details)
        invariant forall q :: q in old(world).rows ==> q in world.rows && world.rows[q] == old(world).rows[q]
        invariant AllTaken(world.rows, details, k, byGroup)
      {
        ghost var mid := world;
        ok := InsertOne(details, k, byGroup, start);
        if !ok { return; }
        TakenStays(mid, world, details, k, byGroup);
      }
      ok := true;
    }

    method InsertOne(details: seq<Detail>, k: nat, byGroup: bool, ghost start: World) returns (ok: bool)
      requires UniqueIds(world.rows) && DistinctIds(details) && OwnRows(world, details) && k < |details|
      requires OnlyAdds(start, world, details)
      modifies this
      ensures UniqueIds(world.rows) && OwnRows(world, details) && OnlyAdds(start, world, details)
      ensures forall q :: q in old(world).rows ==> q in world.rows && world.rows[q] == old(world).rows[q]
      ensures ok && byGroup && details[k].group.Some? ==> GroupTaken(world.rows, details[k].group)
      ensures ok && !byGroup && details[k].project.Some? ==> ProjectTaken(world.rows, details[k].project)
      ensures !ok ==> world == old(world) && Clashes(start.rows, details, k)
    {
      hide OnlyAdds, Clashes;
      var detail := details[k];
      var absent := if byGroup then detail.group.None? else detail.project.None?;
      var known := if byGroup then GroupTaken(world.rows, detail.group) else ProjectTaken(world.rows, detail.project);
      if absent || known { return true; }
      assert detail.id !in world.rows;
      if GroupTaken(world.rows, detail.group) || ProjectTaken(world.rows, detail.project) {
        TakenClashes(start, world, details, k);
        return false;
      }
      AddsOne(start, world, details, k);
      world := world.(rows := world.rows[detail.id := NewHook(detail, world.now)]);
      ok := true;
    }

    /** `reset_webhook_for_reinstallation_by_resource`: pending again, and at the back of the queue. */
    method ResetForReinstallation(id: Id) returns (found: bool)
      modifies this
      ensures OthersStep(old(world), world) && found == (id in old(world).rows)
      ensures world == if found
        then old(world).(rows := old(world).rows[
          id := old(world).rows[id].(pending := true, lastSynced := Some(old(world).now))])
        else old(world)
    {
      found := id in world.rows;
      if found {
        world := world.(rows := world.rows[id := world.rows[id].(pending := true, lastSynced := Some(world.now))]);
      }
    }

    /** `filter_rows`: pending rows, oldest first, at most `limit`. */
    method FilterRows(limit: nat) returns (batch: seq<Id>)
      ensures OldestFirst(world, batch, limit)
      ensures Distinct(batch) && |batch| <= limit
      ensures forall q :: q in batch ==> q in world.rows && world.rows[q].pending
      ensures forall i, j | 0 <= i < j < |batch| ::
        var before, after := world.rows[batch[i]].lastSynced, world.rows[batch[j]].lastSynced;
        after.None? || (before.Some? && before.value <= after.value)
      ensures forall q | q in world.rows && world.rows[q].pending && q !in batch ::
        && |batch| == limit
        && forall p | p in batch ::
             var served, left := world.rows[p].lastSynced, world.rows[q].lastSynced;
             left.None? || (served.Some? && served.value <= left.value)
    {
      batch := [];
      var todo := PendingRows(world);
      while todo != {} && |batch| < limit
        invariant Distinct(batch) && |batch| <= limit
        invariant forall i :: 0 <= i < |batch| ==> Pending(world, batch[i]) && batch[i] !in todo
        invariant forall q :: Pending(world, q) ==> q in batch || q in todo
        invariant forall q :: q in todo ==> Pending(world, q)
        invariant forall i, q :: 0 <= i < |batch| && q in todo ==>
          NotAfter(world.rows[batch[i]].lastSynced, world.rows[q].lastSynced)
        invariant forall i, j :: 0 <= i < j < |batch| ==>
          NotAfter(world.rows[batch[i]].lastSynced, world.rows[batch[j]].lastSynced)
        decreases todo
      {
        var q := Oldest(world, todo);
        DistinctAppend(batch, q);
        batch := batch + [q];
        todo := todo - {q};
      }
    }

    static method Oldest(w: World, ids: set<Id>) returns (oldest: Id)
      requires ids != {} && ids <= w.rows.Keys
      ensures oldest in ids && forall q :: q in ids ==> NotAfter(w.rows[oldest].lastSynced, w.rows[q].lastSynced)
    {
      oldest :| oldest in ids;
      var todo := ids - {oldest};
      while todo != {}
        invariant oldest in ids && todo <= ids
        invariant forall q :: q in ids - todo ==> NotAfter(w.rows[oldest].lastSynced, w.rows[q].lastSynced)
        decreases todo
      {
        var q :| q in todo;
        if !NotAfter(w.rows[oldest].lastSynced, w.rows[q].lastSynced) { oldest := q; }
        todo := todo - {q};
      }
    }

    /**
     * `install_webhooks`: fetch a chunk and loop over it; before the i-th row others do
     * `env[i]`, and `visits[i]` is how that row goes.  `met[i]` is the table at its turn: a row
     * that has a webhook by then, or goes, is not pending at the end unless others reset it.
     */
    method InstallWebhooks(env: seq<World>, visits: seq<Visit>)
      returns (batch: seq<Id>, done: nat, ghost events: seq<Event>, ghost met: seq<World>)
      requires |env| == |visits| == 100
      modifies this
      ensures InstallerRun(old(world), batch, events) && world == After(old(world), events)
      ensures done <= |batch| && Processed(events) == batch[..done] && |met| == done
      ensures forall k :: 0 <= k < done && Settles(met[k], batch[k], visits[k].outcome) ==>
        (forall j :: k < j < done && batch[k] in env[j].rows ==> !env[j].rows[batch[k]].pending) ==>
          (batch[k] in world.rows ==> !world.rows[batch[k]].pending)
    {
      hide Legal, After, AbortsSomewhere, Processed, Step;
      batch := FilterRows(CHUNK_SIZE);
      events, met := [], [];
      NothingYet(world);
      done := 0;
      while done < |batch|
        invariant done <= |batch| && Processed(events) == batch[..done]
        invariant Legal(old(world), events) && world == After(old(world), events)
        invariant !AbortsSomewhere(old(world), events)
        invariant |met| == done
        invariant forall k :: 0 <= k < done && Settles(met[k], batch[k], visits[k].outcome) ==>
          (forall j :: k < j < done && batch[k] in env[j].rows ==> !env[j].rows[batch[k]].pending) ==>
            (batch[k] in world.rows ==> !world.rows[batch[k]].pending)
      {
        events := OthersAct(env[done], old(world), events);
        var visit := visits[done].(at := if visits[done].at >= world.now then visits[done].at else world.now);
        met := met + [world];
        var aborts := ProcessRow(batch[done], visit, old(world), events);
        events := events + [Process(batch[done], visit)];
        assert batch[..done + 1] == batch[..done] + [batch[done]];
        done := done + 1;
        if aborts { return; }
      }
      assert batch[..done] == batch;
    }

    /** Other code changes the table, if the change is one it can make. */
    method OthersAct(next: World, ghost start: World, ghost before: seq<Event>) returns (ghost events: seq<Event>)
      requires Legal(start, before) && world == After(start, before) && !AbortsSomewhere(start, before)
      modifies this
      ensures Legal(start, events) && world == After(start, events) && !AbortsSomewhere(start, events)
      ensures Processed(events) == Processed(before)
      ensures world == old(world) || world == next
      ensures OthersStep(old(world), next) ==> world == next
    {
      events := before;
      var clash := exists q | q in next.rows ::
        !(q in world.rows && next.rows[q] == world.rows[q]) && !NotAfter(Some(world.now), next.rows[q].lastSynced);
      if world.now <= next.now && !clash {
        assert [Other(next)][1..] == [];
        LegalSnoc(start, before, Other(next));
        assert Processed([Other(next)]) == [];
        events := before + [Other(next)];
        world := next;
      }
    }

    /** The `try` body and its `finally`; true when the exception goes on. */
    method ProcessRow(id: Id, v: Visit, ghost start: World, ghost before: seq<Event>) returns (aborts: bool)
      requires v.at >= world.now
      requires Legal(start, before) && world == After(start, before) && !AbortsSomewhere(start, before)
      modifies this
      ensures world == Step(old(world), Process(id, v)) && world.now == v.at
      ensures world.rows ==
        var rows := old(world).rows;
        if id !in rows || rows[id].group.Some? == rows[id].project.Some? then rows
        else if v.outcome.Deleted? then rows - {id}
        else if v.outcome.AlreadyThere? || v.outcome.Installed?
        then rows[id := Hook(rows[id].group, rows[id].project, false, Some(v.at))]
        else if v.stamped then rows[id := Hook(rows[id].group, rows[id].project, rows[id].pending, Some(v.at))]
        else rows
      ensures aborts <==>
        var rows := old(world).rows;
        v.outcome.Fails? || (id in rows && rows[id].group.Some? == rows[id].project.Some?)
      ensures Legal(start, before + [Process(id, v)]) && world == After(start, before + [Process(id, v)])
      ensures Processed(before + [Process(id, v)]) == Processed(before) + [id]
      ensures AbortsSomewhere(start, before + [Process(id, v)]) <==> aborts
    {
      LegalSnoc(start, before, Process(id, v));
      world := world.(now := v.at);
      if id in world.rows {
        if !world.rows[id].WellFormed() {
          // raises in the try body, and again inside the finally, where it is swallowed
          return true;
        }
        match v.outcome {
          case Deleted =>
            world := world.(rows := world.rows - {id});
          case AlreadyThere =>
            world := world.(rows := world.rows[id := world.rows[id].(pending := false, lastSynced := Some(v.at))]);
          case Installed =>
            world := world.(rows := world.rows[id := world.rows[id].(pending := false, lastSynced := Some(v.at))]);
          case _ =>
        }
        if v.stamped && id in world.rows {
          world := world.(rows := world.rows[id := world.rows[id].(lastSynced := Some(v.at))]);
        }
      }
      aborts := v.outcome.Fails?;
    }
  }

  /** One entry whose ids nobody has. */
  method StoreAlone(store: GitlabWebhookStore, detail: Detail)
    requires UniqueIds(store.world.rows) && detail.id !in store.world.rows
    requires detail.group.Some? && !GroupTaken(store.world.rows, detail.group)
    requires !ProjectTaken(store.world.rows, detail.project)
    modifies store
    ensures UniqueIds(store.world.rows) && store.world.now == old(store.world.now)
    ensures store.world.rows == old(store.world.rows)[detail.id := NewHook(detail, store.world.now)]
  {
    var ok := store.StoreWebhooks([detail]);
    assert !Clashes(old(store.world.rows), [detail], 0);
    assert [detail][0].group.Some? && GroupTaken(store.world.rows, detail.group);
    ghost var q :| q in store.world.rows && store.world.rows[q].group == detail.group;
    ghost var i :| Adds(store.world, [detail], i, q);
  }

  /**
   * Two stores reach such a state from the empty table: first an entry with both ids, later
   * one with a single id, which is then never reached while the first row stays.
   */
  method MalformedRowBlocks(now: int) returns (store: GitlabWebhookStore)
    ensures fresh(store) && Blocks(store.world, "m", "r") && Waits(store.world, "r")
    ensures !AlwaysReached(store.world, "r")
    ensures forall rounds :: LegalRounds(store.world, rounds, "m", false) ==> !Reached(rounds, "r")
  {
    store := new GitlabWebhookStore(World(map[], now));
    StoreAlone(store, Detail("m", Some("g"), Some("p"), false));
    store.PassTime(now + 1);
    StoreAlone(store, Detail("r", Some("h"), None, false));
    store.PassTime(now + 2);
    assert "m" in Ahead(store.world, "r");
    ReachedIffNoMalformedAhead(store.world, "r");
    forall rounds | LegalRounds(store.world, rounds, "m", false) ensures !Reached(rounds, "r") {
      PoisonStarvesTheRest(store.world, rounds, "m", "r");
    }
  }
}
