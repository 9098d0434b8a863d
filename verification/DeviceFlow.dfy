/**
 * OAuth 2.0 device flow: the device-code row, its store, and the polling limit of
 * section 3.5 of RFC 8628.  Times are whole microseconds, as datetimes are; each call reads
 * the clock it is given.
 */
module DeviceFlow {
  import opened Prelude

  datatype Status = PENDING | AUTHORIZED | EXPIRED | DENIED

  datatype Row = Row(
    userCode: string, status: Status, userId: Option<string>, expiresAt: int,
    lastPoll: Option<int>, interval: int)

  const SECOND: int := 1000000
  const INITIAL_INTERVAL: int := 5
  const INTERVAL_STEP: int := 5
  const MAX_INTERVAL: int := 60

  function Slower(interval: int): int {
    if interval + INTERVAL_STEP <= MAX_INTERVAL then interval + INTERVAL_STEP else MAX_INTERVAL
  }

  predicate PendingAt(row: Row, now: int) { row.status.PENDING? && now <= row.expiresAt }

  // ------------------------------------------------------------------ the row object

  class DeviceCode {
    var userCode: string
    var status: Status
    var userId: Option<string>
    var expiresAt: int
    var lastPoll: Option<int>
    var interval: int

    function Persisted(): Row reads this { Row(userCode, status, userId, expiresAt, lastPoll, interval) }

    constructor (row: Row)
      ensures Persisted() == row
    {
      userCode, status, userId := row.userCode, row.status, row.userId;
      expiresAt, lastPoll, interval := row.expiresAt, row.lastPoll, row.interval;
    }

    predicate IsExpired(now: int) reads this { now > expiresAt }

    predicate IsPending(now: int) reads this
      ensures IsPending(now) <==> status == PENDING && now <= expiresAt
    {
      status == PENDING && !IsExpired(now)
    }

    method Authorize(user: string)
      modifies this`status, this`userId
      ensures Persisted() == old(Persisted()).(status := AUTHORIZED, userId := Some(user))
    {
      status := AUTHORIZED;
      userId := Some(user);
    }

    method Deny()
      modifies this`status
      ensures Persisted() == old(Persisted()).(status := DENIED)
    {
      status := DENIED;
    }

    /** Too fast, and the interval to announce. */
    method CheckRateLimit(now: int) returns (tooFast: bool, announced: int)
      ensures tooFast <==> lastPoll.Some? && now - lastPoll.value < interval * 1000000
      ensures announced == if !tooFast then interval else if interval + 5 <= 60 then interval + 5 else 60
    {
      if lastPoll.None? { return false, interval; }
      var sinceLastPoll := now - lastPoll.value;
      if sinceLastPoll < interval * SECOND {
        var longer := interval + INTERVAL_STEP;
        return true, if longer < MAX_INTERVAL then longer else MAX_INTERVAL;
      }
      return false, interval;
    }

    method UpdatePollTime(now: int, increaseInterval: bool)
      modifies this`lastPoll, this`interval
      ensures Persisted() == old(Persisted()).(
        lastPoll := Some(now),
        interval := if !increaseInterval then old(interval) else if old(interval) <= 55 then old(interval) + 5 else 60)
    {
      lastPoll := Some(now);
      if increaseInterval {
        interval := if interval + INTERVAL_STEP < MAX_INTERVAL then interval + INTERVAL_STEP else MAX_INTERVAL;
      }
    }
  }

  // ---------------------------------------------------------------------- the polls

  /** The route checks the limit at `checked` and records the poll at `recorded`. */
  datatype Poll = Poll(checked: int, recorded: int)

  predicate TooFast(row: Row, p: Poll) { row.lastPoll.Some? && p.checked - row.lastPoll.value < row.interval * SECOND }

  function Polled(row: Row, p: Poll): Row {
    row.(lastPoll := Some(p.recorded), interval := if TooFast(row, p) then Slower(row.interval) else row.interval)
  }

  function PolledAll(row: Row, polls: seq<Poll>): Row
    decreases |polls|
  {
    if polls == [] then row else PolledAll(Polled(row, polls[0]), polls[1..])
  }

  function SlowDowns(row: Row, polls: seq<Poll>): nat
    decreases |polls|
  {
    if polls == [] then 0
    else (if TooFast(row, polls[0]) then 1 else 0) + SlowDowns(Polled(row, polls[0]), polls[1..])
  }

  /** Poll `j` of the run was let through. */
  ghost predicate Accepted(row: Row, polls: seq<Poll>, j: nat)
    requires j < |polls|
  {
    !TooFast(PolledAll(row, polls[..j]), polls[j])
  }

  /** One poll is recorded before the next one is checked. */
  ghost predicate InOrder(polls: seq<Poll>) {
    && (forall i :: 0 <= i < |polls| ==> polls[i].checked <= polls[i].recorded)
    && (forall i, j :: 0 <= i < j < |polls| ==> polls[i].recorded <= polls[j].checked)
  }

  function Capped(k: nat): int {
    if INITIAL_INTERVAL + INTERVAL_STEP * k <= MAX_INTERVAL then INITIAL_INTERVAL + INTERVAL_STEP * k else MAX_INTERVAL
  }

  /** After k slow-downs the interval is `min(5 + 5k, 60)`. */
  lemma {:induction false} IntervalCountsSlowDowns(row: Row, polls: seq<Poll>, before: nat)
    requires row.interval == Capped(before)
    ensures PolledAll(row, polls).interval == Capped(before + SlowDowns(row, polls))
    decreases |polls|
  {
    if polls != [] {
      var n := before + if TooFast(row, polls[0]) then 1 else 0;
      IntervalCountsSlowDowns(Polled(row, polls[0]), polls[1..], n);
    }
  }

  /** In plain numbers, for a fresh code. */
  lemma IntervalAfterSlowDowns(row: Row, polls: seq<Poll>)
    requires row.interval == 5
    ensures
      var k := SlowDowns(row, polls);
      PolledAll(row, polls).interval == if 5 + 5 * k <= 60 then 5 + 5 * k else 60
  {
    IntervalCountsSlowDowns(row, polls, 0);
  }

  lemma {:induction false} PolledLast(row: Row, polls: seq<Poll>, p: Poll)
    ensures PolledAll(row, polls + [p]) == Polled(PolledAll(row, polls), p)
    decreases |polls|
  {
    if polls == [] {
      assert polls + [p] == [p];
    } else {
      assert (polls + [p])[1..] == polls[1..] + [p];
      PolledLast(Polled(row, polls[0]), polls[1..], p);
    }
  }

  /**
   * An accepted poll comes at least the interval then in force after every earlier poll,
   * the refused ones included.
   */
  lemma AcceptedKeepsTheInterval(row: Row, polls: seq<Poll>, i: nat, j: nat)
    requires InOrder(polls) && i < j < |polls| && Accepted(row, polls, j)
    ensures polls[j].checked - polls[i].recorded >= PolledAll(row, polls[..j]).interval * 1000000
  {
    assert polls[..j] == polls[..j - 1] + [polls[j - 1]];
    PolledLast(row, polls[..j - 1], polls[j - 1]);
    assert i < j - 1 ==> polls[i].recorded <= polls[j - 1].checked <= polls[j - 1].recorded;
  }

  lemma AcceptedFiveApart(row: Row, polls: seq<Poll>, i: nat, j: nat)
    requires row.interval == INITIAL_INTERVAL && InOrder(polls)
    requires i < j < |polls| && Accepted(row, polls, j)
    ensures polls[j].checked - polls[i].checked >= INITIAL_INTERVAL * SECOND
  {
    AcceptedKeepsTheInterval(row, polls, i, j);
    IntervalCountsSlowDowns(row, polls[..j], 0);
  }

  /**
   * In any window of `span` microseconds at most `span / 5 s + 1` polls of one code are
   * accepted: `picks` are the accepted polls inside the window.
   */
  lemma WindowAccepts(row: Row, polls: seq<Poll>, picks: seq<nat>, from: int, span: int)
    requires row.interval == 5 && InOrder(polls) && picks != []
    requires forall n :: 0 <= n < |picks| ==> picks[n] < |polls| && Accepted(row, polls, picks[n])
    requires forall n :: 0 <= n < |picks| ==> from <= polls[picks[n]].checked <= from + span
    requires forall n :: 0 < n < |picks| ==> picks[n - 1] < picks[n]
    ensures (|picks| - 1) * 5000000 <= span
  {
    var times := seq(|picks|, n requires 0 <= n < |picks| => polls[picks[n]].checked);
    forall n | 0 < n < |times| ensures times[n] - times[n - 1] >= INITIAL_INTERVAL * SECOND {
      AcceptedFiveApart(row, polls, picks[n - 1], picks[n]);
    }
    SpacedWindow(times, INITIAL_INTERVAL * SECOND, from, span);
  }

  // ---------------------------------------------------------------------- the store

  /** The table, by device code. */
  type Table = map<string, Row>

  ghost predicate UniqueUserCodes(t: Table) {
    forall c, d :: c in t && d in t && t[c].userCode == t[d].userCode ==> c == d
  }

  datatype Op =
    | Insert(deviceCode: string, row: Row)
    | AuthorizeCode(userCode: string, userId: string, now: int)
    | DenyCode(userCode: string, now: int)
    | RecordPoll(deviceCode: string, now: int, increase: bool)

  function Decide(row: Row, op: Op): Row {
    match op
    case AuthorizeCode(userCode, userId, now) =>
      if row.userCode == userCode && PendingAt(row, now) then row.(status := AUTHORIZED, userId := Some(userId))
      else row
    case DenyCode(userCode, now) =>
      if row.userCode == userCode && PendingAt(row, now) then row.(status := DENIED) else row
    case _ => row
  }

  function After(t: Table, op: Op): Table {
    match op
    case Insert(deviceCode, row) =>
      if deviceCode in t || UserCodeTaken(t, row.userCode) then t else t[deviceCode := row]
    case RecordPoll(deviceCode, now, increase) =>
      if deviceCode !in t then t
      else
        var row := t[deviceCode];
        var interval := if increase then Slower(row.interval) else row.interval;
        t[deviceCode := row.(lastPoll := Some(now), interval := interval)]
    case _ => map c | c in t :: Decide(t[c], op)
  }

  predicate UserCodeTaken(t: Table, userCode: string) { exists c | c in t :: t[c].userCode == userCode }

  function AfterAll(t: Table, ops: seq<Op>): Table
    decreases |ops|
  {
    if ops == [] then t else AfterAll(After(t, ops[0]), ops[1..])
  }

  /**
   * AUTHORIZED and DENIED are absorbing: no sequence of store operations changes the
   * status or the user of a decided code, the deny that should undo an authorisation included.
   */
  lemma {:induction false} DecidedStaysDecided(t: Table, ops: seq<Op>, code: string)
    requires code in t && (t[code].status.AUTHORIZED? || t[code].status.DENIED?)
    ensures
      var t' := AfterAll(t, ops);
      && code in t' && t'[code].status == t[code].status
      && t'[code].userId == t[code].userId && t'[code].expiresAt == t[code].expiresAt
    decreases |ops|
  {
    if ops != [] {
      DecidedStaysDecided(After(t, ops[0]), ops[1..], code);
    }
  }

  /** Where a code that was pending ends up authorised, one authorisation did it, in time. */
  ghost predicate AuthorizedBy(t: Table, ops: seq<Op>, code: string, i: nat) {
    && i < |ops| && ops[i].AuthorizeCode?
    && var before := AfterAll(t, ops[..i]);
       && code in before && code in AfterAll(t, ops)
       && before[code].userCode == ops[i].userCode
       && before[code].status == PENDING && ops[i].now <= before[code].expiresAt
       && AfterAll(t, ops)[code].userId == Some(ops[i].userId)
  }

  lemma {:induction false} AuthorizedOnceInTime(t: Table, ops: seq<Op>, code: string)
    requires code in t && t[code].status.PENDING?
    ensures code in AfterAll(t, ops)
    ensures AfterAll(t, ops)[code].status.AUTHORIZED? ==> exists i: nat :: AuthorizedBy(t, ops, code, i)
    ensures !AfterAll(t, ops)[code].status.AUTHORIZED? ==> AfterAll(t, ops)[code].userId == t[code].userId
    decreases |ops|
  {
    if ops != [] {
      var t1 := After(t, ops[0]);
      if t1[code].status.PENDING? {
        AuthorizedOnceInTime(t1, ops[1..], code);
        if AfterAll(t, ops)[code].status.AUTHORIZED? {
          var i: nat :| AuthorizedBy(t1, ops[1..], code, i);
          assert ops[..i + 1][1..] == ops[1..][..i];
          assert AfterAll(t, ops[..i + 1]) == AfterAll(t1, ops[1..][..i]);
          assert AuthorizedBy(t, ops, code, i + 1);
        }
      } else {
        DecidedStaysDecided(t1, ops[1..], code);
        assert ops[..0] == [];
        if t1[code].status.AUTHORIZED? { assert AuthorizedBy(t, ops, code, 0); }
      }
    }
  }

  // ------------------------------------------- calls that read before they write

  /**
   * The store reads a row, checks it and commits without a lock, so calls interleave.
   * `passed` holds the calls for one row that have seen it pending and not yet written.
   */
  datatype Verdict = Authorizes(userId: string) | Denies

  datatype Race = Race(row: Row, passed: map<nat, Verdict>)

  datatype Move =
    | Check(call: nat, verdict: Verdict, now: int)
    | Write(call: nat)
    | RecordsPoll(now: int, increase: bool)

  predicate CanMove(r: Race, m: Move) {
    match m
    case Check(call, _, _) => call !in r.passed
    case Write(call) => call in r.passed
    case RecordsPoll(_, _) => true
  }

  /** The columns that are written. */
  function Written(row: Row, v: Verdict): Row {
    match v
    case Authorizes(userId) => row.(status := AUTHORIZED, userId := Some(userId))
    case Denies => row.(status := DENIED)
  }

  function Moved(r: Race, m: Move): Race
    requires CanMove(r, m)
  {
    match m
    case Check(call, verdict, now) => if PendingAt(r.row, now) then r.(passed := r.passed[call := verdict]) else r
    case Write(call) => Race(Written(r.row, r.passed[call]), r.passed - {call})
    case RecordsPoll(now, increase) =>
      var interval := if increase then Slower(r.row.interval) else r.row.interval;
      r.(row := r.row.(lastPoll := Some(now), interval := interval))
  }

  /** A call that nobody disturbs does what the store's operation does. */
  lemma Undisturbed(row: Row, call: nat, verdict: Verdict, now: int)
    ensures
      var start := Race(row, map[]);
      var checked := Moved(start, Check(call, verdict, now));
      var op :=
        if verdict.Denies? then DenyCode(row.userCode, now) else AuthorizeCode(row.userCode, verdict.userId, now);
      if row.status == PENDING && now <= row.expiresAt
      then CanMove(checked, Write(call)) && Moved(checked, Write(call)) == Race(Decide(row, op), map[])
      else checked == start
    ensures forall increase ::
              Moved(Race(row, map[]), RecordsPoll(now, increase)).row
              == After(map["" := row], RecordPoll("", now, increase))[""]
  {
  }

  ghost predicate Moves(r: Race, moves: seq<Move>, r': Race)
    decreases |moves|
  {
    if moves == [] then r == r' else CanMove(r, moves[0]) && Moves(Moved(r, moves[0]), moves[1..], r')
  }

  predicate Decided(row: Row) { row.status.AUTHORIZED? || row.status.DENIED? }

  predicate SameDecision(a: Row, b: Row) { a.status == b.status && a.userId == b.userId }

  ghost predicate DecisionIsFinal(r: Race) {
    forall moves, r' :: Moves(r, moves, r') ==> SameDecision(r.row, r'.row)
  }

  /** Every call that has passed its check would write what is there already. */
  ghost predicate PassedAgree(r: Race) {
    forall call :: call in r.passed ==> SameDecision(Written(r.row, r.passed[call]), r.row)
  }

  lemma {:induction false} AgreedStays(r: Race, moves: seq<Move>, r': Race)
    requires Decided(r.row) && PassedAgree(r) && Moves(r, moves, r')
    ensures SameDecision(r.row, r'.row)
    decreases |moves|
  {
    if moves != [] {
      AgreedStays(Moved(r, moves[0]), moves[1..], r');
    }
  }

  /**
   * With calls interleaving, a decision is final if and only if no call that saw the code
   * pending before it is still to write something else.
   */
  lemma DecisionIsFinalIff(r: Race)
    requires Decided(r.row)
    ensures DecisionIsFinal(r) <==> PassedAgree(r)
  {
    if PassedAgree(r) {
      forall moves, r' | Moves(r, moves, r') ensures SameDecision(r.row, r'.row) {
        AgreedStays(r, moves, r');
      }
    } else {
      var call :| call in r.passed && !SameDecision(Written(r.row, r.passed[call]), r.row);
      var r' := Moved(r, Write(call));
      assert Moves(r', [Write(call)][1..], r');
      assert Moves(r, [Write(call)], r');
    }
  }

  /** The `i`-th move is a call that saw the code pending and unexpired and will write `v`. */
  ghost predicate Checked(r: Race, moves: seq<Move>, i: nat, v: Verdict) {
    && i < |moves| && moves[i].Check? && moves[i].verdict == v
    && exists mid :: Moves(r, moves[..i], mid) && mid.row.status == PENDING && moves[i].now <= mid.row.expiresAt
  }

  /** However calls interleave, whoever a code ends up authorised for has passed the check. */
  lemma {:induction false} AuthorizedIsChecked(r: Race, moves: seq<Move>, r': Race)
    requires Moves(r, moves, r') && r'.row.status.AUTHORIZED? && !SameDecision(r.row, r'.row)
    ensures exists user ::
      && r'.row.userId == Some(user)
      && (Authorizes(user) in r.passed.Values || exists i: nat :: Checked(r, moves, i, Authorizes(user)))
    decreases |moves|
  {
    var m, rest, next := moves[0], moves[1..], Moved(r, moves[0]);
    if SameDecision(next.row, r'.row) {
      assert m.Write?;
      assert r.passed[m.call] in r.passed.Values;
    } else {
      AuthorizedIsChecked(next, rest, r');
      var user :| r'.row.userId == Some(user)
        && (Authorizes(user) in next.passed.Values || exists i: nat :: Checked(next, rest, i, Authorizes(user)));
      if Authorizes(user) in next.passed.Values {
        var call :| call in next.passed && next.passed[call] == Authorizes(user);
        if call in r.passed && r.passed[call] == Authorizes(user) {
          assert Authorizes(user) in r.passed.Values;
        } else {
          assert Moves(r, moves[..0], r) && Checked(r, moves, 0, Authorizes(user));
        }
      } else {
        var i: nat :| Checked(next, rest, i, Authorizes(user));
        CheckedLater(r, moves, i, Authorizes(user));
      }
    }
  }

  lemma CheckedLater(r: Race, moves: seq<Move>, i: nat, v: Verdict)
    requires moves != [] && CanMove(r, moves[0]) && Checked(Moved(r, moves[0]), moves[1..], i, v)
    ensures Checked(r, moves, i + 1, v)
  {
    var mid :| Moves(Moved(r, moves[0]), moves[1..][..i], mid)
      && mid.row.status == PENDING && moves[1..][i].now <= mid.row.expiresAt;
    assert moves[..i + 1][1..] == moves[1..][..i];
    assert Moves(r, moves[..i + 1], mid);
  }

  /** Two users' authorisations can both succeed, the second overwriting the first. */
  lemma BothSucceed(row: Row, now: int, first: string, second: string) returns (moves: seq<Move>, r': Race)
    requires PendingAt(row, now) && first != second
    ensures Moves(Race(row, map[]), moves, r') && r'.passed == map[]
    ensures r'.row.status.AUTHORIZED? && r'.row.userId == Some(second)
    ensures exists n: nat, mid ::
      n <= |moves| && Moves(Race(row, map[]), moves[..n], mid) && mid.row.userId == Some(first)
  {
    moves := [Check(1, Authorizes(first), now), Check(2, Authorizes(second), now), Write(1), Write(2)];
    var r1 := Moved(Race(row, map[]), moves[0]);
    var r2 := Moved(r1, moves[1]);
    var r3 := Moved(r2, moves[2]);
    r' := Moved(r3, moves[3]);
    assert moves[3..][1..] == [] && moves[2..][1..] == moves[3..] && moves[1..][1..] == moves[2..];
    assert Moves(r3, moves[3..], r');
    assert Moves(r2, moves[2..], r');
    assert Moves(r1, moves[1..], r');
    var early := moves[..3];
    assert early[2..][1..] == [] && early[1..][1..] == early[2..];
    assert Moves(r2, early[2..], r3);
    assert Moves(r1, early[1..], r3);
    assert Moves(Race(row, map[]), early, r3);
  }

  lemma {:induction false} UserCodesStayUnique(t: Table, ops: seq<Op>)
    requires UniqueUserCodes(t)
    ensures UniqueUserCodes(AfterAll(t, ops))
    decreases |ops|
  {
    if ops != [] {
      UserCodesStayUnique(After(t, ops[0]), ops[1..]);
    }
  }

  class DeviceCodeStore {
    var rows: Table

    ghost predicate Valid() reads this { UniqueUserCodes(rows) }

    constructor ()
      ensures Valid() && rows == map[]
    {
      rows := map[];
    }

    /** Inserts under fresh codes; `codes[i]` is what the i-th attempt generates. */
    method CreateDeviceCode(expiresAt: seq<int>, codes: seq<(string, string)>) returns (created: Option<string>)
      requires Valid() && |expiresAt| == |codes|
      modifies this
      ensures Valid()
      ensures created.None? <==>
        forall i :: 0 <= i < |codes| ==> codes[i].1 in old(rows) || UserCodeTaken(old(rows), codes[i].0)
      ensures created.None? ==> rows == old(rows)
      ensures created.Some? ==> created.value !in old(rows)
      ensures created.Some? ==> (exists i ::
        0 <= i < |codes| && codes[i].1 == created.value && !UserCodeTaken(old(rows), codes[i].0) &&
        rows == old(rows)[created.value := Row(codes[i].0, PENDING, None, expiresAt[i], None, 5)])
    {
      for i := 0 to |codes|
        invariant rows == old(rows)
        invariant forall k :: 0 <= k < i ==> codes[k].1 in rows || UserCodeTaken(rows, codes[k].0)
      {
        var (userCode, deviceCode) := codes[i];
        if deviceCode !in rows && !UserCodeTaken(rows, userCode) {
          rows := rows[deviceCode := Row(userCode, PENDING, None, expiresAt[i], None, INITIAL_INTERVAL)];
          return Some(deviceCode);
        }
      }
      created := None;
    }

    /** The row with this user code. */
    method GetByUserCode(userCode: string) returns (found: Option<string>)
      requires Valid()
      ensures found.None? <==> !UserCodeTaken(rows, userCode)
      ensures found.Some? ==> found.value in rows && rows[found.value].userCode == userCode
    {
      if !UserCodeTaken(rows, userCode) { return None; }
      var c :| c in rows && rows[c].userCode == userCode;
      found := Some(c);
    }

    method AuthorizeDeviceCode(userCode: string, userId: string, now: int) returns (ok: bool)
      requires Valid()
      modifies this
      ensures Valid() && rows == After(old(rows), AuthorizeCode(userCode, userId, now))
      ensures ok <==> exists c ::
        && c in old(rows) && old(rows)[c].userCode == userCode
        && old(rows)[c].status == PENDING && now <= old(rows)[c].expiresAt
      ensures rows.Keys == old(rows).Keys
      ensures forall c | c in rows ::
        var row := old(rows)[c];
        if row.userCode == userCode && row.status == PENDING && now <= row.expiresAt
        then rows[c] == row.(status := AUTHORIZED, userId := Some(userId))
        else rows[c] == row
    {
      var found := GetByUserCode(userCode);
      if found.None? {
        assert rows == After(rows, AuthorizeCode(userCode, userId, now));
        return false;
      }
      var entry := new DeviceCode(rows[found.value]);
      var pending := entry.IsPending(now);
      if !pending {
        assert rows == After(rows, AuthorizeCode(userCode, userId, now));
        return false;
      }
      entry.Authorize(userId);
      rows := rows[found.value := entry.Persisted()];
      ok := true;
    }

    method DenyDeviceCode(userCode: string, now: int) returns (ok: bool)
      requires Valid()
      modifies this
      ensures Valid() && rows == After(old(rows), DenyCode(userCode, now))
      ensures ok <==> exists c ::
        && c in old(rows) && old(rows)[c].userCode == userCode
        && old(rows)[c].status == PENDING && now <= old(rows)[c].expiresAt
      ensures rows.Keys == old(rows).Keys
      ensures forall c | c in rows ::
        var row := old(rows)[c];
        if row.userCode == userCode && row.status == PENDING && now <= row.expiresAt
        then rows[c] == row.(status := DENIED)
        else rows[c] == row
    {
      var found := GetByUserCode(userCode);
      if found.None? {
        assert rows == After(rows, DenyCode(userCode, now));
        return false;
      }
      var entry := new DeviceCode(rows[found.value]);
      var pending := entry.IsPending(now);
      if !pending {
        assert rows == After(rows, DenyCode(userCode, now));
        return false;
      }
      entry.Deny();
      rows := rows[found.value := entry.Persisted()];
      ok := true;
    }

    /** The limiting half of the token route: check, then record. */
    method PollToken(deviceCode: string, p: Poll) returns (accepted: bool)
      requires Valid()
      modifies this
      ensures Valid()
      ensures deviceCode !in old(rows) ==> !accepted && rows == old(rows)
      ensures deviceCode in old(rows) ==>
        && rows == old(rows)[deviceCode := Polled(old(rows)[deviceCode], p)]
        && rows[deviceCode].lastPoll == Some(p.recorded)
        && var row := old(rows)[deviceCode];
           accepted <==> row.lastPoll.None? || p.checked >= row.lastPoll.value + row.interval * 1000000
      ensures rows == After(old(rows), RecordPoll(deviceCode, p.recorded, deviceCode in old(rows) && !accepted))
    {
      if deviceCode !in rows { return false; }
      var entry := new DeviceCode(rows[deviceCode]);
      var tooFast, _ := entry.CheckRateLimit(p.checked);
      entry.UpdatePollTime(p.recorded, tooFast);
      rows := rows[deviceCode := entry.Persisted()];
      accepted := !tooFast;
    }
  }
}
