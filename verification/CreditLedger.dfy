/**
 * `LiteLlmManager.migrate_entries` and `downgrade_entries`: moving a user's credits
 * between the user record and the personal org's team by a sequence of LiteLLM calls,
 * any of which may be the last one before a failure.  Floats are reals.
 */
module CreditLedger {
  import opened Prelude

  /** Stands for "unlimited", and marks a user as migrated. */
  const UNLIMITED_BUDGET_SETTING: real := 1000000000.0

  type Id = string

  datatype Account = Account(maxBudget: Option<real>, spend: Option<real>)
  datatype Membership = Membership(maxBudgetInTeam: Option<real>, spend: real)
  datatype Team = Team(maxBudget: Option<real>, spend: real, members: map<Id, Membership>)
  datatype Key = Key(owner: Id, team: Option<Id>, valid: bool)

  datatype Ledger = Ledger(users: map<Id, Account>, teams: map<Id, Team>, keys: map<Id, Key>)

  /** The mutating LiteLLM requests. */
  datatype Call =
    | CreateTeam(team: Id, budget: real)
    | UpdateUser(user: Id, maxBudget: real, spend: Option<real>)
    | AddMember(team: Id, user: Id, budget: real)
    | UpdateKey(key: Id, toTeam: Option<Id>)
    | RemoveMember(team: Id, user: Id)
    | DeleteTeam(team: Id)

  /** The request is answered with an error the manager does not absorb. */
  predicate Rejected(l: Ledger, c: Call) {
    (c.UpdateUser? && c.user !in l.users) || (c.AddMember? && c.team !in l.teams)
  }

  function Apply(l: Ledger, c: Call): Ledger
    requires !Rejected(l, c)
  {
    match c
    case CreateTeam(team, budget) =>
      // an existing team is updated, which leaves its spend and members alone
      var t := if team in l.teams then l.teams[team] else Team(None, 0.0, map[]);
      l.(teams := l.teams[team := t.(maxBudget := Some(budget))])
    case UpdateUser(user, maxBudget, spend) =>
      var spend' := if spend.Some? then spend else l.users[user].spend;
      l.(users := l.users[user := Account(Some(maxBudget), spend')])
    case AddMember(team, user, budget) =>
      var t := l.teams[team];
      if user in t.members then l
      else l.(teams := l.teams[team := t.(members := t.members[user := Membership(Some(budget), 0.0)])])
    case UpdateKey(key, toTeam) =>
      if key in l.keys && l.keys[key].valid
      then l.(keys := l.keys[key := l.keys[key].(team := toTeam)])
      else l
    case RemoveMember(team, user) =>
      if team in l.teams
      then l.(teams := l.teams[team := l.teams[team].(members := l.teams[team].members - {user})])
      else l
    case DeleteTeam(team) => l.(teams := l.teams - {team})
  }

  /** Calls in order, up to the first rejection. */
  function Perform(l: Ledger, calls: seq<Call>): Ledger
    decreases |calls|
  {
    if calls == [] || Rejected(l, calls[0]) then l else Perform(Apply(l, calls[0]), calls[1..])
  }

  // ----------------------------------------------------------------- migration

  datatype LegacySettings = LegacySettings(userVersion: int, billingMargin: Option<real>)

  function Or0(x: Option<real>): real { if x.Some? then x.value else 0.0 }

  /** Before version 4 the margin was applied outside LiteLLM; it is folded in once here. */
  function Margin(s: LegacySettings): real {
    if s.userVersion < 4 && s.billingMargin.Some? && s.billingMargin.value != 0.0
    then s.billingMargin.value else 1.0
  }

  function AtLeast0(x: real): real { if x >= 0.0 then x else 0.0 }

  function Credits(a: Account, s: LegacySettings): real {
    AtLeast0(Or0(a.maxBudget) * Margin(s) - Or0(a.spend) * Margin(s))
  }

  predicate AlreadyMigrated(a: Account) {
    a.maxBudget.None? || a.maxBudget.value == UNLIMITED_BUDGET_SETTING
  }

  function KeyCalls(listed: seq<Id>, toTeam: Option<Id>): (calls: seq<Call>)
    ensures |calls| == |listed|
    ensures forall i :: 0 <= i < |listed| ==> calls[i] == UpdateKey(listed[i], toTeam)
  {
    seq(|listed|, i requires 0 <= i < |listed| => UpdateKey(listed[i], toTeam))
  }

  /** What one attempt would send if nothing fails; `listed` is what `/key/list` answers. */
  function MigrateCalls(l: Ledger, org: Id, user: Id, s: LegacySettings, listed: seq<Id>): seq<Call> {
    if user !in l.users || AlreadyMigrated(l.users[user]) then []
    else
      var credits := Credits(l.users[user], s);
      [CreateTeam(org, credits), UpdateUser(user, UNLIMITED_BUDGET_SETTING, None), AddMember(org, user, credits)]
      + KeyCalls(listed, Some(org))
  }

  /** An attempt stops for good after `stop` calls. */
  datatype Attempt = Attempt(stop: nat, listed: seq<Id>)

  function FirstCalls(calls: seq<Call>, stop: nat): seq<Call> {
    if stop < |calls| then calls[..stop] else calls
  }

  function TryMigrate(l: Ledger, org: Id, user: Id, s: LegacySettings, a: Attempt): Ledger {
    Perform(l, FirstCalls(MigrateCalls(l, org, user, s, a.listed), a.stop))
  }

  function RetryMigrate(l: Ledger, org: Id, user: Id, s: LegacySettings, attempts: seq<Attempt>): Ledger
    decreases |attempts|
  {
    if attempts == [] then l
    else RetryMigrate(TryMigrate(l, org, user, s, attempts[0]), org, user, s, attempts[1..])
  }

  /** A migrated user is never touched again. */
  lemma {:induction false} MigratedStays(l: Ledger, org: Id, user: Id, s: LegacySettings, attempts: seq<Attempt>)
    requires user in l.users && AlreadyMigrated(l.users[user])
    ensures RetryMigrate(l, org, user, s, attempts) == l
    decreases |attempts|
  {
    if attempts != [] {
      assert TryMigrate(l, org, user, s, attempts[0]) == l;
      MigratedStays(l, org, user, s, attempts[1..]);
    }
  }

  /** An attempt in three parts: team, sentinel, membership and keys. */
  lemma AttemptByCases(l: Ledger, org: Id, user: Id, s: LegacySettings, a: Attempt)
    requires user in l.users && !AlreadyMigrated(l.users[user])
    ensures
      var credits := Credits(l.users[user], s);
      var l1 := Apply(l, CreateTeam(org, credits));
      var l2 := Apply(l1, UpdateUser(user, UNLIMITED_BUDGET_SETTING, None));
      var rest := [AddMember(org, user, credits)] + KeyCalls(a.listed, Some(org));
      TryMigrate(l, org, user, s, a) ==
        if a.stop == 0 then l
        else if a.stop == 1 then l1
        else Perform(l2, FirstCalls(rest, a.stop - 2))
  {
    var credits := Credits(l.users[user], s);
    var l1 := Apply(l, CreateTeam(org, credits));
    var calls := MigrateCalls(l, org, user, s, a.listed);
    var rest := [AddMember(org, user, credits)] + KeyCalls(a.listed, Some(org));
    var first := FirstCalls(calls, a.stop);
    if a.stop == 1 {
      assert first == [CreateTeam(org, credits)];
      assert Perform(l1, first[1..]) == l1;
    } else if a.stop >= 2 {
      var l2 := Apply(l1, UpdateUser(user, UNLIMITED_BUDGET_SETTING, None));
      assert first[0] == CreateTeam(org, credits);
      assert first[1..][0] == UpdateUser(user, UNLIMITED_BUDGET_SETTING, None);
      assert first[1..][1..] == FirstCalls(rest, a.stop - 2);
      assert Perform(l, first) == Perform(l1, first[1..]);
      assert Perform(l1, first[1..]) == Perform(l2, first[1..][1..]);
    }
  }

  /** Adding members and moving keys changes no user record and no team budget or spend. */
  lemma {:induction false} TailKeepsBudgets(l: Ledger, calls: seq<Call>)
    requires forall c :: c in calls ==> c.AddMember? || c.UpdateKey?
    ensures
      var l' := Perform(l, calls);
      && l'.users == l.users && l'.teams.Keys == l.teams.Keys
      && forall t :: t in l.teams ==>
           l'.teams[t].maxBudget == l.teams[t].maxBudget && l'.teams[t].spend == l.teams[t].spend
    decreases |calls|
  {
    if calls != [] && !Rejected(l, calls[0]) {
      TailKeepsBudgets(Apply(l, calls[0]), calls[1..]);
    }
  }

  /** Once the sentinel is written the credits are on the team, whatever else got through. */
  lemma PastSentinel(l: Ledger, org: Id, user: Id, s: LegacySettings, a: Attempt)
    requires user in l.users && !AlreadyMigrated(l.users[user]) && a.stop >= 2
    ensures
      var l' := TryMigrate(l, org, user, s, a);
      && l'.users == l.users[user := Account(Some(UNLIMITED_BUDGET_SETTING), l.users[user].spend)]
      && org in l'.teams && l'.teams[org].maxBudget == Some(Credits(l.users[user], s))
      && l'.teams[org].spend == if org in l.teams then l.teams[org].spend else 0.0
  {
    var credits := Credits(l.users[user], s);
    AttemptByCases(l, org, user, s, a);
    var l2 := Apply(Apply(l, CreateTeam(org, credits)), UpdateUser(user, UNLIMITED_BUDGET_SETTING, None));
    TailKeepsBudgets(l2, FirstCalls([AddMember(org, user, credits)] + KeyCalls(a.listed, Some(org)), a.stop - 2));
  }

  /** A fresh team gets the member exactly when the call after the sentinel got through. */
  lemma JoinsIff(l: Ledger, org: Id, user: Id, s: LegacySettings, a: Attempt)
    requires user in l.users && !AlreadyMigrated(l.users[user]) && org !in l.teams && a.stop >= 2
    ensures
      var l' := TryMigrate(l, org, user, s, a);
      org in l'.teams && (user in l'.teams[org].members <==> a.stop >= 3)
  {
    var credits := Credits(l.users[user], s);
    AttemptByCases(l, org, user, s, a);
    var l2 := Apply(Apply(l, CreateTeam(org, credits)), UpdateUser(user, UNLIMITED_BUDGET_SETTING, None));
    var first := FirstCalls([AddMember(org, user, credits)] + KeyCalls(a.listed, Some(org)), a.stop - 2);
    if a.stop >= 3 {
      assert first[0] == AddMember(org, user, credits);
      KeyMovesKeepTeams(Apply(l2, first[0]), first[1..]);
    }
  }

  /** The first attempt to get past the second call, if any. */
  function Decisive(attempts: seq<Attempt>): (i: nat)
    ensures i <= |attempts|
    ensures i < |attempts| ==> attempts[i].stop >= 2
    ensures forall j :: 0 <= j < i ==> attempts[j].stop < 2
  {
    if attempts == [] then 0
    else if attempts[0].stop >= 2 then 0
    else 1 + Decisive(attempts[1..])
  }

  lemma CreateTeamTwice(l: Ledger, team: Id, budget: real)
    ensures
      var l1 := Apply(l, CreateTeam(team, budget));
      Apply(l1, CreateTeam(team, budget)) == l1
  {
    var l1 := Apply(l, CreateTeam(team, budget));
    assert Apply(l1, CreateTeam(team, budget)).teams == l1.teams;
  }

  /**
   * However often a migration is retried, the whole sequence has the effect of the one
   * attempt that first got past writing the sentinel; before it, only the team exists.
   */
  lemma {:induction false} RetriesActAsOneAttempt(
      l: Ledger, org: Id, user: Id, s: LegacySettings, attempts: seq<Attempt>)
    requires user in l.users && !AlreadyMigrated(l.users[user])
    ensures
      var i := Decisive(attempts);
      var l' := RetryMigrate(l, org, user, s, attempts);
      if i < |attempts| then l' == TryMigrate(l, org, user, s, attempts[i])
      else l' == l || l' == Apply(l, CreateTeam(org, Credits(l.users[user], s)))
    decreases |attempts|
  {
    if attempts != [] {
      var a := attempts[0];
      var l1 := TryMigrate(l, org, user, s, a);
      if a.stop >= 2 {
        PastSentinel(l, org, user, s, a);
        MigratedStays(l1, org, user, s, attempts[1..]);
      } else {
        AttemptByCases(l, org, user, s, a);
        RetriesActAsOneAttempt(l1, org, user, s, attempts[1..]);
        var i := Decisive(attempts);
        if i < |attempts| {
          assert attempts[1..][i - 1] == attempts[i];
          SameFromTeam(l, org, user, s, attempts[i]);
        } else {
          CreateTeamTwice(l, org, Credits(l.users[user], s));
        }
      }
    }
  }

  /** An attempt goes the same whether or not an earlier one had created the team. */
  lemma SameFromTeam(l: Ledger, org: Id, user: Id, s: LegacySettings, a: Attempt)
    requires user in l.users && !AlreadyMigrated(l.users[user]) && a.stop >= 2
    ensures TryMigrate(Apply(l, CreateTeam(org, Credits(l.users[user], s))), org, user, s, a)
      == TryMigrate(l, org, user, s, a)
  {
    var credits := Credits(l.users[user], s);
    AttemptByCases(l, org, user, s, a);
    AttemptByCases(Apply(l, CreateTeam(org, credits)), org, user, s, a);
    CreateTeamTwice(l, org, credits);
  }

  /** `max(m * (budget - spend), 0)`. */
  function Due(a: Account, s: LegacySettings): real { AtLeast0(Margin(s) * (Or0(a.maxBudget) - Or0(a.spend))) }

  /** Either the user record is untouched, or the team holds exactly the credits that are due. */
  ghost predicate CreditsSafe(l: Ledger, l': Ledger, org: Id, user: Id, due: real)
    requires user in l.users
  {
    && user in l'.users
    && (org in l'.teams ==> l'.teams[org].maxBudget == Some(due) || (org in l.teams && l'.teams[org] == l.teams[org]))
    && (l'.users[user] == l.users[user] ||
        (l'.users[user] == Account(Some(UNLIMITED_BUDGET_SETTING), l.users[user].spend)
         && org in l'.teams && l'.teams[org].maxBudget == Some(due)
         && l'.teams[org].spend == if org in l.teams then l.teams[org].spend else 0.0))
  }

  /**
   * Crash-retry safety of the credits: the user record changes only once the team holds
   * exactly `max(m * (budget - spend), 0)`, the margin applied once.
   */
  lemma CreditsSurviveRetries(l: Ledger, org: Id, user: Id, s: LegacySettings, attempts: seq<Attempt>)
    requires user in l.users && !AlreadyMigrated(l.users[user])
    ensures CreditsSafe(l, RetryMigrate(l, org, user, s, attempts), org, user, Due(l.users[user], s))
  {
    CreditsDue(l.users[user], s);
    SafeOverRetries(l, org, user, s, attempts);
  }

  lemma SafeOverRetries(l: Ledger, org: Id, user: Id, s: LegacySettings, attempts: seq<Attempt>)
    requires user in l.users && !AlreadyMigrated(l.users[user])
    ensures CreditsSafe(l, RetryMigrate(l, org, user, s, attempts), org, user, Credits(l.users[user], s))
  {
    var i := Decisive(attempts);
    RetriesActAsOneAttempt(l, org, user, s, attempts);
    if i < |attempts| {
      SafeAfter(l, org, user, s, attempts[i]);
    } else {
      SafeBefore(l, org, user, Credits(l.users[user], s));
    }
  }

  lemma SafeBefore(l: Ledger, org: Id, user: Id, credits: real)
    requires user in l.users
    ensures CreditsSafe(l, l, org, user, credits)
    ensures CreditsSafe(l, Apply(l, CreateTeam(org, credits)), org, user, credits)
  {
  }

  lemma SafeAfter(l: Ledger, org: Id, user: Id, s: LegacySettings, a: Attempt)
    requires user in l.users && !AlreadyMigrated(l.users[user]) && a.stop >= 2
    ensures CreditsSafe(l, TryMigrate(l, org, user, s, a), org, user, Credits(l.users[user], s))
  {
    PastSentinel(l, org, user, s, a);
  }

  lemma CreditsDue(a: Account, s: LegacySettings)
    ensures Credits(a, s) == Due(a, s)
  {
    var m, b, u := Margin(s), Or0(a.maxBudget), Or0(a.spend);
    assert b * m - u * m == m * (b - u);
  }

  lemma {:induction false} CreatedIff(l: Ledger, org: Id, user: Id, s: LegacySettings, attempts: seq<Attempt>)
    requires user in l.users && !AlreadyMigrated(l.users[user])
    ensures org in RetryMigrate(l, org, user, s, attempts).teams <==>
      org in l.teams || exists i :: 0 <= i < |attempts| && attempts[i].stop >= 1
    decreases |attempts|
  {
    if attempts != [] {
      var a, rest := attempts[0], attempts[1..];
      var l1 := TryMigrate(l, org, user, s, a);
      assert forall i :: 0 < i < |attempts| ==> attempts[i] == rest[i - 1];
      if a.stop >= 2 {
        PastSentinel(l, org, user, s, a);
        MigratedStays(l1, org, user, s, rest);
      } else {
        AttemptByCases(l, org, user, s, a);
        CreatedIff(l1, org, user, s, rest);
        if i :| 0 <= i < |rest| && rest[i].stop >= 1 { assert attempts[i + 1].stop >= 1; }
      }
    }
  }

  /**
   * The same in plain numbers, for a fresh team: some attempt that gets through its first
   * request creates it, with `m * (budget - spend)` for a margin `m` before version 4 and
   * `budget - spend` otherwise, but no less than 0; some attempt that gets through its second
   * gives the user the budget 1000000000, its spend left alone.
   */
  lemma TeamBudgetIs(l: Ledger, org: Id, user: Id, s: LegacySettings, attempts: seq<Attempt>,
                     budget: real, spend: real)
    requires user in l.users && org !in l.teams
    requires l.users[user].maxBudget == Some(budget) && budget != 1000000000.0
    requires l.users[user].spend == Some(spend) || (l.users[user].spend == None && spend == 0.0)
    ensures
      var l' := RetryMigrate(l, org, user, s, attempts);
      var left := budget - spend;
      && (org in l'.teams <==> exists i :: 0 <= i < |attempts| && attempts[i].stop >= 1)
      && (org in l'.teams && s.userVersion < 4 && s.billingMargin.Some? && s.billingMargin.value != 0.0 ==>
            var due := s.billingMargin.value * left;
            l'.teams[org].maxBudget == Some(if due >= 0.0 then due else 0.0))
      && (org in l'.teams && (s.userVersion >= 4 || s.billingMargin == None || s.billingMargin == Some(0.0)) ==>
            l'.teams[org].maxBudget == Some(if left >= 0.0 then left else 0.0))
  {
    CreatedIff(l, org, user, s, attempts);
    SafeOverRetries(l, org, user, s, attempts);
    CreditsInNumbers(l.users[user], s, budget, spend);
  }

  lemma CreditsInNumbers(a: Account, s: LegacySettings, budget: real, spend: real)
    requires a.maxBudget == Some(budget) && (a.spend == Some(spend) || (a.spend == None && spend == 0.0))
    ensures
      var left := budget - spend;
      && (s.userVersion < 4 && s.billingMargin.Some? && s.billingMargin.value != 0.0 ==>
            var due := s.billingMargin.value * left;
            Credits(a, s) == if due >= 0.0 then due else 0.0)
      && (s.userVersion >= 4 || s.billingMargin == None || s.billingMargin == Some(0.0) ==>
            Credits(a, s) == if left >= 0.0 then left else 0.0)
  {
    if s.userVersion < 4 && s.billingMargin.Some? && s.billingMargin.value != 0.0 {
      var m := s.billingMargin.value;
      assert budget * m - spend * m == m * (budget - spend);
    }
  }

  /** When the user record becomes the sentinel, in plain numbers. */
  lemma SentinelIff(l: Ledger, org: Id, user: Id, s: LegacySettings, attempts: seq<Attempt>)
    requires user in l.users && l.users[user].maxBudget.Some? && l.users[user].maxBudget.value != 1000000000.0
    ensures
      var after := RetryMigrate(l, org, user, s, attempts).users;
      after == if exists i :: 0 <= i < |attempts| && attempts[i].stop >= 2
               then l.users[user := Account(Some(1000000000.0), l.users[user].spend)] else l.users
  {
    RetriesActAsOneAttempt(l, org, user, s, attempts);
    var i := Decisive(attempts);
    if i < |attempts| { PastSentinel(l, org, user, s, attempts[i]); }
  }

  /** Without a record, with no budget or with the sentinel a migration does nothing at all. */
  lemma {:induction false} NothingToMigrate(l: Ledger, org: Id, user: Id, s: LegacySettings, attempts: seq<Attempt>)
    requires user in l.users ==> l.users[user].maxBudget == None || l.users[user].maxBudget == Some(1000000000.0)
    ensures RetryMigrate(l, org, user, s, attempts) == l
    decreases |attempts|
  {
    if attempts != [] {
      assert TryMigrate(l, org, user, s, attempts[0]) == l;
      NothingToMigrate(l, org, user, s, attempts[1..]);
    }
  }

  /**
   * The rest of the migration is not retried: the user ends up in the team exactly when
   * the decisive attempt got one call further.
   */
  lemma MembershipIsNotRetried(l: Ledger, org: Id, user: Id, s: LegacySettings, attempts: seq<Attempt>)
    requires user in l.users && !AlreadyMigrated(l.users[user])
    requires org !in l.teams
    ensures
      var i := Decisive(attempts);
      var l' := RetryMigrate(l, org, user, s, attempts);
      (org in l'.teams && user in l'.teams[org].members) <==> (i < |attempts| && attempts[i].stop >= 3)
  {
    RetriesActAsOneAttempt(l, org, user, s, attempts);
    var i := Decisive(attempts);
    if i < |attempts| { JoinsIff(l, org, user, s, attempts[i]); }
  }

  lemma {:induction false} KeyMovesKeepTeams(l: Ledger, calls: seq<Call>)
    requires forall c :: c in calls ==> c.UpdateKey?
    ensures Perform(l, calls).teams == l.teams && Perform(l, calls).users == l.users
    decreases |calls|
  {
    if calls != [] {
      assert calls[0] in calls;
      KeyMovesKeepTeams(Apply(l, calls[0]), calls[1..]);
    }
  }

  // ----------------------------------------------------------------- downgrade

  /** No call of the sequence is rejected. */
  ghost predicate Accepted(l: Ledger, calls: seq<Call>)
    decreases |calls|
  {
    calls == [] || (!Rejected(l, calls[0]) && Accepted(Apply(l, calls[0]), calls[1..]))
  }

  lemma {:induction false} PerformConcat(l: Ledger, a: seq<Call>, b: seq<Call>)
    requires Accepted(l, a)
    ensures Perform(l, a + b) == Perform(Perform(l, a), b)
    decreases |a|
  {
    if a == [] {
      assert a + b == b;
    } else {
      PerformConcat(Apply(l, a[0]), a[1..], b);
      assert (a + b)[1..] == a[1..] + b;
    }
  }

  function MoveKeys(keys: map<Id, Key>, listed: seq<Id>, toTeam: Option<Id>): map<Id, Key> {
    map k | k in keys :: if k in listed && keys[k].valid then keys[k].(team := toTeam) else keys[k]
  }

  lemma {:induction false} KeyCallsMove(l: Ledger, listed: seq<Id>, toTeam: Option<Id>)
    ensures Accepted(l, KeyCalls(listed, toTeam))
    ensures Perform(l, KeyCalls(listed, toTeam)) == l.(keys := MoveKeys(l.keys, listed, toTeam))
    decreases |listed|
  {
    var calls := KeyCalls(listed, toTeam);
    if listed == [] {
      assert MoveKeys(l.keys, listed, toTeam) == l.keys;
    } else {
      assert calls[1..] == KeyCalls(listed[1..], toTeam);
      KeyCallsMove(Apply(l, calls[0]), listed[1..], toTeam);
      OneKeyMore(l, listed, toTeam);
    }
  }

  lemma OneKeyMore(l: Ledger, listed: seq<Id>, toTeam: Option<Id>)
    requires listed != []
    ensures
      var l1 := Apply(l, UpdateKey(listed[0], toTeam));
      l1.(keys := MoveKeys(l1.keys, listed[1..], toTeam)) == l.(keys := MoveKeys(l.keys, listed, toTeam))
  {
    var l1 := Apply(l, UpdateKey(listed[0], toTeam));
    assert listed == [listed[0]] + listed[1..];
    assert MoveKeys(l1.keys, listed[1..], toTeam) == MoveKeys(l.keys, listed, toTeam);
  }

  // ------------------------------------------- which keys a migration has moved for good

  /** The keys that the decisive attempt got to. */
  function KeysReached(attempts: seq<Attempt>): seq<Id> {
    var i := Decisive(attempts);
    if i < |attempts| then KeysWithin(attempts[i]) else []
  }

  /** The key at position `j` of its listing is reached by the request after three and `j` others. */
  lemma KeysReachedAre(attempts: seq<Attempt>, i: nat, k: Id)
    requires i < |attempts| && attempts[i].stop >= 2 && forall j :: 0 <= j < i ==> attempts[j].stop < 2
    ensures k in KeysReached(attempts) <==>
      exists j :: 0 <= j < |attempts[i].listed| && j + 3 < attempts[i].stop && attempts[i].listed[j] == k
  {
    assert Decisive(attempts) == i;
    var reached := KeysWithin(attempts[i]);
    if j :| 0 <= j < |attempts[i].listed| && j + 3 < attempts[i].stop && attempts[i].listed[j] == k {
      assert reached[j] == k;
    }
  }

  function KeysWithin(a: Attempt): seq<Id> {
    if a.stop < 3 then [] else if a.stop - 3 < |a.listed| then a.listed[..a.stop - 3] else a.listed
  }

  lemma KeysAfterAttempt(l: Ledger, org: Id, user: Id, s: LegacySettings, a: Attempt)
    requires user in l.users && !AlreadyMigrated(l.users[user])
    ensures TryMigrate(l, org, user, s, a).keys == MoveKeys(l.keys, KeysWithin(a), Some(org))
  {
    AttemptByCases(l, org, user, s, a);
    if a.stop >= 3 {
      var credits, reached := Credits(l.users[user], s), KeysWithin(a);
      var l2 := Apply(Apply(l, CreateTeam(org, credits)), UpdateUser(user, UNLIMITED_BUDGET_SETTING, None));
      var first := FirstCalls([AddMember(org, user, credits)] + KeyCalls(a.listed, Some(org)), a.stop - 2);
      assert first[0] == AddMember(org, user, credits) && first[1..] == KeyCalls(reached, Some(org));
      KeyCallsMove(Apply(l2, first[0]), reached, Some(org));
    } else {
      assert MoveKeys(l.keys, [], Some(org)) == l.keys;
    }
  }

  /**
   * Over any number of attempts the keys on the org team are those the decisive attempt got
   * to: a key it did not reach stays where it was for good.
   */
  lemma KeysAfterRetries(l: Ledger, org: Id, user: Id, s: LegacySettings, attempts: seq<Attempt>)
    requires user in l.users && !AlreadyMigrated(l.users[user])
    ensures RetryMigrate(l, org, user, s, attempts).keys == MoveKeys(l.keys, KeysReached(attempts), Some(org))
    ensures
      var after := RetryMigrate(l, org, user, s, attempts).keys;
      && after.Keys == l.keys.Keys
      && forall k | k in l.keys ::
           if k in KeysReached(attempts) && l.keys[k].valid then after[k] == l.keys[k].(team := Some(org))
           else after[k] == l.keys[k]
  {
    RetriesActAsOneAttempt(l, org, user, s, attempts);
    var i := Decisive(attempts);
    if i < |attempts| {
      KeysAfterAttempt(l, org, user, s, attempts[i]);
    } else {
      assert MoveKeys(l.keys, [], Some(org)) == l.keys;
    }
  }

  /** `_get_user_team_info`; `shown` says whether a personal membership carries its budget. */
  function UserTeamInfo(t: Team, user: Id, org: Id, shown: bool): Option<Membership> {
    if user !in t.members then None
    else if user != org then Some(Membership(t.maxBudget, t.spend))
    else Some(Membership(if shown then t.members[user].maxBudgetInTeam else None, t.members[user].spend))
  }

  /** The budget and spend to restore on the user record. */
  function ToRestore(t: Team, user: Id, org: Id, shown: bool): (real, real) {
    var info := UserTeamInfo(t, user, org, shown);
    if info.Some? && info.value.maxBudgetInTeam.Some?
    then (info.value.maxBudgetInTeam.value, info.value.spend)
    else (Or0(t.maxBudget), t.spend)
  }

  /** The calls up to, and not including, the removal of the membership and the team. */
  function RestoreCalls(l: Ledger, org: Id, user: Id, shown: bool, home: Option<Id>, listed: seq<Id>): seq<Call>
    requires org in l.teams
  {
    var (budget, spend) := ToRestore(l.teams[org], user, org, shown);
    [UpdateUser(user, budget, Some(spend))]
    + (if home.Some? then [AddMember(home.value, user, budget)] else [])
    + KeyCalls(listed, home)
  }

  function DowngradeCalls(l: Ledger, org: Id, user: Id, shown: bool, home: Option<Id>, listed: seq<Id>): seq<Call> {
    if org !in l.teams then []
    else RestoreCalls(l, org, user, shown, home, listed) + [RemoveMember(org, user), DeleteTeam(org)]
  }

  function Downgraded(l: Ledger, org: Id, user: Id, shown: bool, home: Option<Id>, listed: seq<Id>): Ledger {
    Perform(l, DowngradeCalls(l, org, user, shown, home, listed))
  }

  /** A downgrade that stops for good after `stop` requests. */
  function CutDowngrade(l: Ledger, org: Id, user: Id, shown: bool, home: Option<Id>, listed: seq<Id>, stop: nat): Ledger
  {
    Perform(l, FirstCalls(DowngradeCalls(l, org, user, shown, home, listed), stop))
  }

  function Joined(teams: map<Id, Team>, home: Option<Id>, user: Id, budget: real): map<Id, Team> {
    if home.None? || home.value !in teams || user in teams[home.value].members then teams
    else
      var t := teams[home.value];
      teams[home.value := t.(members := t.members[user := Membership(Some(budget), 0.0)])]
  }

  /** The ledger just before the org team is taken apart. */
  function WithRestored(l: Ledger, org: Id, user: Id, shown: bool, home: Option<Id>, listed: seq<Id>): Ledger
    requires org in l.teams
  {
    var (budget, spend) := ToRestore(l.teams[org], user, org, shown);
    Ledger(l.users[user := Account(Some(budget), Some(spend))],
           Joined(l.teams, home, user, budget),
           MoveKeys(l.keys, listed, home))
  }

  /** Nothing of the restoring part is rejected. */
  predicate Restorable(l: Ledger, org: Id, user: Id, home: Option<Id>) {
    org in l.teams && user in l.users && (home.Some? ==> home.value in l.teams && home.value != org)
  }

  lemma Restored(l: Ledger, org: Id, user: Id, shown: bool, home: Option<Id>, listed: seq<Id>)
    requires Restorable(l, org, user, home)
    ensures Accepted(l, RestoreCalls(l, org, user, shown, home, listed))
    ensures Perform(l, RestoreCalls(l, org, user, shown, home, listed))
      == WithRestored(l, org, user, shown, home, listed)
  {
    var (budget, spend) := ToRestore(l.teams[org], user, org, shown);
    var l1 := Apply(l, UpdateUser(user, budget, Some(spend)));
    var l2 := if home.Some? then Apply(l1, AddMember(home.value, user, budget)) else l1;
    var calls := RestoreCalls(l, org, user, shown, home, listed);
    KeyCallsMove(l2, listed, home);
    assert calls[0] == UpdateUser(user, budget, Some(spend));
    if home.Some? {
      assert calls[1..][0] == AddMember(home.value, user, budget);
      assert calls[1..][1..] == KeyCalls(listed, home);
      assert Accepted(l1, calls[1..]);
      assert Perform(l1, calls[1..]) == Perform(l2, calls[1..][1..]);
    } else {
      assert calls[1..] == KeyCalls(listed, home);
    }
  }

  /** When the org team is deleted, no valid key of the user is left on it iff the listing named them all. */
  lemma KeysLeaveTheTeamFirst(l: Ledger, org: Id, user: Id, shown: bool, home: Option<Id>, listed: seq<Id>)
    requires Restorable(l, org, user, home)
    ensures
      var l' := Perform(l, RestoreCalls(l, org, user, shown, home, listed));
      (forall k :: k in l'.keys && l'.keys[k].valid && l'.keys[k].owner == user ==> l'.keys[k].team != Some(org))
      <==>
      (forall k :: k in l.keys && l.keys[k].valid && l.keys[k].owner == user && l.keys[k].team == Some(org) ==>
         k in listed)
  {
    Restored(l, org, user, shown, home, listed);
    var l' := Perform(l, RestoreCalls(l, org, user, shown, home, listed));
    forall k | k in l.keys && l.keys[k].valid && l.keys[k].owner == user && l.keys[k].team == Some(org) && k !in listed
      ensures k in l'.keys && l'.keys[k].valid && l'.keys[k].owner == user && l'.keys[k].team == Some(org)
    {
      assert l'.keys[k] == l.keys[k];
    }
  }

  /** Usage is booked on the team, and on the membership if there is one. */
  function Spend(l: Ledger, org: Id, user: Id, amount: real): Ledger
    requires org in l.teams
  {
    var t := l.teams[org];
    var members :=
      if user in t.members then t.members[user := t.members[user].(spend := t.members[user].spend + amount)]
      else t.members;
    l.(teams := l.teams[org := t.(spend := t.spend + amount, members := members)])
  }

  lemma TakeApart(l: Ledger, org: Id, user: Id)
    ensures Perform(l, [RemoveMember(org, user), DeleteTeam(org)]) == l.(teams := l.teams - {org})
  {
    var calls := [RemoveMember(org, user), DeleteTeam(org)];
    var l1 := Apply(l, calls[0]);
    assert calls[1..] == [DeleteTeam(org)];
    assert Perform(l1, calls[1..]) == Apply(l1, DeleteTeam(org));
    assert Apply(l1, DeleteTeam(org)).teams == l.teams - {org};
  }

  /** The state a complete migration leaves. */
  lemma Migrated(l: Ledger, org: Id, user: Id, s: LegacySettings, a: Attempt)
    requires user in l.users && !AlreadyMigrated(l.users[user]) && org !in l.teams && a.stop >= 3
    ensures
      var credits := Credits(l.users[user], s);
      var l' := TryMigrate(l, org, user, s, a);
      && l'.teams == l.teams[org := Team(Some(credits), 0.0, map[user := Membership(Some(credits), 0.0)])]
      && l'.users == l.users[user := Account(Some(UNLIMITED_BUDGET_SETTING), l.users[user].spend)]
  {
    AttemptByCases(l, org, user, s, a);
    var credits := Credits(l.users[user], s);
    var l2 := Apply(Apply(l, CreateTeam(org, credits)), UpdateUser(user, UNLIMITED_BUDGET_SETTING, None));
    var first := FirstCalls([AddMember(org, user, credits)] + KeyCalls(a.listed, Some(org)), a.stop - 2);
    assert first[0] == AddMember(org, user, credits);
    KeyMovesKeepTeams(Apply(l2, first[0]), first[1..]);
  }

  /** What an attempt that creates the team leaves of it, membership or not. */
  lemma TeamAfter(l: Ledger, org: Id, user: Id, s: LegacySettings, a: Attempt)
    requires user in l.users && !AlreadyMigrated(l.users[user]) && org !in l.teams && a.stop >= 1
    ensures
      var credits := Credits(l.users[user], s);
      var l' := TryMigrate(l, org, user, s, a);
      var members := if a.stop >= 3 then map[user := Membership(Some(credits), 0.0)] else map[];
      && l'.teams == l.teams[org := Team(Some(credits), 0.0, members)]
      && l'.users.Keys == l.users.Keys && forall u :: u in l.users && u != user ==> l'.users[u] == l.users[u]
  {
    if a.stop >= 3 {
      Migrated(l, org, user, s, a);
    } else {
      AttemptByCases(l, org, user, s, a);
    }
  }

  /**
   * Migrate, spend, downgrade, wherever the migration stopped: once it has created the team
   * the user is left with the migrated credits and the spending, whether there is a
   * membership or not, and whether it shows its budget or not, and the team is gone.
   */
  lemma RoundTripConserves(l: Ledger, org: Id, user: Id, s: LegacySettings, a: Attempt, amount: real,
                           shown: bool, home: Option<Id>, listed: seq<Id>)
    requires user in l.users && !AlreadyMigrated(l.users[user]) && org !in l.teams
    requires home.Some? ==> home.value in l.teams
    ensures
      var l1 := TryMigrate(l, org, user, s, a);
      if a.stop == 0 then l1 == l
      else
        org in l1.teams &&
        var l2 := Spend(l1, org, user, amount);
        var l3 := Downgraded(l2, org, user, shown, home, listed);
        && l3.users == l.users[user := Account(Some(Credits(l.users[user], s)), Some(amount))]
        && l3.teams.Keys == l.teams.Keys
  {
    var l1 := TryMigrate(l, org, user, s, a);
    if a.stop > 0 {
      TeamAfter(l, org, user, s, a);
      var l2 := Spend(l1, org, user, amount);
      DowngradedTo(l2, org, user, shown, home, listed);
      RestoresSpent(l1, org, user, Credits(l.users[user], s), amount, shown);
    }
  }

  /** What is read off a team that was just created and spent from. */
  lemma RestoresSpent(l: Ledger, org: Id, user: Id, credits: real, amount: real, shown: bool)
    requires org in l.teams
    requires
      var t := l.teams[org];
      t == Team(Some(credits), 0.0, map[]) || t == Team(Some(credits), 0.0, map[user := Membership(Some(credits), 0.0)])
    ensures ToRestore(Spend(l, org, user, amount).teams[org], user, org, shown) == (credits, amount)
  {
  }

  /** A whole downgrade, seen from its end. */
  lemma DowngradedTo(l: Ledger, org: Id, user: Id, shown: bool, home: Option<Id>, listed: seq<Id>)
    requires Restorable(l, org, user, home)
    ensures
      var full := WithRestored(l, org, user, shown, home, listed);
      Downgraded(l, org, user, shown, home, listed) == full.(teams := full.teams - {org})
  {
    var calls := RestoreCalls(l, org, user, shown, home, listed);
    Restored(l, org, user, shown, home, listed);
    PerformConcat(l, calls, [RemoveMember(org, user), DeleteTeam(org)]);
    TakeApart(Perform(l, calls), org, user);
  }

  /** The budget that a migration started on a downgraded user gives the team. */
  lemma MigratesAgain(l: Ledger, org: Id, user: Id, s: LegacySettings, a: Attempt, credits: real, amount: real)
    requires user in l.users && l.users[user] == Account(Some(credits), Some(amount)) && org !in l.teams && a.stop >= 1
    ensures
      var l' := TryMigrate(l, org, user, s, a);
      if credits == UNLIMITED_BUDGET_SETTING then l' == l
      else org in l'.teams && l'.teams[org].maxBudget == Some(AtLeast0(Margin(s) * (credits - amount)))
  {
    if credits != UNLIMITED_BUDGET_SETTING {
      TeamAfter(l, org, user, s, a);
      CreditsDue(l.users[user], s);
      assert Due(l.users[user], s) == AtLeast0(Margin(s) * (credits - amount));
    }
  }

  /**
   * The second migration of a downgraded user performs the same calls with the settings `s2`
   * of that time.  It gives the team what was left of the credits if and only if they do not
   * look like the sentinel and the margin does not count: it is 1, or nothing was left.
   */
  lemma SecondMigrationAgreesIff(l: Ledger, org: Id, user: Id, s: LegacySettings, a: Attempt, amount: real,
                                 shown: bool, home: Option<Id>, listed: seq<Id>, s2: LegacySettings, a2: Attempt)
    requires user in l.users && !AlreadyMigrated(l.users[user]) && org !in l.teams && a.stop >= 1 && a2.stop >= 1
    requires home.Some? ==> home.value in l.teams
    ensures
      var credits := Credits(l.users[user], s);
      var l1 := TryMigrate(l, org, user, s, a);
      org in l1.teams &&
      var l2 := Spend(l1, org, user, amount);
      var l3 := Downgraded(l2, org, user, shown, home, listed);
      var l4 := TryMigrate(l3, org, user, s2, a2);
      (org in l4.teams && l4.teams[org].maxBudget == Some(AtLeast0(credits - amount))) <==>
      credits != UNLIMITED_BUDGET_SETTING && MarginIsIdle(Margin(s2), credits - amount)
  {
    RoundTripConserves(l, org, user, s, a, amount, shown, home, listed);
    var credits := Credits(l.users[user], s);
    var l2 := Spend(TryMigrate(l, org, user, s, a), org, user, amount);
    var l3 := Downgraded(l2, org, user, shown, home, listed);
    AgainAgreesIff(l3, org, user, s2, a2, credits, amount);
  }

  lemma AgainAgreesIff(l: Ledger, org: Id, user: Id, s: LegacySettings, a: Attempt, credits: real, amount: real)
    requires user in l.users && l.users[user] == Account(Some(credits), Some(amount)) && org !in l.teams && a.stop >= 1
    ensures
      var l' := TryMigrate(l, org, user, s, a);
      (org in l'.teams && l'.teams[org].maxBudget == Some(AtLeast0(credits - amount))) <==>
      credits != UNLIMITED_BUDGET_SETTING && MarginIsIdle(Margin(s), credits - amount)
  {
    MigratesAgain(l, org, user, s, a, credits, amount);
    IdleIff(Margin(s), credits - amount);
  }

  /** Multiplying what is left by the margin makes no difference. */
  predicate MarginIsIdle(margin: real, left: real) {
    margin == 1.0 || left == 0.0 || (left < 0.0 && margin > 0.0)
  }

  lemma IdleIff(margin: real, left: real)
    requires margin != 0.0
    ensures AtLeast0(margin * left) == AtLeast0(left) <==> MarginIsIdle(margin, left)
  {
    var scaled := margin * left;
    Scaled(margin, left, scaled);
  }

  /** The sign of a product, and when it is one of its factors. */
  lemma Scaled(a: real, b: real, product: real)
    requires product == a * b && a != 0.0
    ensures a == 1.0 ==> product == b
    ensures b == 0.0 ==> product == 0.0
    ensures b > 0.0 && a != 1.0 ==> product != b
    ensures b < 0.0 ==> if a > 0.0 then product < 0.0 else product > 0.0
  {
    if b > 0.0 && a != 1.0 {
      assert product - b == (a - 1.0) * b;
      if a > 1.0 { PositiveProduct(a - 1.0, b); } else { NegativeProduct(a - 1.0, b); }
    }
    if b < 0.0 {
      if a > 0.0 { NegativeProduct(b, a); } else { PositiveProduct(-a, -b); }
    }
  }

  lemma PositiveProduct(a: real, b: real)
    requires a > 0.0 && b > 0.0
    ensures a * b > 0.0 && -a * -b > 0.0
  {
  }

  lemma NegativeProduct(a: real, b: real)
    requires a < 0.0 && b > 0.0
    ensures a * b < 0.0 && b * a < 0.0
  {
  }

  /**
   * With the settings unchanged, as a downgrade leaves them, a margin other than 1 is thus
   * folded in twice: the credits left are multiplied by it again.
   */
  lemma MarginFoldedTwice(s: LegacySettings)
    ensures Margin(s) != 0.0
    ensures Margin(s) != 1.0 <==>
      s.userVersion < 4 && s.billingMargin.Some? && s.billingMargin.value != 0.0 && s.billingMargin.value != 1.0
    ensures Margin(s) != 1.0 ==> forall left :: left > 0.0 ==> !MarginIsIdle(Margin(s), left)
  {
  }

  // ------------------------------------------------------- a downgrade cut short

  /** The user record changes with the first request, to all of the credits, and never again. */
  lemma DowngradeKeepsCredits(l: Ledger, org: Id, user: Id, shown: bool, home: Option<Id>, listed: seq<Id>, stop: nat)
    requires org in l.teams
    ensures
      var l' := CutDowngrade(l, org, user, shown, home, listed, stop);
      var (budget, spend) := ToRestore(l.teams[org], user, org, shown);
      if stop == 0 || user !in l.users then l' == l
      else l'.users == l.users[user := Account(Some(budget), Some(spend))]
  {
    var (budget, spend) := ToRestore(l.teams[org], user, org, shown);
    var calls := DowngradeCalls(l, org, user, shown, home, listed);
    var first := FirstCalls(calls, stop);
    assert calls[0] == UpdateUser(user, budget, Some(spend));
    if stop > 0 && user in l.users {
      assert first[0] == calls[0];
      assert forall c :: c in first[1..] ==> !c.UpdateUser?;
      UsersKept(Apply(l, first[0]), first[1..]);
    }
  }

  lemma {:induction false} UsersKept(l: Ledger, calls: seq<Call>)
    requires forall c :: c in calls ==> !c.UpdateUser?
    ensures Perform(l, calls).users == l.users
    decreases |calls|
  {
    if calls != [] && !Rejected(l, calls[0]) {
      assert calls[0] in calls;
      UsersKept(Apply(l, calls[0]), calls[1..]);
    }
  }

  /**
   * The account a downgrade restores, read off the team: the member's own budget and spend in
   * its personal team, where the budget is shown; else the team's, no budget counting as 0.
   */
  lemma RestoredAccountIs(l: Ledger, org: Id, user: Id, shown: bool, home: Option<Id>, listed: seq<Id>)
    requires Restorable(l, org, user, home)
    ensures
      var t, after := l.teams[org], Downgraded(l, org, user, shown, home, listed);
      && user in after.users && org !in after.teams
      && (user == org && user in t.members && shown && t.members[user].maxBudgetInTeam.Some? ==>
            after.users[user] == Account(t.members[user].maxBudgetInTeam, Some(t.members[user].spend)))
      && (user != org || user !in t.members || !shown || t.members[user].maxBudgetInTeam == None ==>
            after.users[user] == Account(Some(if t.maxBudget.Some? then t.maxBudget.value else 0.0), Some(t.spend)))
      && (home.Some? ==> home.value in after.teams && user in after.teams[home.value].members)
      && after.keys.Keys == l.keys.Keys
      && forall k | k in l.keys ::
           after.keys[k].team == if k in listed && l.keys[k].valid then home else l.keys[k].team
  {
    DowngradedTo(l, org, user, shown, home, listed);
  }

  /** One of the requests before the team is taken apart. */
  predicate IsRestoring(c: Call, user: Id, budget: real, spend: real, home: Option<Id>, listed: seq<Id>) {
    match c
    case UpdateUser(u, b, sp) => u == user && b == budget && sp == Some(spend)
    case AddMember(t, u, b) => home == Some(t) && u == user && b == budget
    case UpdateKey(k, t) => k in listed && t == home
    case _ => false
  }

  /** Having made such a request before makes no difference to making them all. */
  lemma RestoreAbsorbs(l: Ledger, org: Id, user: Id, shown: bool, home: Option<Id>, listed: seq<Id>, c: Call)
    requires Restorable(l, org, user, home)
    requires var (budget, spend) := ToRestore(l.teams[org], user, org, shown);
             IsRestoring(c, user, budget, spend, home, listed)
    ensures !Rejected(l, c)
    ensures Restorable(Apply(l, c), org, user, home) && Apply(l, c).teams[org] == l.teams[org]
    ensures WithRestored(Apply(l, c), org, user, shown, home, listed) == WithRestored(l, org, user, shown, home, listed)
  {
    var l1 := Apply(l, c);
    assert MoveKeys(l1.keys, listed, home) == MoveKeys(l.keys, listed, home);
  }

  lemma {:induction false} PrefixAbsorbed(l: Ledger, org: Id, user: Id, shown: bool, home: Option<Id>, listed: seq<Id>,
                                          calls: seq<Call>)
    requires Restorable(l, org, user, home)
    requires var (budget, spend) := ToRestore(l.teams[org], user, org, shown);
             forall c :: c in calls ==> IsRestoring(c, user, budget, spend, home, listed)
    ensures
      var l' := Perform(l, calls);
      && Restorable(l', org, user, home) && l'.teams[org] == l.teams[org]
      && WithRestored(l', org, user, shown, home, listed) == WithRestored(l, org, user, shown, home, listed)
    decreases |calls|
  {
    if calls != [] {
      assert calls[0] in calls;
      RestoreAbsorbs(l, org, user, shown, home, listed, calls[0]);
      PrefixAbsorbed(Apply(l, calls[0]), org, user, shown, home, listed, calls[1..]);
    }
  }

  /** What a cut before the team is taken apart leaves to a second downgrade. */
  lemma CutIsAbsorbed(l: Ledger, org: Id, user: Id, shown: bool, home: Option<Id>, listed: seq<Id>, stop: nat)
    requires Restorable(l, org, user, home) && stop <= |RestoreCalls(l, org, user, shown, home, listed)|
    ensures
      var l' := CutDowngrade(l, org, user, shown, home, listed, stop);
      && Restorable(l', org, user, home) && l'.teams[org] == l.teams[org]
      && WithRestored(l', org, user, shown, home, listed) == WithRestored(l, org, user, shown, home, listed)
  {
    var calls := RestoreCalls(l, org, user, shown, home, listed);
    var first := FirstCalls(DowngradeCalls(l, org, user, shown, home, listed), stop);
    assert first == calls[..stop];
    forall c | c in first
      ensures var (budget, spend) := ToRestore(l.teams[org], user, org, shown);
              IsRestoring(c, user, budget, spend, home, listed)
    {
      RestoreCallsRestore(l, org, user, shown, home, listed, c);
    }
    PrefixAbsorbed(l, org, user, shown, home, listed, first);
  }

  /** Stopped anywhere before the team is taken apart and begun again, a downgrade ends as if never stopped. */
  lemma DowngradeRetries(l: Ledger, org: Id, user: Id, shown: bool, home: Option<Id>, listed: seq<Id>, stop: nat)
    requires Restorable(l, org, user, home) && stop <= |RestoreCalls(l, org, user, shown, home, listed)|
    ensures
      var l' := CutDowngrade(l, org, user, shown, home, listed, stop);
      Downgraded(l', org, user, shown, home, listed)
      == Downgraded(l, org, user, shown, home, listed)
  {
    CutIsAbsorbed(l, org, user, shown, home, listed, stop);
    DowngradedTo(l, org, user, shown, home, listed);
    DowngradedTo(CutDowngrade(l, org, user, shown, home, listed, stop),
                 org, user, shown, home, listed);
  }

  /** The user uses up some of what its own record holds. */
  function SpendOnUser(l: Ledger, user: Id, amount: real): Ledger
    requires user in l.users
  {
    l.(users := l.users[user := l.users[user].(spend := Some(Or0(l.users[user].spend) + amount))])
  }

  /**
   * What is spent on the user record between the cut and the retry is forgotten: the retry
   * writes the same account again, which accounts for the spending only if there was none.
   */
  lemma RetryForgetsSpending(l: Ledger, org: Id, user: Id, shown: bool, home: Option<Id>, listed: seq<Id>,
                             stop: nat, amount: real)
    requires Restorable(l, org, user, home) && 1 <= stop <= |RestoreCalls(l, org, user, shown, home, listed)|
    ensures
      var (budget, spend) := ToRestore(l.teams[org], user, org, shown);
      var cut := CutDowngrade(l, org, user, shown, home, listed, stop);
      user in cut.users &&
      var used := SpendOnUser(cut, user, amount);
      var after := Downgraded(used, org, user, shown, home, listed);
      && used.users[user] == Account(Some(budget), Some(spend + amount))
      && after == Downgraded(l, org, user, shown, home, listed)
      && user in after.users && (after.users[user] == used.users[user] <==> amount == 0.0)
  {
    var cut := CutDowngrade(l, org, user, shown, home, listed, stop);
    DowngradeKeepsCredits(l, org, user, shown, home, listed, stop);
    CutIsAbsorbed(l, org, user, shown, home, listed, stop);
    DowngradeRetries(l, org, user, shown, home, listed, stop);
    SpendingIsAbsorbed(cut, org, user, shown, home, listed, amount);
  }

  /** A downgrade does not read the user record it overwrites. */
  lemma SpendingIsAbsorbed(l: Ledger, org: Id, user: Id, shown: bool, home: Option<Id>, listed: seq<Id>, amount: real)
    requires Restorable(l, org, user, home)
    ensures
      var (budget, spend) := ToRestore(l.teams[org], user, org, shown);
      var used := SpendOnUser(l, user, amount);
      var after := Downgraded(used, org, user, shown, home, listed);
      && after == Downgraded(l, org, user, shown, home, listed)
      && user in after.users && after.users[user] == Account(Some(budget), Some(spend))
  {
    var used := SpendOnUser(l, user, amount);
    assert WithRestored(used, org, user, shown, home, listed).users
      == WithRestored(l, org, user, shown, home, listed).users;
    DowngradedTo(used, org, user, shown, home, listed);
    DowngradedTo(l, org, user, shown, home, listed);
  }

  /** The team has its budget and spend yet. */
  predicate TeamHolds(l: Ledger, l': Ledger, org: Id)
    requires org in l.teams
  {
    org in l'.teams && l'.teams[org].maxBudget == l.teams[org].maxBudget && l'.teams[org].spend == l.teams[org].spend
  }

  lemma {:induction false} TeamStays(l: Ledger, start: Ledger, org: Id, calls: seq<Call>)
    requires org in start.teams && TeamHolds(start, l, org)
    requires forall c :: c in calls ==> !c.CreateTeam? && !c.DeleteTeam?
    ensures TeamHolds(start, Perform(l, calls), org)
    decreases |calls|
  {
    if calls != [] && !Rejected(l, calls[0]) {
      assert calls[0] in calls;
      TeamStays(Apply(l, calls[0]), start, org, calls[1..]);
    }
  }

  /**
   * From the first request until the team is deleted the user record and the team hold the
   * credits both, so a downgrade loses none of them but may give them out twice.
   */
  lemma HeldTwiceIff(l: Ledger, org: Id, user: Id, shown: bool, home: Option<Id>, listed: seq<Id>, stop: nat)
    requires Restorable(l, org, user, home)
    ensures
      var (budget, spend) := ToRestore(l.teams[org], user, org, shown);
      var account := Account(Some(budget), Some(spend));
      var calls := DowngradeCalls(l, org, user, shown, home, listed);
      var l' := Perform(l, FirstCalls(calls, stop));
      && user in l'.users && (l'.users[user] == account || TeamHolds(l, l', org))
      && (l'.users[user] == account && TeamHolds(l, l', org) <==>
          stop < |calls| && (stop >= 1 || l.users[user] == account))
  {
    var calls := DowngradeCalls(l, org, user, shown, home, listed);
    var first := FirstCalls(calls, stop);
    DowngradeKeepsCredits(l, org, user, shown, home, listed, stop);
    if stop < |calls| {
      assert forall c :: c in first ==> c in calls[..|calls| - 1];
      TeamStays(l, l, org, first);
    } else {
      DowngradedTo(l, org, user, shown, home, listed);
    }
  }

  lemma RestoreCallsRestore(l: Ledger, org: Id, user: Id, shown: bool, home: Option<Id>, listed: seq<Id>, c: Call)
    requires org in l.teams && c in RestoreCalls(l, org, user, shown, home, listed)
    ensures var (budget, spend) := ToRestore(l.teams[org], user, org, shown);
            IsRestoring(c, user, budget, spend, home, listed)
  {
    if c in KeyCalls(listed, home) {
      var i :| 0 <= i < |listed| && KeyCalls(listed, home)[i] == c;
      assert c.key == listed[i];
    }
  }

  // ------------------------------------------------------- the code as methods

  /** The first `n` of the calls have been performed. */
  ghost predicate Done(start: Ledger, calls: seq<Call>, n: nat, l: Ledger) {
    n <= |calls| && Accepted(start, calls[..n]) && l == Perform(start, calls[..n])
  }

  lemma DoneStep(start: Ledger, calls: seq<Call>, n: nat, l: Ledger)
    requires Done(start, calls, n, l) && n < |calls| && !Rejected(l, calls[n])
    ensures Done(start, calls, n + 1, Apply(l, calls[n]))
  {
    PerformLast(start, calls[..n], calls[n]);
    assert calls[..n + 1] == calls[..n] + [calls[n]];
  }

  /** Where the sequence ends: at the cut, at its end, or at a rejection. */
  lemma DoneStops(start: Ledger, calls: seq<Call>, n: nat, l: Ledger, stop: nat)
    requires Done(start, calls, n, l) && n <= stop
    requires n == stop || n == |calls| || Rejected(l, calls[n])
    ensures l == Perform(start, FirstCalls(calls, stop))
  {
    if n == |calls| {
      assert calls[..n] == calls;
    } else if n < stop {
      var first := FirstCalls(calls, stop);
      var rest := first[n..];
      assert first == calls[..n] + rest && rest[0] == calls[n];
      PerformConcat(start, calls[..n], rest);
    }
  }

  class LiteLlmManager {
    var ledger: Ledger
    var sent: nat

    constructor (l: Ledger)
      ensures ledger == l && sent == 0
    {
      ledger := l;
      sent := 0;
    }

    /** One request; it fails when `stop` requests have been made, or when it is rejected. */
    method Post(c: Call, stop: nat) returns (ok: bool)
      modifies this
      ensures ok == (old(sent) < stop && !Rejected(old(ledger), c))
      ensures ok ==> ledger == Apply(old(ledger), c) && sent == old(sent) + 1
      ensures !ok ==> ledger == old(ledger) && sent == old(sent)
    {
      ok := sent < stop && !Rejected(ledger, c);
      if ok {
        ledger := Apply(ledger, c);
        sent := sent + 1;
      }
    }

    /** The next request of the sequence `calls` begun in `start`. */
    method PostNext(c: Call, stop: nat, ghost start: Ledger, ghost calls: seq<Call>) returns (ok: bool)
      requires Done(start, calls, sent, ledger) && sent <= stop && sent < |calls| && calls[sent] == c
      modifies this
      ensures ok == (old(sent) < stop && !Rejected(old(ledger), c)) && (ok ==> ledger == Apply(old(ledger), c))
      ensures ok ==> Done(start, calls, sent, ledger) && sent == old(sent) + 1 <= stop
      ensures !ok ==> ledger == Perform(start, FirstCalls(calls, stop))
    {
      ok := Post(c, stop);
      if ok {
        DoneStep(start, calls, old(sent), old(ledger));
      } else {
        DoneStops(start, calls, sent, ledger, stop);
      }
    }

    /** `_update_user_keys`: a loop over the listed keys; a refused key is skipped. */
    method UpdateUserKeys(listed: seq<Id>, toTeam: Option<Id>, stop: nat, ghost start: Ledger, ghost calls: seq<Call>)
      returns (ok: bool)
      requires Done(start, calls, sent, ledger) && sent <= stop && sent + |listed| <= |calls|
      requires calls[sent..sent + |listed|] == KeyCalls(listed, toTeam)
      modifies this
      ensures ok == (old(sent) + |listed| <= stop)
      ensures ok ==> ledger.users == old(ledger).users && ledger.teams == old(ledger).teams
      ensures ok ==> Done(start, calls, sent, ledger) && sent == old(sent) + |listed| <= stop
      ensures !ok ==> ledger == Perform(start, FirstCalls(calls, stop))
    {
      for i := 0 to |listed|
        invariant Done(start, calls, sent, ledger) && sent == old(sent) + i <= stop
        invariant ledger.users == old(ledger).users && ledger.teams == old(ledger).teams
      {
        assert calls[old(sent) + i] == KeyCalls(listed, toTeam)[i];
        ok := PostNext(UpdateKey(listed[i], toTeam), stop, start, calls);
        if !ok { return; }
      }
      ok := true;
    }

    /** The credits to move; the margin is folded in where it still applies. */
    static method CreditsToMove(a: Account, s: LegacySettings) returns (credits: real)
      ensures credits == Credits(a, s)
    {
      var maxBudget, spend := Or0(a.maxBudget), Or0(a.spend);
      if s.userVersion < 4 && s.billingMargin.Some? && s.billingMargin.value != 0.0 && s.billingMargin.value != 1.0 {
        maxBudget := maxBudget * s.billingMargin.value;
        spend := spend * s.billingMargin.value;
      }
      credits := if maxBudget - spend >= 0.0 then maxBudget - spend else 0.0;
    }

    /** `migrate_entries`, cut short after `stop` requests. */
    method MigrateEntries(org: Id, user: Id, s: LegacySettings, listed: seq<Id>, stop: nat) returns (done: bool)
      modifies this
      ensures ledger == TryMigrate(old(ledger), org, user, s, Attempt(stop, listed))
      ensures done <==>
        && user in old(ledger).users && old(ledger).users[user].maxBudget != None
        && old(ledger).users[user].maxBudget != Some(1000000000.0) && stop >= 3 + |listed|
    {
      sent := 0;
      ghost var calls := MigrateCalls(ledger, org, user, s, listed);
      if user !in ledger.users { return false; }
      var credits := CreditsToMove(ledger.users[user], s);
      if ledger.users[user].maxBudget.None? || ledger.users[user].maxBudget.value == UNLIMITED_BUDGET_SETTING {
        return false;
      }
      done := PostNext(CreateTeam(org, credits), stop, old(ledger), calls);
      if !done { return; }
      done := PostNext(UpdateUser(user, UNLIMITED_BUDGET_SETTING, None), stop, old(ledger), calls);
      if !done { return; }
      done := PostNext(AddMember(org, user, credits), stop, old(ledger), calls);
      if !done { return; }
      assert calls[3..3 + |listed|] == KeyCalls(listed, Some(org));
      done := UpdateUserKeys(listed, Some(org), stop, old(ledger), calls);
      if done { DoneStops(old(ledger), calls, sent, ledger, stop); }
    }

    /** `downgrade_entries`, cut short after `stop` requests or by a rejection. */
    method DowngradeEntries(org: Id, user: Id, shown: bool, home: Option<Id>, listed: seq<Id>, stop: nat)
      returns (done: bool)
      modifies this
      ensures ledger ==
        Perform(old(ledger), FirstCalls(DowngradeCalls(old(ledger), org, user, shown, home, listed), stop))
      ensures done <==>
        && org in old(ledger).teams && user in old(ledger).users && (home.Some? ==> home.value in old(ledger).teams)
        && stop >= |listed| + if home.Some? then 4 else 3
    {
      sent := 0;
      ghost var calls := DowngradeCalls(ledger, org, user, shown, home, listed);
      if org !in ledger.teams { return false; }
      done := RestoreUser(org, user, shown, home, listed, stop, old(ledger), calls);
      if !done { return; }
      done := PostNext(RemoveMember(org, user), stop, old(ledger), calls);
      if !done { return; }
      done := PostNext(DeleteTeam(org), stop, old(ledger), calls);
      if done { DoneStops(old(ledger), calls, sent, ledger, stop); }
    }

    /** Steps 1 to 4 of the downgrade: budget back on the user, default team, keys. */
    method RestoreUser(org: Id, user: Id, shown: bool, home: Option<Id>, listed: seq<Id>, stop: nat,
                       ghost start: Ledger, ghost calls: seq<Call>)
      returns (done: bool)
      requires org in ledger.teams && start == ledger && sent == 0
      requires calls == DowngradeCalls(start, org, user, shown, home, listed)
      modifies this
      ensures done <==>
        && user in start.users && (home.Some? ==> home.value in start.teams)
        && stop >= |listed| + if home.Some? then 2 else 1
      ensures done ==> Done(start, calls, sent, ledger) && sent <= stop && sent == |calls| - 2
      ensures !done ==> ledger == Perform(start, FirstCalls(calls, stop))
    {
      var team := ledger.teams[org];
      var maxBudget, spend := Or0(team.maxBudget), team.spend;
      var info := UserTeamInfo(team, user, org, shown);
      if info.Some? && info.value.maxBudgetInTeam.Some? {
        maxBudget, spend := info.value.maxBudgetInTeam.value, info.value.spend;
      }
      done := PostNext(UpdateUser(user, maxBudget, Some(spend)), stop, start, calls);
      if !done { return; }
      if home.Some? {
        done := PostNext(AddMember(home.value, user, maxBudget), stop, start, calls);
        if !done { return; }
      }
      assert calls[sent..sent + |listed|] == KeyCalls(listed, home);
      done := UpdateUserKeys(listed, home, stop, start, calls);
    }
  }

  lemma {:induction false} PerformLast(l: Ledger, calls: seq<Call>, c: Call)
    requires Accepted(l, calls) && !Rejected(Perform(l, calls), c)
    ensures Accepted(l, calls + [c]) && Perform(l, calls + [c]) == Apply(Perform(l, calls), c)
    decreases |calls|
  {
    if calls == [] {
      assert [c][1..] == [];
    } else {
      PerformLast(Apply(l, calls[0]), calls[1..], c);
      assert (calls + [c])[1..] == calls[1..] + [c];
    }
  }
}
