/**
 * Organisations over the relational store and LiteLLM: the manual delete cascade, the
 * creation saga with its compensation, and switching.  Each call is atomic with respect
 * to the others; faults inside a call are part of the operation.
 */
module OrgLifecycle {
  import opened Prelude

  type Id = string

  /** Tables with a nullable or mandatory `org_id`, besides users, members and conversations. */
  datatype Table =
    | BillingSessions | CustomSecrets | ApiKeys | SlackConversation | SlackUsers | StripeCustomers
    | OrgInvitation | OrgGitClaim | JiraDcWorkspaces

  /** What the foreign key does when the org row goes. */
  datatype OnOrgDelete = Restrict | Cascade | SetNull

  function ForeignKey(t: Table): OnOrgDelete {
    match t
    case OrgInvitation => Cascade
    case OrgGitClaim => Cascade
    case JiraDcWorkspaces => SetNull
    case _ => Restrict
  }

  /** The tables that the deletion clears statement by statement. */
  const DIRECT_TABLES: set<Table> :=
    {BillingSessions, CustomSecrets, ApiKeys, SlackConversation, SlackUsers, StripeCustomers}

  datatype Row = Row(table: Table, id: Id)

  /**
   * `orgs` maps ids to names, `users` to `current_org_id`; `members` holds (org, user);
   * `conversations` is `conversation_metadata_saas`, `metadata` the ids in
   * `conversation_metadata`, `startTasks` the conversation of each start task.
   */
  datatype Db = Db(
    orgs: map<Id, string>, users: map<Id, Id>, members: set<(Id, Id)>,
    conversations: map<Id, Id>, metadata: set<Id>, startTasks: map<Id, Id>,
    owned: map<Row, Option<Id>>)

  /** `cleanups` counts the compensations that were run. */
  datatype State = State(db: Db, teams: set<Id>, cleanups: nat)

  /** How far a creation gets: LiteLLM, entities, commit, refresh after the commit. */
  datatype Fault = NoFault | LiteLlmRefuses | LiteLlmFailsAfterTeam | BuildFails | CommitFails | RefreshFails

  /** Where a deletion fails: a statement before or after the orphan query, LiteLLM, the commit. */
  datatype Stop = NoStop | StatementRaises(beforeOrphanQuery: bool) | LiteLlmRaises | CommitRaises

  /** `awaited`: whether the deletion of the org row itself is performed; as written it is not. */
  datatype Op =
    | AddUser(user: Id, adopted: set<Row>, conversations: set<Id>, teamMade: bool, commitFails: bool)
    | CreateOrg(org: Id, name: string, owner: Id, fault: Fault, cleanupFails: bool)
    | SwitchOrg(user: Id, org: Id)
    | DeleteOrg(org: Id, stop: Stop, awaited: bool)

  // --------------------------------------------------------------- the effects

  function PersonalName(user: Id): string { "user_" + user + "_org" }

  predicate NameTaken(db: Db, name: string) { exists o | o in db.orgs :: db.orgs[o] == name }

  predicate Orphan(db: Db, org: Id, u: Id) {
    u in db.users && db.users[u] == org && !exists m | m in db.members :: m.1 == u && m.0 != org
  }

  predicate InOrg(db: Db, org: Id, conversation: Id) {
    conversation in db.conversations && db.conversations[conversation] == org
  }

  /**
   * The org is gone from every table, and nothing else is; where its own row stays, so do the
   * rows that would have gone or been nulled with it.
   */
  ghost predicate Erased(db: Db, db': Db, org: Id, rowGoes: bool) {
    && db'.orgs == (if rowGoes then db.orgs - {org} else db.orgs)
    && db'.users.Keys == db.users.Keys
    && (forall u :: u in db.users && db.users[u] != org ==> db'.users[u] == db.users[u])
    && (forall u :: u in db.users && db.users[u] == org ==>
          db'.users[u] != org && (db'.users[u], u) in db.members)
    && db'.members == (set m | m in db.members && m.0 != org)
    && db'.conversations == (map c | c in db.conversations && db.conversations[c] != org :: db.conversations[c])
    && db'.metadata == (set c | c in db.metadata && !InOrg(db, org, c))
    && db'.startTasks == (map t | t in db.startTasks && !InOrg(db, org, db.startTasks[t]) :: db.startTasks[t])
    && (forall r :: r in db'.owned <==> r in db.owned && (db.owned[r] == Some(org) ==> Stays(r.table, rowGoes)))
    && (forall r :: r in db'.owned ==>
          db'.owned[r] == if db.owned[r] == Some(org) && rowGoes then None else db.owned[r])
  }

  predicate Stays(t: Table, rowGoes: bool) { if rowGoes then ForeignKey(t).SetNull? else !ForeignKey(t).Restrict? }

  /** The inserts that the database refuses. */
  predicate Clash(db: Db, op: Op)
    requires op.AddUser?
  {
    var u := op.user;
    || u in db.orgs || u in db.users || NameTaken(db, PersonalName(u))
    || exists c | c in op.conversations :: c in db.conversations
  }

  /**
   * `create_user` and `migrate_user`; the latter also adopts the user's older rows and
   * conversations.
   */
  ghost predicate AddUserEffect(s: State, op: Op, s': State)
    requires op.AddUser?
  {
    var u := op.user;
    && s'.teams == (if op.teamMade then s.teams + {u} else s.teams) && s'.cleanups == s.cleanups
    && s'.db == if Clash(s.db, op) || op.commitFails then s.db else WithUser(s.db, op)
  }

  function WithUser(db: Db, op: Op): Db
    requires op.AddUser?
  {
    var u := op.user;
    db.(orgs := db.orgs[u := PersonalName(u)], users := db.users[u := u], members := db.members + {(u, u)},
        conversations := db.conversations + (map c | c in op.conversations :: u),
        owned := map r | r in db.owned :: if r in op.adopted then Some(u) else db.owned[r])
  }

  /** Whether the database accepts the new org and its owner's membership. */
  predicate Persistable(db: Db, op: Op)
    requires op.CreateOrg?
  {
    op.org !in db.orgs && !NameTaken(db, op.name) && op.owner in db.users
  }

  function WithOrg(db: Db, op: Op): Db
    requires op.CreateOrg?
  {
    db.(orgs := db.orgs[op.org := op.name], members := db.members + {(op.org, op.owner)})
  }

  /** The failures after which `_handle_failure_with_cleanup` runs. */
  predicate FailsAfterSetup(db: Db, op: Op)
    requires op.CreateOrg?
  {
    !NameTaken(db, op.name) && op.fault != LiteLlmRefuses && op.fault != LiteLlmFailsAfterTeam &&
    (op.fault != NoFault || !Persistable(db, op))
  }

  ghost predicate CreateOrgEffect(s: State, op: Op, s': State)
    requires op.CreateOrg?
  {
    var persisted := Persistable(s.db, op) && (op.fault.NoFault? || op.fault.RefreshFails?);
    && s'.cleanups == s.cleanups + (if FailsAfterSetup(s.db, op) then 1 else 0)
    && s'.db == (if persisted then WithOrg(s.db, op) else s.db)
    && s'.teams ==
        if NameTaken(s.db, op.name) || op.fault.LiteLlmRefuses? then s.teams
        else if FailsAfterSetup(s.db, op) && !op.cleanupFails then s.teams - {op.org}
        else s.teams + {op.org}
  }

  ghost predicate SwitchOrgEffect(s: State, op: Op, s': State)
    requires op.SwitchOrg?
  {
    var db := s.db;
    s' == if op.org in db.orgs && (op.org, op.user) in db.members && op.user in db.users
          then s.(db := db.(users := db.users[op.user := op.org]))
          else s
  }

  /** Nothing raises before the commit, so LiteLLM has deleted the team. */
  ghost predicate ReachesCommit(db: Db, op: Op)
    requires op.DeleteOrg?
  {
    (op.stop.NoStop? || op.stop.CommitRaises?) && !exists u :: Orphan(db, op.org, u)
  }

  ghost predicate DeleteOrgEffect(s: State, op: Op, s': State)
    requires op.DeleteOrg?
  {
    if op.org !in s.db.orgs || !ReachesCommit(s.db, op) then s' == s
    else
      && s'.teams == s.teams - {op.org} && s'.cleanups == s.cleanups
      && if op.stop.CommitRaises? then s'.db == s.db else Erased(s.db, s'.db, op.org, op.awaited)
  }

  ghost predicate Effect(s: State, op: Op, s': State) {
    match op
    case AddUser(_, _, _, _, _) => AddUserEffect(s, op, s')
    case CreateOrg(_, _, _, _, _) => CreateOrgEffect(s, op, s')
    case SwitchOrg(_, _) => SwitchOrgEffect(s, op, s')
    case DeleteOrg(_, _, _) => DeleteOrgEffect(s, op, s')
  }

  /** `states` is a run of `ops`. */
  ghost predicate Run(states: seq<State>, ops: seq<Op>) {
    && |states| == |ops| + 1
    && forall i :: 0 <= i < |ops| ==> Effect(states[i], ops[i], states[i + 1])
  }

  // ------------------------------------------------------- the current-org invariant

  /** Each current org exists and its user is a member; memberships refer to live rows. */
  ghost predicate CurrentOrgOk(db: Db) {
    && (forall u :: u in db.users ==> db.users[u] in db.orgs && (db.users[u], u) in db.members)
    && (forall m :: m in db.members ==> m.0 in db.orgs && m.1 in db.users)
  }

  /** No row of any table references an org that does not exist. */
  ghost predicate ReferencesOk(db: Db) {
    && (forall c :: c in db.conversations ==> db.conversations[c] in db.orgs)
    && (forall r :: r in db.owned && db.owned[r].Some? ==> db.owned[r].value in db.orgs)
  }

  lemma ErasedKeepsInvariants(db: Db, db': Db, org: Id, rowGoes: bool)
    requires CurrentOrgOk(db) && ReferencesOk(db) && Erased(db, db', org, rowGoes)
    ensures CurrentOrgOk(db') && ReferencesOk(db')
  {
    forall u | u in db'.users
      ensures db'.users[u] in db'.orgs && (db'.users[u], u) in db'.members
    {
      assert u in db.users;
      assert (db'.users[u], u) in db.members;
    }
    forall r | r in db'.owned && db'.owned[r].Some?
      ensures db'.owned[r].value in db'.orgs
    {
      assert db.owned[r].value in db.orgs;
    }
  }

  lemma StepKeepsInvariants(s: State, op: Op, s': State)
    requires CurrentOrgOk(s.db) && ReferencesOk(s.db) && Effect(s, op, s')
    ensures CurrentOrgOk(s'.db) && ReferencesOk(s'.db)
  {
    if op.DeleteOrg? {
      if s'.db != s.db { ErasedKeepsInvariants(s.db, s'.db, op.org, op.awaited); }
    }
  }

  /** In every reachable state, whatever failed on the way, `current_org_id` is sound. */
  lemma {:induction false} ReachableKeepInvariants(states: seq<State>, ops: seq<Op>)
    requires Run(states, ops) && CurrentOrgOk(states[0].db) && ReferencesOk(states[0].db)
    ensures forall s :: s in states ==> CurrentOrgOk(s.db) && ReferencesOk(s.db)
  {
    forall s | s in states ensures CurrentOrgOk(s.db) && ReferencesOk(s.db) {
      var i :| 0 <= i < |states| && states[i] == s;
      ReachedKeepsInvariants(states, ops, i);
    }
  }

  lemma {:induction false} ReachedKeepsInvariants(states: seq<State>, ops: seq<Op>, i: nat)
    requires Run(states, ops) && CurrentOrgOk(states[0].db) && ReferencesOk(states[0].db) && i < |states|
    ensures CurrentOrgOk(states[i].db) && ReferencesOk(states[i].db)
  {
    if i > 0 {
      ReachedKeepsInvariants(states, ops, i - 1);
      assert Effect(states[i - 1], ops[i - 1], states[i - 1 + 1]);
      StepKeepsInvariants(states[i - 1], ops[i - 1], states[i]);
    }
  }

  /** What a deleted org leaves behind: nothing that refers to it or to its conversations. */
  lemma ErasedLeavesNoReference(db: Db, db': Db, org: Id)
    requires Erased(db, db', org, true)
    ensures org !in db'.orgs && (forall u :: u in db'.users ==> db'.users[u] != org)
    ensures forall m :: m in db'.members ==> m.0 != org
    ensures forall c :: c in db'.conversations ==> db'.conversations[c] != org
    ensures forall r :: r in db'.owned ==> db'.owned[r] != Some(org)
    ensures forall c :: InOrg(db, org, c) ==>
              c !in db'.metadata && c !in db'.conversations
              && forall t :: t in db'.startTasks ==> db'.startTasks[t] != c
  {
    forall u | u in db'.users ensures db'.users[u] != org {
      assert u in db.users;
    }
    forall c | InOrg(db, org, c)
      ensures c !in db'.metadata && c !in db'.conversations
        && forall t :: t in db'.startTasks ==> db'.startTasks[t] != c
    {
    }
  }

  /** Everything else stays, but that Jira workspaces lose their org, and invitations and claims go. */
  lemma ErasedSparesTheRest(db: Db, db': Db, org: Id)
    requires Erased(db, db', org, true)
    ensures forall o :: o in db.orgs && o != org ==> o in db'.orgs && db'.orgs[o] == db.orgs[o]
    ensures forall u :: u in db.users ==> u in db'.users && (db.users[u] != org ==> db'.users[u] == db.users[u])
    ensures forall m :: m in db.members && m.0 != org ==> m in db'.members
    ensures forall c :: c in db.conversations && db.conversations[c] != org ==>
              c in db'.conversations && db'.conversations[c] == db.conversations[c]
    ensures forall c :: c in db.metadata && (c in db.conversations ==> db.conversations[c] != org) ==>
              c in db'.metadata
    ensures forall t, c | t in db.startTasks && c == db.startTasks[t] ::
              (c in db.conversations ==> db.conversations[c] != org) ==>
                t in db'.startTasks && db'.startTasks[t] == c
    ensures forall r :: r in db.owned && db.owned[r] != Some(org) ==> r in db'.owned && db'.owned[r] == db.owned[r]
    ensures forall r :: r in db.owned && db.owned[r] == Some(org) ==> (r in db'.owned <==> r.table.JiraDcWorkspaces?)
    ensures forall r :: r in db.owned && db.owned[r] == Some(org) && r in db'.owned ==> db'.owned[r].None?
  {
  }

  // -------------------------------------------------------------- LiteLLM in step

  ghost predicate Synced(s: State) { s.teams == s.db.orgs.Keys }

  /** The faults after which LiteLLM and the database disagree. */
  ghost predicate Desyncs(s: State, op: Op) {
    match op
    case SwitchOrg(_, _) => false
    case AddUser(u, _, _, teamMade, commitFails) =>
      u !in s.db.orgs && (teamMade <==> commitFails || Clash(s.db, op))
    case CreateOrg(_, name, _, fault, cleanupFails) =>
      !NameTaken(s.db, name) &&
      (match fault
       case NoFault => !Persistable(s.db, op) && cleanupFails
       case LiteLlmRefuses => false
       case LiteLlmFailsAfterTeam => true
       case BuildFails => cleanupFails
       case CommitFails => cleanupFails
       case RefreshFails => Persistable(s.db, op) <==> !cleanupFails)
    case DeleteOrg(org, stop, awaited) =>
      org in s.db.orgs && ReachesCommit(s.db, op) && (stop.CommitRaises? || !awaited)
  }

  /** A fresh id, as `uuid4` gives: used by no org and no team. */
  ghost predicate FreshId(s: State, op: Op) {
    op.CreateOrg? ==> op.org !in s.db.orgs && op.org !in s.teams
  }

  /** One operation keeps teams and orgs equal exactly when none of those faults hits it. */
  lemma SyncedIffNoDesync(s: State, op: Op, s': State)
    requires Synced(s) && FreshId(s, op) && Effect(s, op, s')
    ensures Synced(s') <==> !Desyncs(s, op)
  {
    match op
    case SwitchOrg(_, _) =>
    case AddUser(u, _, _, _, _) =>
      assert u in s'.teams <==> u in s.teams || op.teamMade;
      assert forall o :: o != u ==> (o in s'.teams <==> o in s'.db.orgs);
    case CreateOrg(org, _, _, _, _) =>
      assert forall o :: o != org ==> (o in s'.teams <==> o in s'.db.orgs);
      assert Synced(s') <==> (org in s'.teams <==> org in s'.db.orgs);
    case DeleteOrg(org, _, _) =>
      assert org in s.db.orgs && s'.teams == s.teams - {org} ==> org in s.teams && org !in s'.teams;
  }

  /** As written, every deletion that gets through leaves an org row without a team. */
  lemma UnawaitedDeleteDesyncs(s: State, op: Op, s': State)
    requires Synced(s) && op.DeleteOrg? && !op.awaited && Effect(s, op, s')
    ensures Synced(s') <==> op.org !in s.db.orgs || !ReachesCommit(s.db, op)
    ensures !Synced(s') ==> op.org in s'.db.orgs && op.org !in s'.teams
  {
    SyncedIffNoDesync(s, op, s');
  }

  /** Over a run without such faults the sets agree after every call. */
  lemma {:induction false} SyncedThroughout(states: seq<State>, ops: seq<Op>)
    requires Run(states, ops) && Synced(states[0])
    requires forall i :: 0 <= i < |ops| ==> FreshId(states[i], ops[i]) && !Desyncs(states[i], ops[i])
    ensures forall s :: s in states ==> Synced(s)
  {
    for i := 0 to |ops|
      invariant forall j :: 0 <= j <= i ==> Synced(states[j])
    {
      SyncedIffNoDesync(states[i], ops[i], states[i + 1]);
    }
  }

  // ------------------------------------------------------- the code as methods

  datatype CreateOutcome = Created | OrgNameExistsError | LiteLLMIntegrationError | OrgDatabaseError | UnexpectedError
  datatype DeleteOutcome =
    | Deleted | NotFound | OrphanedUserError(users: set<Id>) | DatabaseError | LiteLlmError | CommitError
  datatype SwitchOutcome = Switched | OrgNotFoundError | OrgAuthorizationError | SwitchFailed

  /** The users of the org have moved to another org of theirs, the others have stayed. */
  ghost predicate Reassigned(start: Db, tx: Db, org: Id) {
    && tx.users.Keys == start.users.Keys
    && (forall u :: u in start.users && start.users[u] != org ==> tx.users[u] == start.users[u])
    && (forall u :: u in start.users && start.users[u] == org ==>
          tx.users[u] != org && (tx.users[u], u) in start.members)
  }

  /** The org's conversation data and restricting references are deleted. */
  ghost predicate OwnedRowsGone(start: Db, tx: Db, org: Id) {
    tx == start.(
      metadata := (set c | c in start.metadata && !InOrg(start, org, c)),
      startTasks := (map t | t in start.startTasks && !InOrg(start, org, start.startTasks[t]) :: start.startTasks[t]),
      conversations := (map c | c in start.conversations && start.conversations[c] != org :: start.conversations[c]),
      owned := (map r | r in start.owned && (start.owned[r] == Some(org) ==> !ForeignKey(r.table).Restrict?) ::
                  start.owned[r]))
  }

  /** The new user with the personal org, the membership, and what the user adopts. */
  ghost predicate UserIsSetUp(db: Db, op: Op, db': Db)
    requires op.AddUser?
  {
    && db'.orgs == db.orgs[op.user := "user_" + op.user + "_org"]
    && db'.users == db.users[op.user := op.user] && db'.members == db.members + {(op.user, op.user)}
    && db'.metadata == db.metadata && db'.startTasks == db.startTasks
    && db'.conversations.Keys == db.conversations.Keys + op.conversations
    && (forall c :: c in db'.conversations ==>
          db'.conversations[c] == if c in op.conversations then op.user else db.conversations[c])
    && db'.owned.Keys == db.owned.Keys
    && (forall r :: r in db'.owned ==> db'.owned[r] == if r in op.adopted then Some(op.user) else db.owned[r])
  }

  class Platform {
    var db: Db
    var teams: set<Id>
    var cleanups: nat

    ghost function Current(): State reads this { State(db, teams, cleanups) }

    constructor (db: Db, teams: set<Id>)
      ensures Current() == State(db, teams, 0)
    {
      this.db, this.teams, this.cleanups := db, teams, 0;
    }

    // ------------------------------------------------ create_org_with_owner

    /** Validation, LiteLLM, then the guarded steps 4 to 7. */
    method CreateOrgWithOwner(op: Op) returns (outcome: CreateOutcome)
      requires op.CreateOrg?
      modifies this
      ensures Effect(old(Current()), op, Current())
      ensures !outcome.UnexpectedError?
      ensures outcome.OrgNameExistsError? <==> exists o :: o in old(db).orgs && old(db).orgs[o] == op.name
      ensures outcome.LiteLLMIntegrationError? <==>
        !outcome.OrgNameExistsError? && (op.fault.LiteLlmRefuses? || op.fault.LiteLlmFailsAfterTeam?)
      ensures
        var accepted := !outcome.OrgNameExistsError? && op.org !in old(db).orgs && op.owner in old(db).users;
        && (outcome.Created? <==> accepted && op.fault.NoFault?)
        && db == if !accepted || !(op.fault.NoFault? || op.fault.RefreshFails?) then old(db)
                 else old(db).(orgs := old(db).orgs[op.org := op.name],
                               members := old(db).members + {(op.org, op.owner)})
      ensures teams ==
        if outcome.OrgNameExistsError? || op.fault.LiteLlmRefuses? then old(teams)
        else if outcome.OrgDatabaseError? && !op.cleanupFails then old(teams) - {op.org}
        else old(teams) + {op.org}
      ensures cleanups == old(cleanups) + if outcome.OrgDatabaseError? then 1 else 0
    {
      if NameTaken(db, op.name) { return OrgNameExistsError; }
      if op.fault.LiteLlmRefuses? { return LiteLLMIntegrationError; }
      teams := teams + {op.org};
      if op.fault.LiteLlmFailsAfterTeam? { return LiteLLMIntegrationError; }
      outcome := BuildAndPersist(op);
      if outcome.UnexpectedError? {
        // OrgDatabaseError means the compensation has been run already
        outcome := HandleFailureWithCleanup(op);
      }
    }

    /** Steps 4 to 7: entities, owner role, and the persistence with its own compensation. */
    method BuildAndPersist(op: Op) returns (outcome: CreateOutcome)
      requires op.CreateOrg? && !op.fault.LiteLlmRefuses? && !op.fault.LiteLlmFailsAfterTeam?
      modifies this
      ensures outcome.UnexpectedError? || outcome.Created? || outcome.OrgDatabaseError?
      ensures outcome.UnexpectedError? <==> op.fault.BuildFails?
      ensures outcome.Created? <==> op.fault.NoFault? && Persistable(old(db), op)
      ensures cleanups == old(cleanups) + if outcome.OrgDatabaseError? then 1 else 0
      ensures teams == if outcome.OrgDatabaseError? && !op.cleanupFails then old(teams) - {op.org} else old(teams)
      ensures db == if (op.fault.NoFault? || op.fault.RefreshFails?) && Persistable(old(db), op)
                    then WithOrg(old(db), op) else old(db)
    {
      if op.fault.BuildFails? { return UnexpectedError; }
      var persisted := PersistOrgWithOwner(op);
      if persisted { return Created; }
      outcome := HandleFailureWithCleanup(op);
    }

    /** One transaction; the refresh after the commit may still raise. */
    method PersistOrgWithOwner(op: Op) returns (ok: bool)
      requires op.CreateOrg? && !op.fault.BuildFails?
      requires !op.fault.LiteLlmRefuses? && !op.fault.LiteLlmFailsAfterTeam?
      modifies this`db
      ensures ok <==> op.fault.NoFault? && Persistable(old(db), op)
      ensures db == if !op.fault.CommitFails? && Persistable(old(db), op) then WithOrg(old(db), op) else old(db)
    {
      if op.fault.CommitFails? || op.org in db.orgs || NameTaken(db, op.name) || op.owner !in db.users {
        return false;
      }
      db := db.(orgs := db.orgs[op.org := op.name], members := db.members + {(op.org, op.owner)});
      ok := !op.fault.RefreshFails?;
    }

    /** The compensation: delete the team, best effort, and always raise `OrgDatabaseError`. */
    method HandleFailureWithCleanup(op: Op) returns (outcome: CreateOutcome)
      requires op.CreateOrg?
      modifies this`teams, this`cleanups
      ensures outcome.OrgDatabaseError? && cleanups == old(cleanups) + 1
      ensures teams == if op.cleanupFails then old(teams) else old(teams) - {op.org}
    {
      cleanups := cleanups + 1;
      if !op.cleanupFails { teams := teams - {op.org}; }
      outcome := OrgDatabaseError;
    }

    // ----------------------------------------------------- delete_org_cascade

    /** The cascade in a transaction, the LiteLLM team, then the commit. */
    method DeleteOrgCascade(op: Op) returns (outcome: DeleteOutcome)
      requires op.DeleteOrg?
      modifies this
      ensures Effect(old(Current()), op, Current())
      ensures outcome.NotFound? <==> op.org !in old(db).orgs
      ensures outcome.Deleted? ==> Erased(old(db), db, op.org, op.awaited)
      ensures outcome.OrphanedUserError? <==>
        && op.org in old(db).orgs && op.stop != StatementRaises(true)
        && exists u :: u in old(db).users && old(db).users[u] == op.org
             && forall m :: m in old(db).members && m.1 == u ==> m.0 == op.org
      ensures outcome.OrphanedUserError? ==>
        forall u :: u in outcome.users <==>
          && u in old(db).users && old(db).users[u] == op.org
          && forall m :: m in old(db).members && m.1 == u ==> m.0 == op.org
      ensures outcome.Deleted? <==>
        op.org in old(db).orgs && op.stop.NoStop? && !outcome.OrphanedUserError?
      ensures outcome.LiteLlmError? <==>
        op.org in old(db).orgs && op.stop.LiteLlmRaises? && !outcome.OrphanedUserError?
      ensures outcome.CommitError? <==>
        op.org in old(db).orgs && op.stop.CommitRaises? && !outcome.OrphanedUserError?
      ensures !outcome.Deleted? ==> db == old(db)
      ensures teams == if outcome.Deleted? || outcome.CommitError? then old(teams) - {op.org} else old(teams)
    {
      var org := op.org;
      if org !in db.orgs { return NotFound; }
      var tx := DeleteOwnedRows(db, org);
      if op.stop == StatementRaises(true) { return DatabaseError; }
      var orphans := set u | u in tx.users && Orphan(tx, org, u);
      assert forall u :: u in orphans <==> Orphan(tx, org, u);
      assert forall u :: Orphan(tx, org, u) <==> Orphan(db, org, u);
      if orphans != {} {
        var u :| u in orphans;
        assert Orphan(db, org, u);
        return OrphanedUserError(orphans);
      }
      forall u ensures !Orphan(db, org, u) && !Orphan(tx, org, u) {
        assert u !in orphans;
      }
      tx := RemoveOrg(tx, org, op.awaited, db);
      if op.stop == StatementRaises(false) { return DatabaseError; }
      if op.stop.LiteLlmRaises? { return LiteLlmError; }
      teams := teams - {org};
      if op.stop.CommitRaises? { return CommitError; }
      db := tx;
      outcome := Deleted;
    }

    /** Steps 3 to 5: reassign the users, delete the memberships, delete the org. */
    method RemoveOrg(start: Db, org: Id, awaited: bool, ghost before: Db) returns (tx: Db)
      requires forall u :: !Orphan(start, org, u)
      requires OwnedRowsGone(before, start, org)
      ensures Erased(before, tx, org, awaited)
    {
      tx := ReassignCurrentOrg(start, org);
      DeletingMembers(before, start, tx, org);
      tx := tx.(members := set m | m in tx.members && m.0 != org);
      if awaited {
        ErasedIsUnreferenced(before, tx, org);
        DeletingTheRow(before, tx, org);
        tx := DeleteOrgRow(tx, org);
      }
    }

    /** Statements 1 and 2: conversation data, then the tables with a direct `org_id`. */
    method DeleteOwnedRows(start: Db, org: Id) returns (tx: Db)
      ensures OwnedRowsGone(start, tx, org)
    {
      tx := DeleteConversationData(start, org);
      assert Purge(start.owned, {}, org) == start.owned;
      tx := DeleteRows(tx, BillingSessions, org, start.owned, {});
      assert tx.owned == Purge(start.owned, {BillingSessions}, org);
      tx := tx.(conversations := map c | c in tx.conversations && tx.conversations[c] != org :: tx.conversations[c]);
      tx := DeleteDirectReferences(tx, org, start.owned);
      RestrictingTables(start.owned, DIRECT_TABLES, org);
    }

    /** The five statements after the conversations. */
    method DeleteDirectReferences(start: Db, org: Id, ghost owned: map<Row, Option<Id>>) returns (tx: Db)
      requires start.owned == Purge(owned, {BillingSessions}, org)
      ensures tx == start.(owned := Purge(owned, DIRECT_TABLES, org))
    {
      ghost var done := {BillingSessions};
      tx := DeleteRows(start, CustomSecrets, org, owned, done);
      done := done + {CustomSecrets};
      tx := DeleteRows(tx, ApiKeys, org, owned, done);
      done := done + {ApiKeys};
      tx := DeleteRows(tx, SlackConversation, org, owned, done);
      done := done + {SlackConversation};
      tx := DeleteRows(tx, SlackUsers, org, owned, done);
      done := done + {SlackUsers};
      tx := DeleteRows(tx, StripeCustomers, org, owned, done);
      assert done + {StripeCustomers} == DIRECT_TABLES;
    }

    /** `DELETE FROM t WHERE org_id = :org_id`, after the same for the tables in `done`. */
    method DeleteRows(tx: Db, t: Table, org: Id, ghost start: map<Row, Option<Id>>, ghost done: set<Table>)
      returns (tx': Db)
      requires tx.owned == Purge(start, done, org)
      ensures tx' == tx.(owned := Purge(start, done + {t}, org))
    {
      tx' := tx.(owned := map r | r in tx.owned && !(r.table == t && tx.owned[r] == Some(org)) :: tx.owned[r]);
    }

    method DeleteConversationData(start: Db, org: Id) returns (tx: Db)
      ensures tx == start.(
        metadata := (set c | c in start.metadata && !InOrg(start, org, c)),
        startTasks := (map t | t in start.startTasks && !InOrg(start, org, start.startTasks[t]) :: start.startTasks[t]))
    {
      tx := start.(metadata := set c | c in start.metadata && !InOrg(start, org, c));
      tx := tx.(startTasks :=
        map t | t in tx.startTasks && !InOrg(tx, org, tx.startTasks[t]) :: tx.startTasks[t]);
    }

    /** The one UPDATE that moves every affected user to some other org of theirs. */
    method ReassignCurrentOrg(start: Db, org: Id) returns (tx: Db)
      requires forall u :: !Orphan(start, org, u)
      ensures tx == start.(users := tx.users) && Reassigned(start, tx, org)
    {
      tx := start;
      var todo := set u | u in start.users && start.users[u] == org;
      while todo != {}
        invariant todo <= start.users.Keys
        invariant tx == start.(users := tx.users) && tx.users.Keys == start.users.Keys
        invariant forall u :: u in start.users && start.users[u] != org ==> u !in todo && tx.users[u] == start.users[u]
        invariant forall u :: u in start.users && start.users[u] == org ==>
                    u in todo || (tx.users[u] != org && (tx.users[u], u) in start.members)
        decreases todo
      {
        var u :| u in todo;
        assert !Orphan(start, org, u);
        var m :| m in start.members && m.1 == u && m.0 != org;
        tx := tx.(users := tx.users[u := m.0]);
        todo := todo - {u};
      }
    }

    // ------------------------------------------------- switch_org, create_user

    method SwitchToOrg(op: Op) returns (outcome: SwitchOutcome)
      requires op.SwitchOrg?
      modifies this`db
      ensures Effect(old(Current()), op, Current())
      ensures outcome.Switched? <==>
        op.org in old(db).orgs && (op.org, op.user) in old(db).members && op.user in old(db).users
      ensures outcome.OrgNotFoundError? <==> op.org !in old(db).orgs
      ensures outcome.OrgAuthorizationError? <==> op.org in old(db).orgs && (op.org, op.user) !in old(db).members
      ensures db ==
        if outcome.Switched? then old(db).(users := old(db).users[op.user := op.org]) else old(db)
    {
      if op.org !in db.orgs { return OrgNotFoundError; }
      if (op.org, op.user) !in db.members { return OrgAuthorizationError; }
      if op.user !in db.users { return SwitchFailed; }
      db := db.(users := db.users[op.user := op.org]);
      outcome := Switched;
    }

    /** `create_user` (nothing adopted) and `migrate_user`, after LiteLLM. */
    method CreateUser(op: Op) returns (ok: bool)
      requires op.AddUser?
      modifies this
      ensures Effect(old(Current()), op, Current())
      ensures ok <==>
        && !op.commitFails && op.user !in old(db).orgs && op.user !in old(db).users
        && (forall o :: o in old(db).orgs ==> old(db).orgs[o] != "user_" + op.user + "_org")
        && op.conversations !! old(db).conversations.Keys
      ensures !ok ==> db == old(db)
      ensures ok ==> UserIsSetUp(old(db), op, db)
      ensures teams == if op.teamMade then old(teams) + {op.user} else old(teams)
    {
      var u := op.user;
      if op.teamMade { teams := teams + {u}; }
      if op.commitFails || u in db.orgs || u in db.users || NameTaken(db, PersonalName(u)) { return false; }
      if exists c | c in op.conversations :: c in db.conversations { return false; }
      db := db.(orgs := db.orgs[u := PersonalName(u)]);
      db := db.(users := db.users[u := u]);
      db := db.(members := db.members + {(u, u)});
      db := db.(conversations := db.conversations + (map c | c in op.conversations :: u));
      db := db.(owned := map r | r in db.owned :: if r in op.adopted then Some(u) else db.owned[r]);
      ok := true;
    }
  }

  /** The rows that survive deleting the org's rows from all of `tables`. */
  function Purge(owned: map<Row, Option<Id>>, tables: set<Table>, org: Id): map<Row, Option<Id>> {
    map r | r in owned && !(r.table in tables && owned[r] == Some(org)) :: owned[r]
  }

  /** Purging the tables whose foreign key restricts spares only what the database cascades or nulls. */
  lemma RestrictingTables(owned: map<Row, Option<Id>>, tables: set<Table>, org: Id)
    requires forall t: Table :: t in tables <==> ForeignKey(t).Restrict?
    ensures Purge(owned, tables, org)
      == map r | r in owned && (owned[r] == Some(org) ==> !ForeignKey(r.table).Restrict?) :: owned[r]
  {
  }

  /** Some restricting foreign key still points at the org: its row cannot be deleted. */
  ghost predicate StillReferenced(db: Db, org: Id) {
    || (exists u :: u in db.users && db.users[u] == org)
    || (exists m :: m in db.members && m.0 == org)
    || (exists c :: c in db.conversations && db.conversations[c] == org)
    || (exists r :: r in db.owned && db.owned[r] == Some(org) && ForeignKey(r.table).Restrict?)
  }

  /** Deleting the org row, with what the database does to cascading and nulling references. */
  function DeleteOrgRow(db: Db, org: Id): Db
    requires !StillReferenced(db, org)
  {
    db.(orgs := db.orgs - {org},
        owned := map r | r in db.owned && (db.owned[r] == Some(org) ==> ForeignKey(r.table).SetNull?) ::
                   if db.owned[r] == Some(org) then None else db.owned[r])
  }

  lemma DeletingMembers(db: Db, start: Db, tx: Db, org: Id)
    requires OwnedRowsGone(db, start, org) && tx == start.(users := tx.users) && Reassigned(start, tx, org)
    ensures Erased(db, tx.(members := set m | m in tx.members && m.0 != org), org, false)
  {
  }

  lemma ErasedIsUnreferenced(db: Db, tx: Db, org: Id)
    requires Erased(db, tx, org, false)
    ensures !StillReferenced(tx, org)
  {
    assert forall u :: u in tx.users ==> u in db.users && tx.users[u] != org;
  }

  lemma DeletingTheRow(db: Db, tx: Db, org: Id)
    requires Erased(db, tx, org, false) && !StillReferenced(tx, org)
    ensures Erased(db, DeleteOrgRow(tx, org), org, true)
  {
  }
}
