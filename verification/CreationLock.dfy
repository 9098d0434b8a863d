/**
 * `UserStore.get_user_by_id` for one user: callers race to migrate the legacy
 * settings under a Redis lock that carries no owner, expires after 30 s and is
 * deleted unconditionally on the way out.
 */
module CreationLock {
  import opened Prelude

  const REDIS_CREATE_TIMEOUT_SECONDS: int := 30

  type Caller = nat

  /** `acquired` is when the caller's critical section began. */
  datatype Phase =
    | Arrived
    | Waiting
    | Inside(acquired: int)
    | Migrating(acquired: int)
    | Leaving(acquired: int)
    | Finished(found: bool)

  /** `lock` is the expiry of the Redis key, `unmigrated` whether legacy settings wait. */
  datatype World = World(now: int, lock: Option<int>, userExists: bool, unmigrated: bool, callers: map<Caller, Phase>)

  datatype Action =
    | Tick(now: int)
    | Arrive(c: Caller)
    | Load(c: Caller)
    | TryLock(c: Caller)
    | Reread(c: Caller, userInfoFound: bool)
    | CommitMigration(c: Caller)
    | MigrationFails(c: Caller)
    | Release(c: Caller)
    | Crash(c: Caller)
    | TryLockWithRedisDown(c: Caller)
    | MigrateWithoutLock(c: Caller)

  predicate LockHeld(w: World) { w.lock.Some? && w.now < w.lock.value }

  predicate At(w: World, c: Caller, p: Phase) { c in w.callers && w.callers[c] == p }

  predicate Enabled(w: World, a: Action) {
    match a
    case Tick(now) => now >= w.now
    case Arrive(c) => c in w.callers ==> w.callers[c].Finished?
    case Load(c) => At(w, c, Arrived)
    case TryLock(c) => At(w, c, Waiting)
    case TryLockWithRedisDown(c) => At(w, c, Waiting)
    case Reread(c, _) => c in w.callers && w.callers[c].Inside?
    case CommitMigration(c) => c in w.callers && w.callers[c].Migrating? && !w.userExists
    case MigrationFails(c) => c in w.callers && w.callers[c].Migrating?
    case Release(c) => c in w.callers && w.callers[c].Leaving?
    case Crash(c) => c in w.callers
    case MigrateWithoutLock(c) => (c in w.callers ==> w.callers[c].Finished?) && !w.userExists && w.unmigrated
  }

  function Put(w: World, c: Caller, p: Phase): World { w.(callers := w.callers[c := p]) }

  function Next(w: World, a: Action): World
    requires Enabled(w, a)
  {
    match a
    case Tick(now) => w.(now := now)
    case Arrive(c) => Put(w, c, Arrived)
    case Load(c) => Put(w, c, if w.userExists then Finished(true) else Waiting)
    case TryLock(c) =>
      if LockHeld(w) then w
      else Put(w, c, Inside(w.now)).(lock := Some(w.now + REDIS_CREATE_TIMEOUT_SECONDS))
    case TryLockWithRedisDown(c) => Put(w, c, Inside(w.now))
    case Reread(c, userInfoFound) =>
      var acquired := w.callers[c].acquired;
      Put(w, c, if !w.userExists && w.unmigrated && userInfoFound then Migrating(acquired) else Leaving(acquired))
    case CommitMigration(c) =>
      Put(w, c, Leaving(w.callers[c].acquired)).(userExists := true, unmigrated := false)
    case MigrationFails(c) => Put(w, c, Leaving(w.callers[c].acquired))
    case Release(c) => Put(w, c, Finished(w.userExists)).(lock := None)
    case Crash(c) => w.(callers := w.callers - {c})
    case MigrateWithoutLock(c) => Put(w, c, Migrating(w.now))
  }

  /** From acquiring the lock to having released it. */
  predicate Critical(p: Phase) { p.Inside? || p.Migrating? || p.Leaving? }

  /**
   * The three assumptions: Redis answers, everyone migrates through this path, and the
   * clock does not reach a critical section's thirtieth second before it ends.
   */
  ghost predicate Assumed(w: World, a: Action) {
    && !a.TryLockWithRedisDown? && !a.MigrateWithoutLock?
    && (a.Tick? ==> forall c :: c in w.callers && Critical(w.callers[c]) ==>
          a.now < w.callers[c].acquired + REDIS_CREATE_TIMEOUT_SECONDS)
  }

  ghost predicate Init(w: World) { w.lock.None? && w.callers == map[] }

  ghost predicate Run(w: World, actions: seq<Action>, w': World)
    decreases |actions|
  {
    if actions == [] then w == w'
    else Enabled(w, actions[0]) && Run(Next(w, actions[0]), actions[1..], w')
  }

  ghost predicate AssumedRun(w: World, actions: seq<Action>)
    decreases |actions|
  {
    actions == [] || (Enabled(w, actions[0]) ==>
      Assumed(w, actions[0]) && AssumedRun(Next(w, actions[0]), actions[1..]))
  }

  /** Whoever is critical owns the live lock; nobody migrates a user that exists. */
  ghost predicate Inv(w: World) {
    && (forall c :: c in w.callers && Critical(w.callers[c]) ==>
          && w.lock == Some(w.callers[c].acquired + REDIS_CREATE_TIMEOUT_SECONDS)
          && w.now < w.callers[c].acquired + REDIS_CREATE_TIMEOUT_SECONDS)
    && AtMostOneCritical(w)
    && (w.userExists ==> forall c :: c in w.callers ==> !w.callers[c].Migrating?)
  }

  ghost predicate AtMostOneCritical(w: World) {
    forall c, d :: c in w.callers && d in w.callers && Critical(w.callers[c]) && Critical(w.callers[d]) ==> c == d
  }

  /** Taking the lock is possible only when nobody is critical. */
  lemma FreeLock(w: World)
    requires Inv(w) && !LockHeld(w)
    ensures forall d :: d in w.callers ==> !Critical(w.callers[d])
  {
  }

  lemma OwnerStep(w: World, a: Action, c: Caller)
    requires Inv(w) && Enabled(w, a) && Assumed(w, a)
    requires c in Next(w, a).callers && Critical(Next(w, a).callers[c])
    ensures
      var w' := Next(w, a);
      && w'.lock == Some(w'.callers[c].acquired + REDIS_CREATE_TIMEOUT_SECONDS)
      && w'.now < w'.callers[c].acquired + REDIS_CREATE_TIMEOUT_SECONDS
  {
    if a.TryLock? && !LockHeld(w) { FreeLock(w); }
  }

  lemma AloneStep(w: World, a: Action)
    requires Inv(w) && Enabled(w, a) && Assumed(w, a)
    ensures AtMostOneCritical(Next(w, a))
  {
    var w' := Next(w, a);
    if a.TryLock? && !LockHeld(w) { FreeLock(w); }
    forall c, d | c in w'.callers && d in w'.callers && Critical(w'.callers[c]) && Critical(w'.callers[d])
      ensures c == d
    {
      assert c in w.callers && d in w.callers;
    }
  }

  lemma InvStep(w: World, a: Action)
    requires Inv(w) && Enabled(w, a) && Assumed(w, a)
    ensures Inv(Next(w, a))
    ensures w.userExists ==> Next(w, a).userExists
  {
    var w' := Next(w, a);
    forall c | c in w'.callers && Critical(w'.callers[c])
      ensures w'.lock == Some(w'.callers[c].acquired + REDIS_CREATE_TIMEOUT_SECONDS)
      ensures w'.now < w'.callers[c].acquired + REDIS_CREATE_TIMEOUT_SECONDS
    {
      OwnerStep(w, a, c);
    }
    AloneStep(w, a);
    if w'.userExists { NobodyMigrates(w, a); }
  }

  lemma NobodyMigrates(w: World, a: Action)
    requires Inv(w) && Enabled(w, a) && Assumed(w, a) && Next(w, a).userExists
    ensures forall c :: c in Next(w, a).callers ==> !Next(w, a).callers[c].Migrating?
  {
    var w' := Next(w, a);
    forall c | c in w'.callers ensures !w'.callers[c].Migrating? {
      if w'.callers[c].Migrating? { assert Critical(w'.callers[c]); }
    }
  }

  lemma {:induction false} InvRun(w: World, actions: seq<Action>, w': World)
    requires Inv(w) && Run(w, actions, w') && AssumedRun(w, actions)
    ensures Inv(w') && (w.userExists ==> w'.userExists)
    decreases |actions|
  {
    if actions != [] {
      InvStep(w, actions[0]);
      InvRun(Next(w, actions[0]), actions[1..], w');
    }
  }

  /** Two callers are never inside `migrate_user` together. */
  lemma AtMostOneMigrating(w: World, actions: seq<Action>, w': World, c: Caller, d: Caller)
    requires Init(w) && Run(w, actions, w') && AssumedRun(w, actions)
    requires c in w'.callers && w'.callers[c].Migrating?
    requires d in w'.callers && w'.callers[d].Migrating?
    ensures c == d
  {
    InvRun(w, actions, w');
  }

  /** Once a migration has committed nobody enters `migrate_user`, however the run goes on. */
  lemma NoMigrationAfterCommit(w: World, before: seq<Action>, mid: World, after: seq<Action>, w': World, c: Caller)
    requires Init(w) && Run(w, before, mid) && AssumedRun(w, before) && mid.userExists
    requires Run(mid, after, w') && AssumedRun(mid, after)
    ensures w'.userExists && !(c in w'.callers && w'.callers[c].Migrating?)
  {
    InvRun(w, before, mid);
    InvRun(mid, after, w');
  }

  /** That takes none of the assumptions: with the user there, whoever migrates did so before. */
  lemma {:induction false} NobodyEntersOnceUserExists(w: World, actions: seq<Action>, w': World, c: Caller)
    requires w.userExists && Run(w, actions, w') && c in w'.callers && w'.callers[c].Migrating?
    ensures w'.userExists && c in w.callers && w.callers[c] == w'.callers[c]
    decreases |actions|
  {
    if actions != [] {
      NobodyEntersOnceUserExists(Next(w, actions[0]), actions[1..], w', c);
    }
  }

  // ------------------------------------------- exactly when exclusion can be broken

  /** How far the clock may go, and which of the other two assumptions may fail. */
  datatype Faults = Faults(until: int, redisMayFail: bool, unlockedCallers: bool)

  predicate Permits(f: Faults, a: Action) {
    && (a.Tick? ==> a.now <= f.until)
    && (a.TryLockWithRedisDown? ==> f.redisMayFail)
    && (a.MigrateWithoutLock? ==> f.unlockedCallers)
  }

  ghost predicate RunUnder(f: Faults, w: World, actions: seq<Action>, w': World) {
    Run(w, actions, w') && forall i :: 0 <= i < |actions| ==> Permits(f, actions[i])
  }

  predicate BothMigrating(w: World, c: Caller, d: Caller) {
    c != d && c in w.callers && d in w.callers && w.callers[c].Migrating? && w.callers[d].Migrating?
  }

  ghost predicate Overlap(w: World) { exists c, d :: BothMigrating(w, c, d) }

  ghost predicate CanOverlap(f: Faults, w: World) {
    exists actions, w' :: RunUnder(f, w, actions, w') && Overlap(w')
  }

  /** `c` is migrating, and what it migrates is not yet migrated. */
  predicate MigrationUnderWay(w: World, c: Caller) {
    c in w.callers && w.callers[c].Migrating? && w.callers[c].acquired <= w.now && w.unmigrated
  }

  /** No critical section began before `since`. */
  ghost predicate NoneBefore(w: World, since: int) {
    w.now >= since && forall c :: c in w.callers && Critical(w.callers[c]) ==> w.callers[c].acquired >= since
  }

  lemma {:induction false} QuietRun(f: Faults, w: World, actions: seq<Action>, w': World, since: int)
    requires Inv(w) && NoneBefore(w, since) && RunUnder(f, w, actions, w')
    requires f.until < since + REDIS_CREATE_TIMEOUT_SECONDS && !f.redisMayFail && !f.unlockedCallers
    ensures Inv(w')
    decreases |actions|
  {
    if actions != [] {
      var a := actions[0];
      assert Permits(f, a);
      InvStep(w, a);
      QuietRun(f, Next(w, a), actions[1..], w', since);
    }
  }

  lemma {:induction false} Newcomer(ids: set<Caller>) returns (d: Caller)
    ensures forall c :: c in ids ==> c < d
    decreases ids
  {
    if ids == {} {
      d := 0;
    } else {
      var c :| c in ids;
      var e := Newcomer(ids - {c});
      d := if c < e then e else c + 1;
      assert forall x :: x in ids ==> x == c || x in ids - {c};
    }
  }

  lemma OverlapNow(f: Faults, w: World, c: Caller, d: Caller)
    requires BothMigrating(w, c, d)
    ensures CanOverlap(f, w)
  {
    assert RunUnder(f, w, [], w);
  }

  lemma OverlapAfter(f: Faults, w: World, a: Action)
    requires Enabled(w, a) && Permits(f, a) && CanOverlap(f, Next(w, a))
    ensures CanOverlap(f, w)
  {
    var actions, w' :| RunUnder(f, Next(w, a), actions, w') && Overlap(w');
    var longer := [a] + actions;
    assert longer[1..] == actions;
    assert RunUnder(f, w, longer, w');
  }

  /** The lock lapses under its holder, and a waiting caller takes it. */
  lemma OverrunOverlaps(f: Faults, w: World, c: Caller, d: Caller)
    requires Inv(w) && MigrationUnderWay(w, c) && At(w, d, Waiting)
    requires f.until >= w.callers[c].acquired + REDIS_CREATE_TIMEOUT_SECONDS
    ensures CanOverlap(f, w)
  {
    var lapse := Tick(w.callers[c].acquired + REDIS_CREATE_TIMEOUT_SECONDS);
    var lapsed := Next(w, lapse);
    var inside := Next(lapsed, TryLock(d));
    OverlapNow(f, Next(inside, Reread(d, true)), c, d);
    OverlapAfter(f, inside, Reread(d, true));
    OverlapAfter(f, lapsed, TryLock(d));
    OverlapAfter(f, w, lapse);
  }

  /** A waiting caller whose attempt meets a Redis error proceeds as if it had the lock. */
  lemma RedisErrorOverlaps(f: Faults, w: World, c: Caller, d: Caller)
    requires Inv(w) && MigrationUnderWay(w, c) && At(w, d, Waiting) && f.redisMayFail
    ensures CanOverlap(f, w)
    ensures Next(w, TryLockWithRedisDown(d)) == w.(callers := w.callers[d := Inside(w.now)])
  {
    var inside := Next(w, TryLockWithRedisDown(d));
    OverlapNow(f, Next(inside, Reread(d, true)), c, d);
    OverlapAfter(f, inside, Reread(d, true));
    OverlapAfter(f, w, TryLockWithRedisDown(d));
  }

  /** `SaasSettingsStore.store` migrates without taking the lock. */
  lemma UnlockedCallerOverlaps(f: Faults, w: World, c: Caller, d: Caller)
    requires Inv(w) && MigrationUnderWay(w, c) && d !in w.callers && f.unlockedCallers
    ensures CanOverlap(f, w)
  {
    OverlapNow(f, Next(w, MigrateWithoutLock(d)), c, d);
    OverlapAfter(f, w, MigrateWithoutLock(d));
  }

  lemma FaultOverlaps(f: Faults, w: World, c: Caller)
    requires Inv(w) && MigrationUnderWay(w, c)
    requires f.until >= w.callers[c].acquired + REDIS_CREATE_TIMEOUT_SECONDS || f.redisMayFail || f.unlockedCallers
    ensures CanOverlap(f, w)
  {
    var d := Newcomer(w.callers.Keys);
    if f.unlockedCallers {
      UnlockedCallerOverlaps(f, w, c, d);
    } else {
      var arrived := Next(w, Arrive(d));
      var waiting := Next(arrived, Load(d));
      InvStep(w, Arrive(d));
      InvStep(arrived, Load(d));
      if f.redisMayFail { RedisErrorOverlaps(f, waiting, c, d); } else { OverrunOverlaps(f, waiting, c, d); }
      OverlapAfter(f, arrived, Load(d));
      OverlapAfter(f, w, Arrive(d));
    }
  }

  /**
   * While a migration is under way a second one can start if and only if the clock may reach
   * its thirtieth second, or Redis may fail, or someone migrates without the lock.
   */
  lemma OverlapIffFault(f: Faults, w: World, c: Caller)
    requires Inv(w) && MigrationUnderWay(w, c)
    ensures CanOverlap(f, w) <==> f.until >= w.callers[c].acquired + 30 || f.redisMayFail || f.unlockedCallers
  {
    if f.until >= w.callers[c].acquired + REDIS_CREATE_TIMEOUT_SECONDS || f.redisMayFail || f.unlockedCallers {
      FaultOverlaps(f, w, c);
    } else {
      forall actions, w' | RunUnder(f, w, actions, w') ensures !Overlap(w') {
        assert NoneBefore(w, w.callers[c].acquired);
        QuietRun(f, w, actions, w', w.callers[c].acquired);
      }
    }
  }

  /** A migration under way is reachable: a lone caller of a user with legacy settings. */
  lemma MigrationStarts(w: World, c: Caller) returns (actions: seq<Action>, w': World)
    requires Init(w) && !w.userExists && w.unmigrated
    ensures Run(w, actions, w') && AssumedRun(w, actions) && MigrationUnderWay(w', c)
  {
    actions := [Arrive(c), Load(c), TryLock(c), Reread(c, true)];
    var w1 := Next(w, actions[0]);
    var w2 := Next(w1, actions[1]);
    var w3 := Next(w2, actions[2]);
    w' := Next(w3, actions[3]);
    assert Run(w3, actions[3..], w') && AssumedRun(w3, actions[3..]);
    assert Run(w2, actions[2..], w') && AssumedRun(w2, actions[2..]);
    assert Run(w1, actions[1..], w') && AssumedRun(w1, actions[1..]);
  }

  /** The TTL lets a waiting caller in after the holder crashed, and exclusion still holds. */
  lemma CrashedHolderIsReplaced(w: World, c: Caller, d: Caller)
    requires Inv(w) && c != d && At(w, d, Waiting)
    requires c in w.callers && Critical(w.callers[c])
    ensures
      var w1 := Next(w, Crash(c));
      var w2 := Next(w1, Tick(w.callers[c].acquired + 30));
      Next(w1, TryLock(d)) == w1 && Next(w2, TryLock(d)).callers[d].Inside? && Inv(Next(w2, TryLock(d)))
  {
    var w1 := Next(w, Crash(c));
    assert forall e :: e in w1.callers ==> !Critical(w1.callers[e]);
  }

  // ------------------------------------------------------- the code as a method

  /** What else may happen while `c` awaits: anything possible under the assumptions but its own steps. */
  ghost function Acts(w: World, c: Caller, a: Action): World {
    if Enabled(w, a) && Assumed(w, a) && (a.Tick? || a.c != c) then Next(w, a) else w
  }

  ghost function AllAct(w: World, c: Caller, env: seq<Action>): World
    decreases |env|
  {
    if env == [] then w else Acts(AllAct(w, c, env[..|env| - 1]), c, env[|env| - 1])
  }

  class UserStore {
    var world: World

    ghost predicate Valid() reads this { Inv(world) }

    method Do(a: Action)
      requires Valid() && Enabled(world, a) && Assumed(world, a)
      modifies this
      ensures Valid() && world == Next(old(world), a)
      ensures old(world).userExists ==> world.userExists
    {
      InvStep(world, a);
      world := Next(world, a);
    }

    /** What other callers do while `c` awaits; the clock obeys the time-out assumption. */
    method Others(c: Caller, env: seq<Action>)
      requires Valid() && c in world.callers
      modifies this
      ensures Valid() && c in world.callers && world.callers[c] == old(world).callers[c]
      ensures old(world).userExists ==> world.userExists
      ensures Critical(world.callers[c]) ==> SameRows(old(world), world)
      ensures world == AllAct(old(world), c, env)
    {
      for i := 0 to |env|
        invariant Valid() && c in world.callers && world.callers[c] == old(world).callers[c]
        invariant old(world).userExists ==> world.userExists
        invariant Critical(world.callers[c]) ==> SameRows(old(world), world)
        invariant world == AllAct(old(world), c, env[..i])
      {
        Another(c, env[i]);
        assert env[..i + 1][..i] == env[..i];
      }
      assert env[..|env|] == env;
    }

    method Another(c: Caller, a: Action)
      requires Valid() && c in world.callers
      modifies this
      ensures Valid() && c in world.callers && world.callers[c] == old(world).callers[c]
      ensures old(world).userExists ==> world.userExists
      ensures Critical(world.callers[c]) ==> SameRows(old(world), world)
      ensures world == Acts(old(world), c, a)
    {
      if Enabled(world, a) && !a.TryLockWithRedisDown? && !a.MigrateWithoutLock? && (a.Tick? || a.c != c) {
        if a.Tick? {
          var prompt := forall d | d in world.callers ::
            Critical(world.callers[d]) ==> a.now < world.callers[d].acquired + REDIS_CREATE_TIMEOUT_SECONDS;
          if prompt { Do(a); }
        } else {
          Do(a);
        }
      }
    }

    /**
     * `get_user_by_id`; it is still waiting when `waits` are used up. `met` are the worlds its
     * attempts met: all but the last found the key held, and the last one too if it still waits.
     */
    method GetUserById(c: Caller, userInfoFound: bool, migrates: bool,
                       early: seq<Action>, waits: seq<seq<Action>>, inside: seq<Action>)
      returns (answer: Answer, ghost met: seq<World>)
      requires Valid() && Enabled(world, Arrive(c))
      modifies this
      ensures Valid()
      ensures answer.StillWaiting? ==> At(world, c, Waiting)
      ensures !answer.StillWaiting? ==> At(world, c, Finished(world.userExists))
      ensures answer.Found? <==> !answer.StillWaiting? && world.userExists
      ensures answer.MigrationRaised? ==> !migrates && userInfoFound && world.unmigrated
      ensures answer.NotFound? ==> !userInfoFound || !world.unmigrated
      ensures old(world).userExists ==> answer.Found?
      ensures answer.StillWaiting? ==> |met| == |waits|
      ensures met == [] ==> answer.Found? || answer.StillWaiting?
      ensures
        forall k :: 0 <= k < |met| ==>
          (met[k].lock.Some? && met[k].now < met[k].lock.value <==> answer.StillWaiting? || k < |met| - 1)
    {
      met := [];
      Do(Arrive(c));
      Others(c, early);
      Do(Load(c));
      if world.callers[c].Finished? { answer := Found; return; }
      var k := 0;
      while k < |waits| && world.callers[c] == Waiting
        invariant Valid() && c in world.callers && !old(world).userExists && k == |met| <= |waits|
        invariant world.callers[c].Waiting? || (world.callers[c].Inside? && k > 0)
        invariant
          forall i :: 0 <= i < k ==>
            (met[i].lock.Some? && met[i].now < met[i].lock.value <==> world.callers[c].Waiting? || i < k - 1)
      {
        met := met + [world];
        Do(TryLock(c));
        Others(c, waits[k]);
        k := k + 1;
      }
      if world.callers[c].Waiting? { answer := StillWaiting; return; }
      answer := InsideLock(c, userInfoFound, migrates, inside);
    }

    /** The body of the `try`, and the `finally` that deletes the key, an exception or not. */
    method InsideLock(c: Caller, userInfoFound: bool, migrates: bool, inside: seq<Action>)
      returns (answer: Answer)
      requires Valid() && c in world.callers && world.callers[c].Inside?
      modifies this
      ensures Valid() && world.lock.None? && At(world, c, Finished(world.userExists))
      ensures
        var needed := !old(world).userExists && old(world).unmigrated && userInfoFound;
        && world.userExists == (old(world).userExists || (needed && migrates))
        && world.unmigrated == (old(world).unmigrated && !(needed && migrates))
        && answer == if needed && !migrates then MigrationRaised else if world.userExists then Found else NotFound
    {
      Do(Reread(c, userInfoFound));
      var needed := world.callers[c].Migrating?;
      if needed {
        Others(c, inside);
        if migrates { Do(CommitMigration(c)); } else { Do(MigrationFails(c)); }
      }
      Do(Release(c));
      answer := if needed && !migrates then MigrationRaised else if world.userExists then Found else NotFound;
    }
  }

  /** What the caller gets back. */
  datatype Answer = Found | NotFound | MigrationRaised | StillWaiting

  predicate SameRows(w: World, w': World) { w'.userExists == w.userExists && w'.unmigrated == w.unmigrated }
}
