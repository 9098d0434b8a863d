/**
 * `sync_users_to_resend`: every Keycloak user is to become a Resend contact and be
 * welcomed, once, over any number of sync runs that may crash between any two steps.
 * E-mail addresses are lower-cased and there is one audience.
 */
module ResendSync {
  import opened Prelude

  type Email = string

  /** Where the script stands; `synced` is its in-memory `synced_emails`. */
  datatype Phase =
    | Stopped
    | Backfilling
    | Looping(synced: set<Email>)
    | Marked(synced: set<Email>, email: Email)
    | Added(synced: set<Email>, email: Email)

  /** `marks` is the table; `created` and `welcomed` log the script's successful API calls. */
  datatype World = World(phase: Phase, marks: set<Email>, created: seq<Email>, welcomed: seq<Email>)

  datatype Action =
    | StartRun
    | Backfill(email: Email)
    | LoadSynced
    | Mark(email: Email)
    | AddSucceeds
    | AddFails
    | WelcomeEnds(sent: bool)
    | Stop

  predicate Enabled(w: World, a: Action) {
    match a
    case StartRun => w.phase.Stopped?
    case Backfill(_) => w.phase.Backfilling?
    case LoadSynced => w.phase.Backfilling?
    case Mark(email) => w.phase.Looping? && email !in w.phase.synced
    case AddSucceeds => w.phase.Marked?
    case AddFails => w.phase.Marked?
    case WelcomeEnds(_) => w.phase.Added?
    case Stop => true
  }

  /** `Stop` is a crash wherever it falls, and the regular end in the loop. */
  function Next(w: World, a: Action): World
    requires Enabled(w, a)
  {
    match a
    case StartRun => w.(phase := Backfilling)
    case Backfill(email) => w.(marks := w.marks + {email})
    case LoadSynced => w.(phase := Looping(w.marks))
    case Mark(email) => w.(phase := Marked(w.phase.synced, email), marks := w.marks + {email})
    case AddSucceeds =>
      var Marked(synced, email) := w.phase;
      w.(phase := Added(synced + {email}, email), created := w.created + [email])
    case AddFails => w.(phase := Looping(w.phase.synced), marks := w.marks - {w.phase.email})
    case WelcomeEnds(sent) =>
      var Added(synced, email) := w.phase;
      w.(phase := Looping(synced), welcomed := if sent then w.welcomed + [email] else w.welcomed)
    case Stop => w.(phase := Stopped)
  }

  ghost predicate Run(w: World, actions: seq<Action>, w': World)
    decreases |actions|
  {
    if actions == [] then w == w'
    else Enabled(w, actions[0]) && Run(Next(w, actions[0]), actions[1..], w')
  }

  /** Contacts and welcomes are distinct, marked for good, and known to the running loop. */
  ghost predicate Inv(w: World) {
    && Distinct(w.created) && Distinct(w.welcomed)
    && (forall e :: e in w.created ==> e in w.marks)
    && (forall e :: e in w.welcomed ==> e in w.created)
    && match w.phase
       case Stopped => true
       case Backfilling => true
       case Looping(synced) => forall e :: e in w.created ==> e in synced
       case Marked(synced, email) =>
         email in w.marks && email !in w.created && forall e :: e in w.created ==> e in synced
       case Added(synced, email) =>
         email in w.created && email !in w.welcomed && forall e :: e in w.created ==> e in synced
  }

  lemma InvStep(w: World, a: Action)
    requires Inv(w) && Enabled(w, a)
    ensures Inv(Next(w, a))
  {
    if a.AddSucceeds? { DistinctAppend(w.created, w.phase.email); }
    if a.WelcomeEnds? { DistinctAppend(w.welcomed, w.phase.email); }
  }

  lemma {:induction false} InvRun(w: World, actions: seq<Action>, w': World)
    requires Inv(w) && Run(w, actions, w')
    ensures Inv(w')
    decreases |actions|
  {
    if actions != [] {
      InvStep(w, actions[0]);
      InvRun(Next(w, actions[0]), actions[1..], w');
    }
  }

  /** Any number of runs, crashes anywhere: one contact and one welcome per address at most. */
  lemma AtMostOncePerAddress(w: World, actions: seq<Action>, w': World)
    requires w.phase.Stopped? && w.created == [] && w.welcomed == [] && Run(w, actions, w')
    ensures Distinct(w'.created) && Distinct(w'.welcomed)
    ensures forall e :: e in w'.welcomed ==> e in w'.created
    ensures forall e :: e in w'.created ==> e in w'.marks && e !in w.marks
  {
    InvRun(w, actions, w');
    forall e | e in w.marks ensures e !in w'.created {
      MarkedIsNeverAdded(w, actions, w', e);
    }
  }

  /** `e` is marked without a contact and this run will pass over it. */
  ghost predicate PassedOver(w: World, e: Email) {
    && e in w.marks && e !in w.created
    && match w.phase
       case Stopped => true
       case Backfilling => true
       case Looping(synced) => e in synced
       case Marked(synced, email) => e in synced && email != e
       case Added(synced, email) => e in synced
  }

  /**
   * The price of marking first: an address marked when a run ended, by a backfill or by a
   * crash between the mark and the contact, is never added nor welcomed later.
   */
  lemma {:induction false} MarkedIsNeverAdded(w: World, actions: seq<Action>, w': World, e: Email)
    requires PassedOver(w, e) && (w.phase.Marked? ==> w.phase.email !in w.phase.synced)
    requires Run(w, actions, w')
    ensures e in w'.marks && e !in w'.created
    decreases |actions|
  {
    if actions != [] {
      MarkedIsNeverAdded(Next(w, actions[0]), actions[1..], w', e);
    }
  }

  ghost predicate CanBeAdded(w: World, e: Email) {
    exists actions, w' :: Run(w, actions, w') && e in w'.created
  }

  /** Between runs, an address can still become a contact if and only if it is not marked. */
  lemma AddableIffUnmarked(w: World, e: Email)
    requires w.phase.Stopped? && e !in w.created
    ensures CanBeAdded(w, e) <==> e !in w.marks
  {
    if e in w.marks {
      forall actions, w' | Run(w, actions, w') ensures e !in w'.created {
        MarkedIsNeverAdded(w, actions, w', e);
      }
    } else {
      var actions := [StartRun, LoadSynced, Mark(e), AddSucceeds];
      var w4 := RunOfFour(w, actions[0], actions[1], actions[2], actions[3]);
      assert e in w4.created;
    }
  }

  /** A crash between the mark and the contact reaches the state from which it never is one. */
  lemma CrashStrands(w: World, e: Email) returns (actions: seq<Action>, w': World)
    requires w.phase.Stopped? && e !in w.marks && e !in w.created
    ensures Run(w, actions, w') && w'.phase.Stopped? && e in w'.marks && w'.created == w.created
    ensures CanBeAdded(w, e) && !CanBeAdded(w', e)
  {
    actions := [StartRun, LoadSynced, Mark(e), Stop];
    w' := RunOfFour(w, actions[0], actions[1], actions[2], actions[3]);
    AddableIffUnmarked(w, e);
    AddableIffUnmarked(w', e);
  }

  lemma RunOfFour(w: World, a: Action, b: Action, c: Action, d: Action) returns (w4: World)
    requires Enabled(w, a) && Enabled(Next(w, a), b) && Enabled(Next(Next(w, a), b), c)
    requires Enabled(Next(Next(Next(w, a), b), c), d)
    ensures w4 == Next(Next(Next(Next(w, a), b), c), d) && Run(w, [a, b, c, d], w4)
  {
    var w1 := Next(w, a);
    var w2 := Next(w1, b);
    var w3 := Next(w2, c);
    w4 := Next(w3, d);
    RunCons(w3, d, [], w4);
    RunCons(w2, c, [d] + [], w4);
    RunCons(w1, b, [c] + ([d] + []), w4);
    RunCons(w, a, [b] + ([c] + ([d] + [])), w4);
    assert [a] + ([b] + ([c] + ([d] + []))) == [a, b, c, d];
  }

  lemma RunCons(w: World, a: Action, rest: seq<Action>, w': World)
    requires Enabled(w, a) && Run(Next(w, a), rest, w')
    ensures Run(w, [a] + rest, w')
  {
    assert ([a] + rest)[1..] == rest;
  }

  // ------------------------------------------------------- the code as a method

  /** How the API calls for one user go in a run that does not crash. */
  datatype Outcome = MarkRaises | AddRaises | Works(welcomed: bool)

  datatype Stats = Stats(alreadySynced: nat, added: nat, invalid: nat, errors: nat)

  function Total(s: Stats): nat { s.alreadySynced + s.added + s.invalid + s.errors }

  function Elements(s: seq<Email>): set<Email> { set e | e in s }

  /** The directory pages the loop fetches: whole batches until the reported total is covered. */
  function Fetched(directory: seq<Email>, offset: nat, total: nat, batchSize: nat): seq<Email>
    requires batchSize > 0
    decreases if offset < total then total - offset else 0
  {
    if offset >= total then []
    else Page(directory, offset, batchSize) + Fetched(directory, offset + batchSize, total, batchSize)
  }

  /** `get_keycloak_users`: one page, without the users that have no address. */
  function Page(directory: seq<Email>, offset: nat, batchSize: nat): seq<Email> {
    var from := if offset < |directory| then offset else |directory|;
    var to := if offset + batchSize < |directory| then offset + batchSize else |directory|;
    WithAddress(directory[from..to])
  }

  function WithAddress(users: seq<Email>): seq<Email>
    decreases |users|
  {
    if users == [] then [] else (if users[0] != "" then [users[0]] else []) + WithAddress(users[1..])
  }

  class Script {
    var world: World
    const lower: Email -> Email
    const valid: Email -> bool

    constructor (marks: set<Email>, lower: Email -> Email, valid: Email -> bool)
      ensures world == World(Stopped, marks, [], []) && this.lower == lower && this.valid == valid
    {
      this.lower, this.valid := lower, valid;
      world := World(Stopped, marks, [], []);
    }

    method Do(a: Action)
      requires Inv(world) && Enabled(world, a)
      modifies this`world
      ensures Inv(world) && world == Next(old(world), a)
    {
      InvStep(world, a);
      world := Next(world, a);
    }

    /** `_backfill_existing_resend_contacts`; an exception at contact `failsAt` is swallowed. */
    method BackfillContacts(contacts: seq<Email>, failsAt: nat) returns (count: nat, backfilled: set<Email>)
      requires Inv(world) && world.phase.Backfilling?
      modifies this`world
      ensures Inv(world) && world == old(world).(marks := old(world).marks + backfilled)
      ensures backfilled ==
        Elements(if failsAt < |contacts| then contacts[..failsAt] else contacts) - old(world).marks
      ensures count == if failsAt < |contacts| then 0 else |backfilled|
    {
      var already := world.marks;
      backfilled := {};
      for i := 0 to |contacts|
        invariant Inv(world) && world == old(world).(marks := old(world).marks + backfilled)
        invariant backfilled == Elements(contacts[..i]) - already
        invariant i <= failsAt
      {
        if i == failsAt { return 0, backfilled; }
        assert Elements(contacts[..i + 1]) == Elements(contacts[..i]) + {contacts[i]};
        if contacts[i] !in already {
          Do(Backfill(contacts[i]));
          backfilled := backfilled + {contacts[i]};
        }
      }
      assert contacts[..|contacts|] == contacts;
      count := |backfilled|;
    }

    /** The body of the loop for the `n`-th user of the run. */
    method SyncUser(address: Email, n: nat, outcome: Outcome, stats: Stats)
      returns (stats': Stats, added: seq<Contact>)
      requires Ready()
      modifies this`world
      ensures Ready() && Gain(old(world), added, world)
      ensures stats' ==
        if lower(address) in old(world).marks then stats.(alreadySynced := stats.alreadySynced + 1)
        else if !valid(lower(address)) then stats.(invalid := stats.invalid + 1)
        else if outcome.Works? then stats.(added := stats.added + 1)
        else stats.(errors := stats.errors + 1)
      ensures added ==
        if lower(address) !in old(world).marks && valid(lower(address)) && outcome.Works?
        then [Contact(lower(address), n, outcome.welcomed)] else []
      ensures world.created == old(world).created + Emails(added)
      ensures world.welcomed == old(world).welcomed + if outcome == Works(true) then Emails(added) else []
    {
      added := [];
      var email := lower(address);
      if email in world.phase.synced {
        return stats.(alreadySynced := stats.alreadySynced + 1), [];
      }
      if !valid(email) {
        return stats.(invalid := stats.invalid + 1), [];
      }
      if outcome.MarkRaises? {
        return stats.(errors := stats.errors + 1), [];
      }
      Do(Mark(email));
      if outcome.AddRaises? {
        Do(AddFails);
        return stats.(errors := stats.errors + 1), [];
      }
      Do(AddSucceeds);
      stats' := stats.(added := stats.added + 1);
      added := [Contact(email, n, outcome.welcomed)];
      assert Emails(added) == [email];
      Do(WelcomeEnds(outcome.welcomed));
    }

    /**
     * A whole run that does not crash: every fetched user is counted exactly once; the marks
     * are the old ones, the backfilled ones and the added ones; and welcomed are, in order,
     * those of the added whose message got through.
     */
    method SyncUsersToResend(contacts: seq<Email>, failsAt: nat, directory: seq<Email>, total: nat, batchSize: nat,
                             outcomes: nat -> Outcome)
      returns (stats: Stats, backfilled: set<Email>, added: seq<Contact>)
      requires Inv(world) && world.phase.Stopped? && batchSize > 0
      modifies this`world
      ensures Inv(world) && world.phase.Stopped?
      ensures Total(stats) == |Fetched(directory, 0, total, batchSize)| && stats.added == |added|
      ensures AddedFrom(Fetched(directory, 0, total, batchSize), 0, outcomes, added)
      ensures AllMarked(Fetched(directory, 0, total, batchSize), 0, outcomes, world.marks)
      ensures world.created == old(world).created + Emails(added)
      ensures world.welcomed == old(world).welcomed + Welcomed(added)
      ensures world.marks == old(world).marks + backfilled + Elements(Emails(added))
      ensures backfilled ==
        Elements(if failsAt < |contacts| then contacts[..failsAt] else contacts) - old(world).marks
      ensures Distinct(Emails(added))
      ensures forall e :: e in Emails(added) ==> e !in old(world).marks && e !in backfilled
    {
      Do(StartRun);
      var count;
      count, backfilled := BackfillContacts(contacts, failsAt);
      Do(LoadSynced);
      stats, added := SyncPages(directory, total, batchSize, outcomes);
      Do(Stop);
    }

    /** The outer loop over the directory. */
    method SyncPages(directory: seq<Email>, total: nat, batchSize: nat, outcomes: nat -> Outcome)
      returns (stats: Stats, added: seq<Contact>)
      requires Ready() && batchSize > 0
      modifies this`world
      ensures Ready() && Total(stats) == |Fetched(directory, 0, total, batchSize)| && stats.added == |added|
      ensures Synced(old(world), Fetched(directory, 0, total, batchSize), 0, outcomes, added, world)
    {
      hide Synced, Inv, Page;
      stats, added := Stats(0, 0, 0, 0), [];
      ghost var done: seq<Email> := [];
      NothingSynced(world, outcomes);
      var offset := 0;
      while offset < total
        invariant Ready() && Total(stats) == |done| && stats.added == |added|
        invariant done + Fetched(directory, offset, total, batchSize) == Fetched(directory, 0, total, batchSize)
        invariant Synced(old(world), done, 0, outcomes, added, world)
        decreases total - offset
      {
        var page := Page(directory, offset, batchSize);
        stats, added := SyncPage(page, outcomes, stats, added, old(world), done);
        FetchedNext(done, directory, offset, total, batchSize);
        done := done + page;
        offset := offset + batchSize;
      }
      assert done + [] == done;
    }

    ghost predicate Ready() reads this { Inv(world) && world.phase.Looping? && world.phase.synced == world.marks }

    /** The added are users of the list, in its order, that are valid and whose calls got through. */
    ghost predicate AddedFrom(users: seq<Email>, first: nat, outcomes: nat -> Outcome, added: seq<Contact>) {
      && (forall k :: 0 <= k < |added| ==>
            && first <= added[k].user < first + |users| && added[k].email == lower(users[added[k].user - first])
            && valid(added[k].email) && outcomes(added[k].user) == Works(added[k].welcomed))
      && (forall k, l :: 0 <= k < l < |added| ==> added[k].user < added[l].user)
    }

    /** Every user of the list that is valid and whose calls got through is marked. */
    ghost predicate AllMarked(users: seq<Email>, first: nat, outcomes: nat -> Outcome, marks: set<Email>) {
      forall i :: 0 <= i < |users| && valid(lower(users[i])) && outcomes(first + i).Works? ==>
        lower(users[i]) in marks
    }

    ghost predicate Synced(w: World, users: seq<Email>, first: nat, outcomes: nat -> Outcome, added: seq<Contact>,
                           w': World)
    {
      Gain(w, added, w') && AddedFrom(users, first, outcomes, added) && AllMarked(users, first, outcomes, w'.marks)
    }

    lemma NothingSynced(w: World, outcomes: nat -> Outcome)
      ensures Synced(w, [], 0, outcomes, [], w)
    {
    }

    lemma SyncedMore(w: World, done: seq<Email>, first: nat, outcomes: nat -> Outcome, a: seq<Contact>,
                     mid: World, page: seq<Email>, b: seq<Contact>, w': World)
      requires Synced(w, done, first, outcomes, a, mid)
      requires Synced(mid, page, first + |done|, outcomes, b, w')
      ensures Synced(w, done + page, first, outcomes, a + b, w')
    {
      GainedMore(w, a, mid, b, w');
      AddedMore(done, page, first, outcomes, a, b);
      MarkedMore(done, page, first, outcomes, mid.marks, w'.marks);
    }

    lemma AddedMore(done: seq<Email>, page: seq<Email>, first: nat, outcomes: nat -> Outcome,
                    a: seq<Contact>, b: seq<Contact>)
      requires AddedFrom(done, first, outcomes, a) && AddedFrom(page, first + |done|, outcomes, b)
      ensures AddedFrom(done + page, first, outcomes, a + b)
    {
      var both := a + b;
      forall k | 0 <= k < |both|
        ensures
          && first <= both[k].user < first + |done + page|
          && both[k].email == lower((done + page)[both[k].user - first])
          && valid(both[k].email) && outcomes(both[k].user) == Works(both[k].welcomed)
      {
        assert both[k] == if k < |a| then a[k] else b[k - |a|];
      }
    }

    lemma MarkedMore(done: seq<Email>, page: seq<Email>, first: nat, outcomes: nat -> Outcome,
                     marks: set<Email>, marks': set<Email>)
      requires AllMarked(done, first, outcomes, marks) && AllMarked(page, first + |done|, outcomes, marks')
      requires marks <= marks'
      ensures AllMarked(done + page, first, outcomes, marks')
    {
      forall i | 0 <= i < |done + page| && valid(lower((done + page)[i])) && outcomes(first + i).Works?
        ensures lower((done + page)[i]) in marks'
      {
        if i >= |done| {
          var j := i - |done|;
          assert (done + page)[i] == page[j] && outcomes(first + |done| + j).Works?;
        }
      }
    }

    /** What `SyncUser` did, as the part of a list that holds one user. */
    lemma OneSynced(w: World, address: Email, n: nat, outcomes: nat -> Outcome, added: seq<Contact>, w': World)
      requires Gain(w, added, w')
      requires added ==
        if lower(address) !in w.marks && valid(lower(address)) && outcomes(n).Works?
        then [Contact(lower(address), n, outcomes(n).welcomed)] else []
      ensures Synced(w, [address], n, outcomes, added, w')
    {
      if valid(lower(address)) && outcomes(n).Works? && lower(address) !in w.marks {
        assert Emails(added)[0] == lower(address);
      }
    }

    /**
     * The inner loop over one page, in a run that began at `w` and did the users of `done`;
     * `outcomes(n)` is how the n-th user of the run fares.
     */
    method SyncPage(users: seq<Email>, outcomes: nat -> Outcome, stats: Stats, added: seq<Contact>,
                    ghost w: World, ghost done: seq<Email>)
      returns (stats': Stats, added': seq<Contact>)
      requires Ready() && Total(stats) == |done| && stats.added == |added|
      requires Synced(w, done, 0, outcomes, added, world)
      modifies this`world
      ensures Ready() && Total(stats') == |done + users| && stats'.added == |added'|
      ensures Synced(w, done + users, 0, outcomes, added', world)
    {
      hide Synced, Inv;
      stats', added' := stats, added;
      assert done + users[..0] == done;
      for i := 0 to |users|
        invariant Ready() && Total(stats') == |done| + i && stats'.added == |added'|
        invariant Synced(w, done + users[..i], 0, outcomes, added', world)
      {
        ghost var before, past := world, done + users[..i];
        var one;
        var n := Total(stats');
        stats', one := SyncUser(users[i], n, outcomes(n), stats');
        OneSynced(before, users[i], n, outcomes, one, world);
        SyncedMore(w, past, 0, outcomes, added', before, [users[i]], one, world);
        assert past + [users[i]] == done + users[..i + 1];
        added' := added' + one;
      }
      assert users[..|users|] == users;
    }
  }

  /** An address added for the `user`-th fetched user, and whether the welcome got through. */
  datatype Contact = Contact(email: Email, user: nat, welcomed: bool)

  function Emails(added: seq<Contact>): (emails: seq<Email>)
    ensures |emails| == |added| && forall k :: 0 <= k < |added| ==> emails[k] == added[k].email
  {
    seq(|added|, k requires 0 <= k < |added| => added[k].email)
  }

  /** The addresses whose welcome got through. */
  function Welcomed(added: seq<Contact>): seq<Email>
    decreases |added|
  {
    if added == [] then []
    else (if added[0].welcomed then [added[0].email] else []) + Welcomed(added[1..])
  }

  lemma {:induction false} WelcomedConcat(a: seq<Contact>, b: seq<Contact>)
    ensures Welcomed(a + b) == Welcomed(a) + Welcomed(b)
    decreases |a|
  {
    if a == [] {
      assert a + b == b;
    } else {
      assert (a + b)[1..] == a[1..] + b;
      WelcomedConcat(a[1..], b);
    }
  }

  /** If every message gets through, everybody added is welcomed; if none does, nobody. */
  lemma {:induction false} WelcomedAllOrNone(added: seq<Contact>, sent: bool)
    requires forall k :: 0 <= k < |added| ==> added[k].welcomed == sent
    ensures Welcomed(added) == if sent then Emails(added) else []
    decreases |added|
  {
    if added != [] {
      WelcomedAllOrNone(added[1..], sent);
      assert Emails(added) == [added[0].email] + Emails(added[1..]);
    }
  }

  /** An address is welcomed if and only if a message to it got through. */
  lemma {:induction false} WelcomedIff(added: seq<Contact>, e: Email)
    ensures e in Welcomed(added) <==> exists c :: c in added && c.welcomed && c.email == e
    decreases |added|
  {
    if added != [] {
      WelcomedIff(added[1..], e);
      assert added == [added[0]] + added[1..];
    }
  }

  /** `added`, all new, is what the tables gained. */
  ghost predicate Gain(w: World, added: seq<Contact>, w': World) {
    && w'.created == w.created + Emails(added) && w'.welcomed == w.welcomed + Welcomed(added)
    && w'.marks == w.marks + Elements(Emails(added))
    && Distinct(Emails(added)) && forall e :: e in Emails(added) ==> e !in w.marks
  }

  lemma GainedMore(w: World, a: seq<Contact>, mid: World, b: seq<Contact>, w': World)
    requires Gain(w, a, mid) && Gain(mid, b, w')
    ensures Gain(w, a + b, w')
  {
    assert Emails(a + b) == Emails(a) + Emails(b);
    DistinctConcat(Emails(a), Emails(b));
    WelcomedConcat(a, b);
    assert Elements(Emails(a + b)) == Elements(Emails(a)) + Elements(Emails(b));
  }

  /** Where the reported total covers the directory, every user with an address is fetched. */
  lemma EverybodyIsFetched(directory: seq<Email>, total: nat, batchSize: nat)
    requires batchSize > 0 && |directory| <= total
    ensures Fetched(directory, 0, total, batchSize) == WithAddress(directory)
  {
    FetchedFrom(directory, 0, total, batchSize);
    assert directory[0..] == directory;
  }

  lemma {:induction false} FetchedFrom(directory: seq<Email>, offset: nat, total: nat, batchSize: nat)
    requires batchSize > 0 && |directory| <= total
    ensures Fetched(directory, offset, total, batchSize)
      == WithAddress(if offset <= |directory| then directory[offset..] else [])
    decreases if offset < total then total - offset else 0
  {
    if offset < total {
      FetchedFrom(directory, offset + batchSize, total, batchSize);
      if offset <= |directory| {
        var to := if offset + batchSize < |directory| then offset + batchSize else |directory|;
        assert directory[offset..] == directory[offset..to] + directory[to..];
        WithAddressConcat(directory[offset..to], directory[to..]);
      }
    }
  }

  lemma FetchedNext(done: seq<Email>, directory: seq<Email>, offset: nat, total: nat, batchSize: nat)
    requires batchSize > 0 && offset < total
    ensures (done + Page(directory, offset, batchSize)) + Fetched(directory, offset + batchSize, total, batchSize)
      == done + Fetched(directory, offset, total, batchSize)
  {
  }

  lemma {:induction false} WithAddressConcat(a: seq<Email>, b: seq<Email>)
    ensures WithAddress(a + b) == WithAddress(a) + WithAddress(b)
    decreases |a|
  {
    if a == [] {
      assert a + b == b;
    } else {
      assert (a + b)[1..] == a[1..] + b;
      WithAddressConcat(a[1..], b);
    }
  }

  /** Only users without an address are left out. */
  lemma {:induction false} WithAddressIs(users: seq<Email>)
    ensures multiset(WithAddress(users)) == multiset(users)["" := 0]
    decreases |users|
  {
    if users != [] {
      WithAddressIs(users[1..]);
      assert users == [users[0]] + users[1..];
    }
  }
}
