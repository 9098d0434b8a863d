/**
 * `AuthTokenStore.load_tokens`: double-checked locking around a single-use
 * refresh token.  Any number of calls interleave over one `auth_tokens` row, its
 * row lock and the identity provider; one action is what runs between two awaits.
 */
module TokenRefresh {
  import opened Prelude

  const ACCESS_TOKEN_EXPIRY_BUFFER: int := 900

  datatype Tokens = Tokens(access: string, refresh: string, accessExp: int, refreshExp: int)

  /** An expiry of 0 means "never". */
  predicate AccessExpired(accessExp: int, now: int) {
    accessExp != 0 && accessExp < now + ACCESS_TOKEN_EXPIRY_BUFFER
  }

  type Call = nat

  /** Where one `load_tokens` call stands; `since` indexes the row history at its start. */
  datatype Phase =
    | Started(since: nat)
    | Peeked(since: nat, snap: Tokens)
    | Waiting(since: nat, snap: Tokens, at: int)
    | Locked(since: nat, snap: Tokens)
    | Refreshing(since: nat, snap: Tokens, decided: int)
    | Refreshed(since: nat, decided: int, renewed: Tokens)
    | Returned(since: nat, until: nat, result: Option<Tokens>)
    | Raised

  /**
   * `history` lists every content the row has had, the current one last.
   * `consumed` logs each refresh token accepted by the provider, `refreshes` the
   * decision time of each refresh since the last `store_tokens`.
   */
  datatype World = World(
    row: Option<Tokens>, holder: Option<Call>, calls: map<Call, Phase>, clock: int,
    issued: set<string>, consumed: seq<string>,
    history: seq<Option<Tokens>>, refreshes: seq<int>)

  datatype Action =
    | Tick(now: int)
    | StoreTokens(tokens: Tokens)
    | Begin(c: Call)
    | Peek(c: Call)
    | FastCheck(c: Call, hasCallback: bool)
    | TakeLock(c: Call)
    | LockTimeout(c: Call)
    | Recheck(c: Call)
    | CallbackRaises(c: Call)
    | CallbackDeclines(c: Call)
    | CallbackRefreshes(c: Call, renewed: Tokens)
    | Commit(c: Call)
    | LoseCommit(c: Call)

  /** What the environment and the code allow to happen next. */
  predicate Enabled(w: World, a: Action) {
    match a
    case Tick(now) => now >= w.clock
    case StoreTokens(tokens) => w.holder.None? && tokens.refresh !in w.issued
    case Begin(c) => c in w.calls ==> w.calls[c].Returned? || w.calls[c].Raised?
    case Peek(c) => c in w.calls && w.calls[c].Started?
    case FastCheck(c, _) => c in w.calls && w.calls[c].Peeked?
    case TakeLock(c) => c in w.calls && w.calls[c].Waiting? && (w.row.Some? ==> w.holder.None?)
    case LockTimeout(c) => c in w.calls && w.calls[c].Waiting?
    case Recheck(c) => c in w.calls && w.calls[c].Locked?
    case CallbackRaises(c) => c in w.calls && w.calls[c].Refreshing?
    case CallbackDeclines(c) => c in w.calls && w.calls[c].Refreshing?
    case CallbackRefreshes(c, renewed) =>
      c in w.calls && w.calls[c].Refreshing? && renewed.refresh !in w.issued
    case Commit(c) => c in w.calls && w.calls[c].Refreshed?
    case LoseCommit(c) => c in w.calls && w.calls[c].Refreshed?
  }

  function Put(w: World, c: Call, p: Phase): World { w.(calls := w.calls[c := p]) }

  function Return(w: World, c: Call, since: nat, result: Option<Tokens>): World
    requires w.history != []
  {
    Put(w, c, Returned(since, |w.history| - 1, result))
  }

  function WriteRow(w: World, tokens: Tokens): World {
    w.(row := Some(tokens), history := w.history + [Some(tokens)])
  }

  function Next(w: World, a: Action): World
    requires Enabled(w, a) && w.history != []
  {
    match a
    case Tick(now) => w.(clock := now)
    case StoreTokens(tokens) =>
      WriteRow(w, tokens).(issued := w.issued + {tokens.refresh}, refreshes := [])
    case Begin(c) => Put(w, c, Started(|w.history| - 1))
    case Peek(c) =>
      var since := w.calls[c].since;
      if w.row.None? then Return(w, c, since, None) else Put(w, c, Peeked(since, w.row.value))
    case FastCheck(c, hasCallback) =>
      var Peeked(since, snap) := w.calls[c];
      if !AccessExpired(snap.accessExp, w.clock) || !hasCallback
      then Return(w, c, since, Some(snap))
      else Put(w, c, Waiting(since, snap, w.clock))
    case TakeLock(c) =>
      var since := w.calls[c].since;
      if w.row.None? then Return(w, c, since, None)
      else Put(w, c, Locked(since, w.row.value)).(holder := Some(c))
    case LockTimeout(c) => Put(w, c, Raised)
    case Recheck(c) =>
      var Locked(since, snap) := w.calls[c];
      if !AccessExpired(snap.accessExp, w.clock)
      then Return(w, c, since, Some(snap)).(holder := None)
      else Put(w, c, Refreshing(since, snap, w.clock))
    case CallbackRaises(c) => Put(w, c, Raised).(holder := None)
    case CallbackDeclines(c) =>
      Return(w, c, w.calls[c].since, Some(w.calls[c].snap)).(holder := None)
    case CallbackRefreshes(c, renewed) =>
      var Refreshing(since, snap, decided) := w.calls[c];
      Put(w, c, Refreshed(since, decided, renewed)).(
        issued := w.issued + {renewed.refresh},
        consumed := w.consumed + [snap.refresh],
        refreshes := w.refreshes + [decided])
    case Commit(c) =>
      var Refreshed(since, _, renewed) := w.calls[c];
      Return(WriteRow(w, renewed), c, since, Some(renewed)).(holder := None)
    case LoseCommit(c) => Put(w, c, Raised).(holder := None)
  }

  ghost predicate Init(w: World) {
    && w.holder.None? && w.calls == map[] && w.consumed == [] && w.refreshes == []
    && w.history == [w.row]
    && (w.row.Some? ==> w.row.value.refresh in w.issued)
  }

  /** `actions` takes the system from `w` to `w'`. */
  ghost predicate Run(w: World, actions: seq<Action>, w': World)
    decreases |actions|
  {
    && w.history != []
    && if actions == [] then w == w'
       else Enabled(w, actions[0]) && Run(Next(w, actions[0]), actions[1..], w')
  }

  ghost predicate CommitsSucceed(actions: seq<Action>) {
    forall a :: a in actions ==> !a.LoseCommit?
  }

  // ---------------------------------------------------------------- invariants

  predicate InTransaction(p: Phase) { p.Locked? || p.Refreshing? || p.Refreshed? }

  /** `result` was the row's content at some instant between the two history indices. */
  ghost predicate WasRow(w: World, since: nat, until: nat, result: Option<Tokens>) {
    until < |w.history| && exists i :: since <= i <= until && w.history[i] == result
  }

  /** The call read `snap` from the row, and at `at` that was within 900 s of its expiry. */
  ghost predicate SawExpired(w: World, since: nat, snap: Tokens, at: int) {
    && (exists until :: WasRow(w, since, until, Some(snap)))
    && snap.accessExp != 0 && snap.accessExp < at + 900
  }

  ghost predicate PhaseOk(w: World, p: Phase) {
    match p
    case Started(since) => since < |w.history|
    case Waiting(since, snap, at) => at <= w.clock && SawExpired(w, since, snap, at)
    case Peeked(since, snap) => exists until :: WasRow(w, since, until, Some(snap))
    case Locked(since, snap) => since < |w.history| && w.row == Some(snap)
    case Refreshing(since, snap, _) => since < |w.history| && w.row == Some(snap)
    case Refreshed(since, _, _) => since < |w.history| && w.row.Some?
    case Returned(since, until, result) => WasRow(w, since, until, result)
    case Raised => true
  }

  /** What holds of the row, the lock and the calls in every run, whatever is lost. */
  ghost predicate RowInv(w: World) {
    HistoryOk(w) && LockOk(w) && forall c :: c in w.calls ==> PhaseOk(w, w.calls[c])
  }

  /** And of the tokens, until one is consumed twice. */
  ghost predicate Base(w: World) { RowInv(w) && TokensOk(w) && RefreshedOk(w) }

  ghost predicate HistoryOk(w: World) { w.history != [] && w.history[|w.history| - 1] == w.row }

  ghost predicate TokensOk(w: World) {
    && Distinct(w.consumed) && (forall t :: t in w.consumed ==> t in w.issued)
    && (w.row.Some? ==> w.row.value.refresh in w.issued)
  }

  /** A call that has refreshed has used the row's token and holds a fresh one. */
  ghost predicate RefreshedOk(w: World) {
    forall c :: c in w.calls && w.calls[c].Refreshed? ==>
      var renewed := w.calls[c].renewed;
      && w.row.Some? && w.row.value.refresh in w.consumed
      && renewed.refresh in w.issued && renewed.refresh !in w.consumed
  }

  ghost predicate LockOk(w: World) {
    && (forall c :: c in w.calls && InTransaction(w.calls[c]) ==> w.holder == Some(c))
    && (w.holder.Some? ==> w.holder.value in w.calls && InTransaction(w.calls[w.holder.value]))
  }

  /** Some call has refreshed and not committed yet. */
  ghost predicate Uncommitted(w: World) {
    w.holder.Some? && w.holder.value in w.calls && w.calls[w.holder.value].Refreshed?
  }

  /** Ties the row, the lock holder and the provider's used set together. */
  ghost predicate Inv(w: World) {
    Base(w) && (w.row.Some? && !Uncommitted(w) ==> w.row.value.refresh !in w.consumed)
  }

  /** After a lost commit: the row is stuck on a consumed token. */
  ghost predicate Lost(w: World) {
    Base(w) && w.row.Some? && w.row.value.refresh in w.consumed && !Uncommitted(w)
  }

  /** A call that does not act keeps its phase assertion. */
  lemma PhaseKept(w: World, w': World, p: Phase)
    requires PhaseOk(w, p) && w.history <= w'.history && w.clock <= w'.clock
    requires InTransaction(p) ==> w'.row == w.row
    ensures PhaseOk(w', p)
  {
    if p.Peeked? || p.Waiting? {
      var until :| WasRow(w, p.since, until, Some(p.snap));
      WasRowGrows(w, w', p.since, until, Some(p.snap));
    } else if p.Returned? {
      WasRowGrows(w, w', p.since, p.until, p.result);
    }
  }

  lemma WasRowGrows(w: World, w': World, since: nat, until: nat, result: Option<Tokens>)
    requires WasRow(w, since, until, result) && w.history <= w'.history
    ensures WasRow(w', since, until, result)
    ensures exists i :: since <= i < |w'.history| && w'.history[i] == result
  {
    var i :| since <= i <= until && w.history[i] == result;
    assert w'.history[i] == result;
  }

  predicate ByClock(a: Action) { a.Tick? || a.StoreTokens? }

  /** The other calls are undisturbed by whichever call acts. */
  lemma OthersKept(w: World, a: Action)
    requires RowInv(w) && Enabled(w, a)
    ensures var w' := Next(w, a);
      && w.history <= w'.history && w'.history[|w'.history| - 1] == w'.row
      && forall c | c in w.calls && (ByClock(a) || c != a.c) :: PhaseOk(w', w'.calls[c])
  {
    var w' := Next(w, a);
    forall c | c in w.calls && (ByClock(a) || c != a.c)
      ensures PhaseOk(w', w'.calls[c])
    {
      PhaseKept(w, w', w.calls[c]);
    }
  }

  /** A refresh that happens presents a token not consumed before. */
  ghost predicate UsesFreshToken(w: World, a: Action)
    requires Enabled(w, a)
  {
    a.CallbackRefreshes? ==> w.calls[a.c].snap.refresh !in w.consumed
  }

  ghost predicate ActingOk(w: World, a: Action)
    requires Enabled(w, a) && w.history != []
  {
    var w' := Next(w, a);
    ByClock(a) || PhaseOk(w', w'.calls[a.c])
  }

  lemma ActorOk(w: World, a: Action)
    requires RowInv(w) && Enabled(w, a)
    ensures ActingOk(w, a)
  {
    var w' := Next(w, a);
    var now := |w.history| - 1;
    match a
    case Tick(_) =>
    case StoreTokens(_) =>
    case Peek(c) =>
      assert WasRow(w', w.calls[c].since, now, w.row);
    case FastCheck(c, _) =>
      var Peeked(since, snap) := w.calls[c];
      var until :| WasRow(w, since, until, Some(snap));
      WasRowGrows(w, w', since, until, Some(snap));
    case TakeLock(c) =>
      assert w.row.None? ==> WasRow(w', w.calls[c].since, now, w.row);
    case Recheck(c) =>
      assert w'.history[now] == w.row;
    case CallbackDeclines(c) =>
      assert WasRow(w', w.calls[c].since, now, w.row);
    case Commit(c) =>
      assert w'.history[now + 1] == w'.row;
    case _ =>
  }

  lemma HistoryStep(w: World, a: Action)
    requires HistoryOk(w) && Enabled(w, a)
    ensures HistoryOk(Next(w, a))
  {
  }

  lemma LockStep(w: World, a: Action)
    requires w.history != [] && LockOk(w) && Enabled(w, a)
    ensures LockOk(Next(w, a))
  {
  }

  lemma RowInvStep(w: World, a: Action)
    requires RowInv(w) && Enabled(w, a)
    ensures RowInv(Next(w, a))
  {
    HistoryStep(w, a);
    LockStep(w, a);
    OthersKept(w, a);
    ActorOk(w, a);
    assert forall c :: c in Next(w, a).calls ==> c in w.calls || (!ByClock(a) && c == a.c);
  }

  lemma {:induction false} RowInvRun(w: World, actions: seq<Action>, w': World)
    requires RowInv(w) && Run(w, actions, w')
    ensures RowInv(w')
    decreases |actions|
  {
    if actions != [] {
      RowInvStep(w, actions[0]);
      RowInvRun(Next(w, actions[0]), actions[1..], w');
    }
  }

  lemma TokensStep(w: World, a: Action)
    requires Base(w) && Enabled(w, a) && UsesFreshToken(w, a)
    ensures TokensOk(Next(w, a))
  {
    if a.CallbackRefreshes? {
      assert PhaseOk(w, w.calls[a.c]);
      DistinctAppend(w.consumed, w.calls[a.c].snap.refresh);
    }
  }

  lemma RefreshedStep(w: World, a: Action)
    requires Base(w) && Enabled(w, a)
    ensures RefreshedOk(Next(w, a))
  {
    if a.CallbackRefreshes? { assert PhaseOk(w, w.calls[a.c]); }
  }

  lemma BaseStep(w: World, a: Action)
    requires Base(w) && Enabled(w, a) && UsesFreshToken(w, a)
    ensures Base(Next(w, a))
  {
    RowInvStep(w, a);
    TokensStep(w, a);
    RefreshedStep(w, a);
  }

  /** In step with the provider, a refresh presents a fresh token. */
  lemma PresentsFresh(w: World, a: Action)
    requires Inv(w) && Enabled(w, a)
    ensures UsesFreshToken(w, a)
  {
    if a.CallbackRefreshes? { assert PhaseOk(w, w.calls[a.c]); }
  }

  lemma InvStep(w: World, a: Action)
    requires Inv(w) && Enabled(w, a) && !a.LoseCommit?
    ensures Inv(Next(w, a))
  {
    PresentsFresh(w, a);
    BaseStep(w, a);
    RowStep(w, a);
  }

  lemma RowStep(w: World, a: Action)
    requires Inv(w) && Enabled(w, a) && !a.LoseCommit?
    ensures var w' := Next(w, a); w'.row.Some? && !Uncommitted(w') ==> w'.row.value.refresh !in w'.consumed
  {
    if a.Commit? { assert w.calls[a.c].Refreshed?; }
  }

  lemma {:induction false} InvRun(w: World, actions: seq<Action>, w': World)
    requires Inv(w) && Run(w, actions, w') && CommitsSucceed(actions)
    ensures Inv(w')
    decreases |actions|
  {
    if actions != [] {
      InvStep(w, actions[0]);
      InvRun(Next(w, actions[0]), actions[1..], w');
    }
  }

  // ------------------------------------------------------------- main results

  /** No refresh token is consumed twice at the provider, in any interleaving. */
  lemma AtMostOnce(w: World, actions: seq<Action>, w': World)
    requires Init(w) && Run(w, actions, w') && CommitsSucceed(actions)
    ensures Distinct(w'.consumed)
  {
    InvRun(w, actions, w');
  }

  /** Every returned tuple was the row's content at an instant inside the call, whatever is lost. */
  lemma ReturnsARowContent(w: World, actions: seq<Action>, w': World, c: Call)
    requires Init(w) && Run(w, actions, w') && c in w'.calls && w'.calls[c].Returned?
    ensures WasRow(w', w'.calls[c].since, w'.calls[c].until, w'.calls[c].result)
  {
    RowInvRun(w, actions, w');
  }

  /** A call waits for the lock only after it has read a row about to expire. */
  lemma WaitingSawExpiry(w: World, actions: seq<Action>, w': World, c: Call)
    requires Init(w) && Run(w, actions, w') && c in w'.calls && w'.calls[c].Waiting?
    ensures
      var Waiting(since, snap, at) := w'.calls[c];
      && (exists i :: since <= i < |w'.history| && w'.history[i] == Some(snap))
      && at <= w'.clock && snap.accessExp != 0 && snap.accessExp < at + 900
  {
    RowInvRun(w, actions, w');
    var Waiting(since, snap, _) := w'.calls[c];
    var until :| WasRow(w', since, until, Some(snap));
    WasRowGrows(w', w', since, until, Some(snap));
  }

  /** A tuple is good while its access token has 900 s to go, or has no expiry; both checks go by that. */
  lemma ChecksAreExact(w: World, c: Call, hasCallback: bool)
    requires w.history != [] && c in w.calls
    ensures w.calls[c].Peeked? ==>
      var snap := w.calls[c].snap;
      Next(w, FastCheck(c, hasCallback)).calls[c].Returned? <==>
        !hasCallback || snap.accessExp == 0 || snap.accessExp >= w.clock + 900
    ensures w.calls[c].Locked? ==>
      var snap := w.calls[c].snap;
      Next(w, Recheck(c)).calls[c].Returned? <==> snap.accessExp == 0 || snap.accessExp >= w.clock + 900
  {
  }

  /** A refreshed token is good until at least `until`. */
  predicate LivesTo(tokens: Tokens, until: int) { tokens.accessExp == 0 || tokens.accessExp >= until }

  /** Along the run each refresh yields an access token that lives `life` seconds. */
  ghost predicate RefreshesLive(w: World, actions: seq<Action>, life: int)
    requires w.history != []
    decreases |actions|
  {
    actions == [] || (Enabled(w, actions[0]) ==>
      && (actions[0].CallbackRefreshes? ==> LivesTo(actions[0].renewed, w.clock + life))
      && (Next(w, actions[0]).history != [] ==> RefreshesLive(Next(w, actions[0]), actions[1..], life)))
  }

  /** Whole seconds: more than `life - 900` apart. */
  function Gap(life: int): int { life - ACCESS_TOKEN_EXPIRY_BUFFER + 1 }

  /**
   * Refreshes come in order, and all but `losses` of them are spaced: a lost commit leaves the
   * expired row behind, so that the next refresh may follow at once.
   */
  ghost predicate Paced(w: World, life: int, losses: nat) {
    && SpacedOver(w.refreshes, 0) && DecidedOnExpiry(w)
    && Close(w.refreshes, Gap(life)) + (if NewestLives(w, life) then 0 else 1) <= losses
  }

  /** A refresh is decided on an expired row, no earlier than the refreshes before. */
  ghost predicate DecidedOnExpiry(w: World) {
    && NoneAfter(w.refreshes, w.clock)
    && forall c :: c in w.calls && w.calls[c].Refreshing? ==>
         var decided := w.calls[c].decided;
         decided <= w.clock && AccessExpired(w.calls[c].snap.accessExp, decided) && NoneAfter(w.refreshes, decided)
  }

  predicate NoneAfter(times: seq<int>, t: int) { times != [] ==> times[|times| - 1] <= t }

  /** The newest token outlives the newest decision by `life`. */
  ghost predicate NewestLives(w: World, life: int) {
    w.refreshes != [] ==>
      var until := w.refreshes[|w.refreshes| - 1] + life;
      if Uncommitted(w) then LivesTo(w.calls[w.holder.value].renewed, until)
      else w.row.Some? && LivesTo(w.row.value, until)
  }

  lemma DecisionStep(w: World, a: Action)
    requires RowInv(w) && DecidedOnExpiry(w) && Enabled(w, a)
    ensures DecidedOnExpiry(Next(w, a))
  {
    var w' := Next(w, a);
    if a.CallbackRefreshes? {
      assert w.calls[a.c].Refreshing?;
    } else {
      assert w'.refreshes == w.refreshes || w'.refreshes == [];
    }
    forall c | c in w'.calls && w'.calls[c].Refreshing?
      ensures w'.calls[c].decided <= w'.clock && NoneAfter(w'.refreshes, w'.calls[c].decided)
      ensures AccessExpired(w'.calls[c].snap.accessExp, w'.calls[c].decided)
    {
      DecidedKept(w, a, c);
    }
  }

  lemma DecidedKept(w: World, a: Action, c: Call)
    requires RowInv(w) && DecidedOnExpiry(w) && Enabled(w, a)
    requires c in Next(w, a).calls && Next(w, a).calls[c].Refreshing?
    ensures
      var Refreshing(_, snap, decided) := Next(w, a).calls[c];
      && decided <= Next(w, a).clock && NoneAfter(Next(w, a).refreshes, decided)
      && AccessExpired(snap.accessExp, decided)
  {
    assert c in w.calls && w.calls[c].Refreshing? ==> w.holder == Some(c);
  }

  /** Only losing a commit spoils the newest token. */
  lemma NewestStep(w: World, a: Action, life: int)
    requires RowInv(w) && DecidedOnExpiry(w) && Enabled(w, a) && !a.LoseCommit?
    requires a.CallbackRefreshes? ==> LivesTo(a.renewed, w.clock + life)
    ensures NewestLives(w, life) || a.CallbackRefreshes? ==> NewestLives(Next(w, a), life)
  {
    if a.CallbackRefreshes? { assert w.calls[a.c].Refreshing?; }
  }

  /** With the newest token alive, the next decision keeps the distance. */
  lemma CloseStep(w: World, a: Action, life: int)
    requires RowInv(w) && DecidedOnExpiry(w) && Enabled(w, a) && a.CallbackRefreshes?
    requires SpacedOver(w.refreshes, 0)
    ensures
      var next := Next(w, a).refreshes;
      && SpacedOver(next, 0)
      && Close(next, Gap(life)) <= Close(w.refreshes, Gap(life)) + (if NewestLives(w, life) then 0 else 1)
  {
    var decided := w.calls[a.c].decided;
    assert PhaseOk(w, w.calls[a.c]);
    CloseAppend(w.refreshes, decided, Gap(life));
  }

  /** The lost commits since the last login. */
  function Losses(actions: seq<Action>, before: nat): nat
    decreases |actions|
  {
    if actions == [] then before
    else Losses(actions[1..], LossesAfter(actions[0], before))
  }

  function LossesAfter(a: Action, before: nat): nat {
    if a.LoseCommit? then before + 1 else if a.StoreTokens? then 0 else before
  }

  lemma PacedStep(w: World, a: Action, life: int, losses: nat)
    requires RowInv(w) && Paced(w, life, losses) && Enabled(w, a)
    requires a.CallbackRefreshes? ==> LivesTo(a.renewed, w.clock + life)
    ensures Paced(Next(w, a), life, LossesAfter(a, losses))
  {
    DecisionStep(w, a);
    if !a.LoseCommit? { NewestStep(w, a, life); }
    if a.CallbackRefreshes? { CloseStep(w, a, life); }
  }

  lemma {:induction false} PacedRun(w: World, actions: seq<Action>, w': World, life: int, losses: nat)
    requires RowInv(w) && Paced(w, life, losses) && Run(w, actions, w') && RefreshesLive(w, actions, life)
    ensures Paced(w', life, Losses(actions, losses))
    decreases |actions|
  {
    if actions != [] {
      RowInvStep(w, actions[0]);
      PacedStep(w, actions[0], life, losses);
      PacedRun(Next(w, actions[0]), actions[1..], w', life, LossesAfter(actions[0], losses));
    }
  }

  /**
   * However many processes call, and whatever commits are lost: of the refreshes since the
   * last `store_tokens`, at most `span / (life - 900) + 1`, and one more for each commit lost
   * since then, are decided inside any window of `span` seconds.
   */
  lemma RefreshRateWithLosses(w: World, actions: seq<Action>, w': World, life: int,
                              i: nat, j: nat, from: int, span: int)
    requires Init(w) && Run(w, actions, w')
    requires life > 900 && RefreshesLive(w, actions, life)
    requires i < j <= |w'.refreshes| && from <= w'.refreshes[i] && w'.refreshes[j - 1] <= from + span
    ensures (j - i - 1 - Losses(actions, 0)) * (life - 900) <= span
  {
    PacedRun(w, actions, w', life, 0);
    var gap := life - ACCESS_TOKEN_EXPIRY_BUFFER;
    CloseWindow(w'.refreshes, gap + 1, i, j, from, span);
    FewerGaps(j - i - 1 - Losses(actions, 0), j - i - 1 - Close(w'.refreshes, gap + 1), gap, span);
  }

  lemma FewerGaps(n: int, m: int, gap: nat, span: nat)
    requires n <= m && m * (gap + 1) <= span
    ensures n * gap <= span
  {
    if n > 0 {
      MulMonotone(n, m, gap);
      MulMonotone(gap, gap + 1, m);
    } else {
      MulMonotone(n, 0, gap);
    }
  }

  /** With no commit lost since the last login, at most `span / (life - 900) + 1`. */
  lemma RefreshRate(w: World, actions: seq<Action>, w': World, life: int,
                    i: nat, j: nat, from: int, span: int)
    requires Init(w) && Run(w, actions, w') && Losses(actions, 0) == 0
    requires life > 900 && RefreshesLive(w, actions, life)
    requires i < j <= |w'.refreshes| && from <= w'.refreshes[i] && w'.refreshes[j - 1] <= from + span
    ensures (j - i - 1) * (life - 900) <= span
  {
    RefreshRateWithLosses(w, actions, w', life, i, j, from, span);
  }

  // ------------------------------------------- why the commit must not be lost

  /** Some refresh comes after a lost commit with no login in between. */
  ghost predicate RefreshAfterLoss(actions: seq<Action>) {
    exists i, j :: 0 <= i < j < |actions| && actions[i].LoseCommit? && RefreshBeforeLogin(actions, i, j)
  }

  ghost predicate RefreshBeforeLogin(actions: seq<Action>, i: int, j: int) {
    -1 <= i < j < |actions| && actions[j].CallbackRefreshes? && forall k :: i < k < j ==> !actions[k].StoreTokens?
  }

  /** The same, read off from the front; `lost` says a lost commit is still unrepaired. */
  predicate Repeats(actions: seq<Action>, lost: bool)
    decreases |actions|
  {
    actions != [] &&
    match actions[0]
    case LoseCommit(_) => Repeats(actions[1..], true)
    case StoreTokens(_) => Repeats(actions[1..], false)
    case CallbackRefreshes(_, _) => lost || Repeats(actions[1..], false)
    case _ => Repeats(actions[1..], lost)
  }

  lemma {:induction false} RepeatsFound(actions: seq<Action>, lost: bool)
    requires Repeats(actions, lost)
    ensures RefreshAfterLoss(actions) || (lost && exists j :: RefreshBeforeLogin(actions, -1, j))
    decreases |actions|
  {
    var a, rest := actions[0], actions[1..];
    if a.CallbackRefreshes? && lost {
      assert RefreshBeforeLogin(actions, -1, 0);
    } else {
      var lost' := a.LoseCommit? || (lost && !a.StoreTokens?);
      RepeatsFound(rest, lost');
      if RefreshAfterLoss(rest) {
        var i, j :| 0 <= i < j < |rest| && rest[i].LoseCommit? && RefreshBeforeLogin(rest, i, j);
        Later(actions, i, j);
        assert actions[i + 1].LoseCommit?;
      } else {
        var j :| RefreshBeforeLogin(rest, -1, j);
        Later(actions, -1, j);
        if a.LoseCommit? {
          assert actions[0].LoseCommit? && RefreshBeforeLogin(actions, 0, j + 1);
        } else {
          assert RefreshBeforeLogin(actions, -1, j + 1);
        }
      }
    }
  }

  /** A pair found in the tail is one in the whole. */
  lemma Later(actions: seq<Action>, i: int, j: int)
    requires actions != [] && RefreshBeforeLogin(actions[1..], i, j)
    ensures RefreshBeforeLogin(actions, i + 1, j + 1)
  {
    forall k | i + 1 < k < j + 1 ensures !actions[k].StoreTokens? {
      assert actions[k] == actions[1..][k - 1];
    }
  }

  lemma {:induction false} FoundRepeats(actions: seq<Action>, lost: bool, i: int, j: int)
    requires RefreshBeforeLogin(actions, i, j) && (if i < 0 then lost else actions[i].LoseCommit?)
    ensures Repeats(actions, lost)
    decreases |actions|
  {
    var a, rest := actions[0], actions[1..];
    if j == 0 {
      assert a.CallbackRefreshes?;
    } else {
      assert forall k :: 0 < k < |actions| ==> actions[k] == rest[k - 1];
      var i' := if i < 0 then -1 else i - 1;
      assert RefreshBeforeLogin(rest, i', j - 1);
      if i < 0 { assert !actions[0].StoreTokens?; }
      if !(lost && a.CallbackRefreshes?) {
        FoundRepeats(rest, a.LoseCommit? || (lost && !a.StoreTokens?), i', j - 1);
      }
    }
  }

  /** Losing the commit strands the row on the consumed token; committing never does. */
  lemma LostCommitStrands(w: World, c: Call)
    requires Inv(w) && Enabled(w, Commit(c))
    ensures Lost(Next(w, LoseCommit(c)))
    ensures !Lost(Next(w, Commit(c)))
  {
    BaseStep(w, LoseCommit(c));
    assert w.calls[c].Refreshed?;
  }

  lemma LostStep(w: World, a: Action)
    requires Lost(w) && Enabled(w, a) && !a.CallbackRefreshes?
    ensures if a.StoreTokens? then Inv(Next(w, a)) else Lost(Next(w, a))
  {
    assert !a.Commit? && !a.LoseCommit?;
    BaseStep(w, a);
  }

  /** Stranded, a refresh presents the consumed token again. */
  lemma LostRefreshRepeats(w: World, a: Action)
    requires Lost(w) && Enabled(w, a) && a.CallbackRefreshes?
    ensures !Distinct(Next(w, a).consumed)
  {
    assert PhaseOk(w, w.calls[a.c]);
    var i :| 0 <= i < |w.consumed| && w.consumed[i] == w.row.value.refresh;
    assert Next(w, a).consumed[i] == Next(w, a).consumed[|w.consumed|];
  }

  lemma {:induction false} TwoModes(w: World, actions: seq<Action>, w': World, lost: bool)
    requires (if lost then Lost(w) else Inv(w)) && Run(w, actions, w')
    ensures Distinct(w'.consumed) <==> !Repeats(actions, lost)
    decreases |actions|
  {
    if actions != [] {
      var a, next := actions[0], Next(w, actions[0]);
      if lost && a.CallbackRefreshes? {
        LostRefreshRepeats(w, a);
        ConsumedGrows(next, actions[1..], w');
      } else {
        if lost { LostStep(w, a); }
        else if a.LoseCommit? { LostCommitStrands(w, a.c); }
        else { InvStep(w, a); }
        TwoModes(next, actions[1..], w', a.LoseCommit? || (lost && !a.StoreTokens?));
      }
    }
  }

  /**
   * The exact condition, over every run: a refresh token is consumed twice if and only if
   * some commit is lost and a refresh follows before the next login.
   */
  lemma AtMostOnceIff(w: World, actions: seq<Action>, w': World)
    requires Init(w) && Run(w, actions, w')
    ensures Distinct(w'.consumed) <==> !RefreshAfterLoss(actions)
  {
    TwoModes(w, actions, w', false);
    if Repeats(actions, false) { RepeatsFound(actions, false); }
    if RefreshAfterLoss(actions) {
      var i, j :| 0 <= i < j < |actions| && actions[i].LoseCommit? && RefreshBeforeLogin(actions, i, j);
      FoundRepeats(actions, false, i, j);
    }
  }

  /** From a lost commit until the next login, consuming nothing is the only way to repeat nothing. */
  lemma StrandedRefreshRepeats(w: World, actions: seq<Action>, w': World)
    requires Lost(w) && Run(w, actions, w')
    requires forall a :: a in actions ==> !a.StoreTokens?
    ensures Distinct(w'.consumed) <==> forall a :: a in actions ==> !a.CallbackRefreshes?
  {
    TwoModes(w, actions, w', true);
    if Repeats(actions, true) { RepeatsFound(actions, true); }
    if j :| 0 <= j < |actions| && actions[j].CallbackRefreshes? {
      assert RefreshBeforeLogin(actions, -1, j);
      FoundRepeats(actions, true, -1, j);
    }
  }

  /** One refresh up to the provider's answer. */
  function RefreshBy(c: Call, renewed: Tokens): seq<Action> {
    [Begin(c), Peek(c), FastCheck(c, true), TakeLock(c), Recheck(c), CallbackRefreshes(c, renewed)]
  }

  /** The provider has answered call `c`, which began at `since`. */
  function Renewed(w: World, c: Call, since: nat, renewed: Tokens): World
    requires w.row.Some?
  {
    w.(holder := Some(c), calls := w.calls[c := Refreshed(since, w.clock, renewed)],
       issued := w.issued + {renewed.refresh}, consumed := w.consumed + [w.row.value.refresh],
       refreshes := w.refreshes + [w.clock])
  }

  lemma RefreshRuns(w: World, c: Call, renewed: Tokens)
    requires w.history != [] && w.holder.None? && c !in w.calls && renewed.refresh !in w.issued
    requires w.row.Some? && AccessExpired(w.row.value.accessExp, w.clock)
    ensures Run(w, RefreshBy(c, renewed), Renewed(w, c, |w.history| - 1, renewed))
  {
    var since := |w.history| - 1;
    var waiting := w.(calls := w.calls[c := Waiting(since, w.row.value, w.clock)]);
    ReadRuns(w, c);
    LockRuns(waiting, c, since, renewed);
    assert Renewed(waiting, c, since, renewed).calls == Renewed(w, c, since, renewed).calls;
    RunConcat(w, [Begin(c), Peek(c), FastCheck(c, true)], waiting,
              [TakeLock(c), Recheck(c), CallbackRefreshes(c, renewed)], Renewed(w, c, since, renewed));
    assert [Begin(c), Peek(c), FastCheck(c, true)] + [TakeLock(c), Recheck(c), CallbackRefreshes(c, renewed)]
      == RefreshBy(c, renewed);
  }

  lemma LockRuns(w: World, c: Call, since: nat, renewed: Tokens)
    requires w.history != [] && w.holder.None? && renewed.refresh !in w.issued
    requires c in w.calls && w.calls[c].Waiting? && w.calls[c].since == since
    requires w.row.Some? && AccessExpired(w.row.value.accessExp, w.clock)
    ensures Run(w, [TakeLock(c), Recheck(c), CallbackRefreshes(c, renewed)], Renewed(w, c, since, renewed))
  {
    var snap := w.row.value;
    var w1 := w.(holder := Some(c), calls := w.calls[c := Locked(since, snap)]);
    var w2 := w1.(calls := w.calls[c := Refreshing(since, snap, w.clock)]);
    assert Next(w, TakeLock(c)) == w1 && Next(w1, Recheck(c)) == w2;
    RunExtends(w, [], w, TakeLock(c));
    RunExtends(w, [] + [TakeLock(c)], w1, Recheck(c));
    RunExtends(w, [] + [TakeLock(c)] + [Recheck(c)], w2, CallbackRefreshes(c, renewed));
    assert [] + [TakeLock(c)] + [Recheck(c)] + [CallbackRefreshes(c, renewed)]
      == [TakeLock(c), Recheck(c), CallbackRefreshes(c, renewed)];
    assert Next(w2, CallbackRefreshes(c, renewed)).calls == Renewed(w, c, since, renewed).calls;
  }

  lemma ReadRuns(w: World, c: Call)
    requires w.history != [] && c !in w.calls && w.row.Some? && AccessExpired(w.row.value.accessExp, w.clock)
    ensures
      var w' := w.(calls := w.calls[c := Waiting(|w.history| - 1, w.row.value, w.clock)]);
      Run(w, [Begin(c), Peek(c), FastCheck(c, true)], w')
  {
    var since := |w.history| - 1;
    var w1 := w.(calls := w.calls[c := Started(since)]);
    var w2 := w.(calls := w.calls[c := Peeked(since, w.row.value)]);
    assert Next(w, Begin(c)) == w1 && Next(w1, Peek(c)) == w2;
    RunExtends(w, [], w, Begin(c));
    RunExtends(w, [] + [Begin(c)], w1, Peek(c));
    RunExtends(w, [] + [Begin(c)] + [Peek(c)], w2, FastCheck(c, true));
    assert [] + [Begin(c)] + [Peek(c)] + [FastCheck(c, true)] == [Begin(c), Peek(c), FastCheck(c, true)];
    assert Next(w2, FastCheck(c, true)).calls == w.calls[c := Waiting(since, w.row.value, w.clock)];
  }

  lemma {:induction false} RunConcat(w: World, a: seq<Action>, mid: World, b: seq<Action>, w': World)
    requires Run(w, a, mid) && Run(mid, b, w')
    ensures Run(w, a + b, w')
    decreases |a|
  {
    if a == [] {
      assert a + b == b;
    } else {
      RunConcat(Next(w, a[0]), a[1..], mid, b, w');
      assert (a + b)[1..] == a[1..] + b;
    }
  }

  /** A run from the start that consumes one token twice: two refreshes, the first commit lost. */
  lemma DoubleConsumption(w: World, first: Tokens, second: Tokens) returns (actions: seq<Action>, w': World)
    requires Init(w) && w.row.Some? && AccessExpired(w.row.value.accessExp, w.clock)
    requires first.refresh !in w.issued && second.refresh !in w.issued && first.refresh != second.refresh
    ensures Run(w, actions, w') && !Distinct(w'.consumed)
  {
    var mid := Renewed(w, 1, |w.history| - 1, first);
    RefreshRuns(w, 1, first);
    RunExtends(w, RefreshBy(1, first), mid, LoseCommit(1));
    var lost := Next(mid, LoseCommit(1));
    RefreshRuns(lost, 2, second);
    w' := Renewed(lost, 2, |lost.history| - 1, second);
    actions := RefreshBy(1, first) + [LoseCommit(1)] + RefreshBy(2, second);
    RunConcat(w, RefreshBy(1, first) + [LoseCommit(1)], lost, RefreshBy(2, second), w');
    assert w'.consumed[0] == w'.consumed[1];
  }

  lemma {:induction false} ConsumedGrows(w: World, actions: seq<Action>, w': World)
    requires Run(w, actions, w') && !Distinct(w.consumed)
    ensures !Distinct(w'.consumed)
    decreases |actions|
  {
    if actions != [] {
      var next := Next(w, actions[0]);
      var i, j :| 0 <= i < j < |w.consumed| && w.consumed[i] == w.consumed[j];
      assert next.consumed[i] == next.consumed[j];
      ConsumedGrows(next, actions[1..], w');
    }
  }

  // ------------------------------------------------------- the code as a method

  /** `commits`: the commit after the callback gets through. */
  datatype Callback = Raises | Declines | Refreshes(renewed: Tokens, commits: bool)
  datatype Outcome = Loaded(tokens: Option<Tokens>) | TokenRefreshError | CallbackError | CommitError

  predicate Issues(a: Action, callback: Callback) {
    callback.Refreshes? &&
    ((a.CallbackRefreshes? && a.renewed.refresh == callback.renewed.refresh) ||
     (a.StoreTokens? && a.tokens.refresh == callback.renewed.refresh))
  }

  /**
   * What is handed out was good at `since`, or is what the callback just obtained; only a
   * callback that declines lets an expired tuple through.
   */
  predicate Usable(outcome: Outcome, callback: Callback, since: int) {
    outcome.Loaded? && outcome.tokens.Some? && !callback.Declines? ==>
      || (callback.Refreshes? && outcome.tokens.value == callback.renewed)
      || outcome.tokens.value.accessExp == 0 || outcome.tokens.value.accessExp >= since + 900
  }

  /** The refresh token the provider will hand to this call is issued to no other. */
  predicate Reserved(w: World, callback: Callback) {
    callback.Refreshes? ==> callback.renewed.refresh !in w.issued
  }

  /** What else may happen while call `c` awaits: anything possible but its own steps and its token. */
  function Acts(w: World, c: Call, a: Action, callback: Callback): World {
    if w.history != [] && Enabled(w, a) && !Issues(a, callback) && (ByClock(a) || a.c != c) then Next(w, a) else w
  }

  function AllAct(w: World, c: Call, env: seq<Action>, callback: Callback): World
    decreases |env|
  {
    if env == [] then w else Acts(AllAct(w, c, env[..|env| - 1], callback), c, env[|env| - 1], callback)
  }

  lemma {:induction false} RunExtends(w: World, actions: seq<Action>, w': World, a: Action)
    requires Run(w, actions, w') && w'.history != [] && Enabled(w', a) && Next(w', a).history != []
    ensures Run(w, actions + [a], Next(w', a))
    decreases |actions|
  {
    if actions == [] {
      assert [a][1..] == [];
    } else {
      RunExtends(Next(w, actions[0]), actions[1..], w', a);
      assert (actions + [a])[1..] == actions[1..] + [a];
    }
  }

  /** One deployment: the shared row, lock, provider and clock, reached by a legal run. */
  class AuthTokenStore {
    var world: World
    ghost const origin: World
    ghost var trail: seq<Action>

    ghost predicate Valid() reads this { Init(origin) && Run(origin, trail, world) && RowInv(world) }

    constructor (row: Option<Tokens>, now: int)
      ensures Valid() && world.row == row && trail == []
    {
      world := World(row, None, map[], now, if row.Some? then {row.value.refresh} else {}, [], [row], []);
      origin := World(row, None, map[], now, if row.Some? then {row.value.refresh} else {}, [], [row], []);
      trail := [];
    }

    method Do(a: Action)
      requires Valid() && Enabled(world, a)
      modifies this
      ensures Valid() && world == Next(old(world), a) && trail == old(trail) + [a]
    {
      RowInvStep(world, a);
      RunExtends(origin, trail, world, a);
      world := Next(world, a);
      trail := trail + [a];
    }

    /** Whatever other calls, the clock and logins do while call `c` awaits. */
    method Others(c: Call, env: seq<Action>, callback: Callback)
      requires Valid() && c in world.calls && Reserved(world, callback)
      modifies this
      ensures Valid() && old(trail) <= trail && old(world).history <= world.history && Reserved(world, callback)
      ensures c in world.calls && world.calls[c] == old(world).calls[c] && world.clock >= old(world).clock
      ensures world == AllAct(old(world), c, env, callback)
    {
      for i := 0 to |env|
        invariant Valid() && old(trail) <= trail && old(world).history <= world.history && Reserved(world, callback)
        invariant c in world.calls && world.calls[c] == old(world).calls[c] && world.clock >= old(world).clock
        invariant world == AllAct(old(world), c, env[..i], callback)
      {
        Another(c, env[i], callback);
        assert env[..i + 1][..i] == env[..i];
      }
      assert env[..|env|] == env;
    }

    method Another(c: Call, a: Action, callback: Callback)
      requires Valid() && c in world.calls && Reserved(world, callback)
      modifies this
      ensures Valid() && old(trail) <= trail && old(world).history <= world.history && Reserved(world, callback)
      ensures c in world.calls && world.calls[c] == old(world).calls[c] && world.clock >= old(world).clock
      ensures world == Acts(old(world), c, a, callback)
    {
      hide Run;
      if Enabled(world, a) && !Issues(a, callback) && (ByClock(a) || a.c != c) {
        Do(a);
      }
    }

    /** The outcome is a row content seen no earlier than history index `since`. */
    ghost predicate Seen(outcome: Outcome, since: nat) reads this {
      outcome.Loaded? ==>
        exists i :: since <= i < |world.history| && world.history[i] == outcome.tokens
    }

    /** The call is over: it has returned that tuple, or raised. */
    predicate Ended(c: Call, outcome: Outcome) reads this {
      && c in world.calls
      && if outcome.Loaded? then world.calls[c].Returned? && world.calls[c].result == outcome.tokens
         else world.calls[c].Raised?
    }

    /** The world has gone on from `before`. */
    predicate GoneOnFrom(before: World) reads this {
      before.history <= world.history && before.clock <= world.clock
    }

    /** Some row content since history index `since` was within 900 s of its expiry by now. */
    ghost predicate ExpiredSeen(since: nat) reads this {
      exists i :: since <= i < |world.history| && Expiring(world.history[i], world.clock)
    }

    predicate Expiring(row: Option<Tokens>, now: int) {
      row.Some? && row.value.accessExp != 0 && row.value.accessExp < now + 900
    }

    /** `load_tokens`, with `env[k]` what the rest of the system does at its k-th await. */
    method LoadTokens(c: Call, hasCallback: bool, callback: Callback, env: seq<seq<Action>>)
      returns (outcome: Outcome)
      requires Valid() && Enabled(world, Begin(c)) && |env| == 5
      requires Reserved(world, callback)
      modifies this
      ensures Valid() && old(trail) <= trail && (Distinct(world.consumed) <==> !RefreshAfterLoss(trail))
      ensures Seen(outcome, |old(world).history| - 1) && Ended(c, outcome)
      ensures hasCallback ==> Usable(outcome, callback, old(world).clock)
      ensures outcome.CallbackError? ==> hasCallback && callback.Raises?
      ensures outcome.CommitError? ==> hasCallback && callback.Refreshes? && !callback.commits
      ensures !outcome.Loaded? ==> ExpiredSeen(|old(world).history| - 1)
      ensures outcome.TokenRefreshError? ==>
        hasCallback && world.row.Some? && world.holder.Some? && world.holder != Some(c)
    {
      var fast := FastPath(c, hasCallback, callback, env[0], env[1]);
      if fast.Some? {
        AtMostOnceIff(origin, trail, world);
        return fast.value;
      }
      outcome := SlowPath(c, callback, env[2], env[3], env[4]);
      AtMostOnceIff(origin, trail, world);
    }

    /** Waiting for the lock, in vain while another call holds the row, and what follows with it. */
    method SlowPath(c: Call, callback: Callback, beforeLock: seq<Action>, beforeRecheck: seq<Action>,
                    beforeCallback: seq<Action>)
      returns (outcome: Outcome)
      requires Valid() && c in world.calls && world.calls[c].Waiting? && Reserved(world, callback)
      modifies this
      ensures Valid() && old(trail) <= trail && Seen(outcome, old(world).calls[c].since) && GoneOnFrom(old(world))
      ensures Ended(c, outcome)
      ensures ExpiredSeen(old(world).calls[c].since)
      ensures Usable(outcome, callback, old(world).clock)
      ensures outcome.CallbackError? ==> callback.Raises?
      ensures outcome.CommitError? ==> callback.Refreshes? && !callback.commits
      ensures outcome.TokenRefreshError? ==>
        world.row.Some? && world.holder.Some? && world.holder != Some(c)
    {
      ghost var seen := WaitingSeen(c);
      Others(c, beforeLock, callback);
      if world.row.Some? && world.holder.Some? {
        Do(LockTimeout(c));
        outcome := TokenRefreshError;
      } else {
        outcome := UnderLock(c, callback, beforeRecheck, beforeCallback);
      }
      assert Expiring(world.history[seen], world.clock);
    }

    /** A waiting call has seen such a row. */
    lemma WaitingSeen(c: Call) returns (i: nat)
      requires Valid() && c in world.calls && world.calls[c].Waiting?
      ensures world.calls[c].since <= i < |world.history| && Expiring(world.history[i], world.clock)
    {
      assert PhaseOk(world, world.calls[c]);
      var Waiting(since, snap, _) := world.calls[c];
      var until :| WasRow(world, since, until, Some(snap));
      WasRowGrows(world, world, since, until, Some(snap));
      i :| since <= i < |world.history| && world.history[i] == Some(snap);
    }

    /** The unlocked read; without an answer the call goes on to wait for the lock. */
    method FastPath(c: Call, hasCallback: bool, callback: Callback, beforePeek: seq<Action>, beforeCheck: seq<Action>)
      returns (outcome: Option<Outcome>)
      requires Valid() && Enabled(world, Begin(c)) && Reserved(world, callback)
      modifies this
      ensures Valid() && old(trail) <= trail && Reserved(world, callback) && world.clock >= old(world).clock
      ensures outcome.Some? ==>
        outcome.value.Loaded? && Seen(outcome.value, |old(world).history| - 1) && Ended(c, outcome.value)
      ensures outcome.Some? && hasCallback ==> Usable(outcome.value, callback, old(world).clock)
      ensures outcome.None? ==>
        hasCallback && c in world.calls && world.calls[c].Waiting?
        && world.calls[c].since == |old(world).history| - 1 && world.calls[c].at >= old(world).clock
    {
      ReadRow(c, callback, beforePeek);
      if world.calls[c].Returned? { return Some(Answer(c)); }
      outcome := CheckPeeked(c, hasCallback, callback, beforeCheck);
    }

    method ReadRow(c: Call, callback: Callback, beforePeek: seq<Action>)
      requires Valid() && Enabled(world, Begin(c)) && Reserved(world, callback)
      modifies this
      ensures Valid() && old(trail) <= trail && Reserved(world, callback) && world.clock >= old(world).clock
      ensures c in world.calls && (world.calls[c].Peeked? || (world.calls[c].Returned? && world.calls[c].result.None?))
      ensures world.calls[c].since == |old(world).history| - 1
    {
      Do(Begin(c));
      Others(c, beforePeek, callback);
      Do(Peek(c));
    }

    method CheckPeeked(c: Call, hasCallback: bool, callback: Callback, beforeCheck: seq<Action>)
      returns (outcome: Option<Outcome>)
      requires Valid() && c in world.calls && world.calls[c].Peeked? && Reserved(world, callback)
      modifies this
      ensures Valid() && old(trail) <= trail && Reserved(world, callback) && world.clock >= old(world).clock
      ensures outcome.Some? ==>
        outcome.value.Loaded? && Seen(outcome.value, old(world).calls[c].since) && Ended(c, outcome.value)
      ensures outcome.Some? && hasCallback ==> Usable(outcome.value, callback, old(world).clock)
      ensures outcome.None? ==>
        hasCallback && c in world.calls && world.calls[c].Waiting?
        && world.calls[c].since == old(world).calls[c].since && world.calls[c].at >= old(world).clock
      ensures var snap := old(world).calls[c].snap;
        && (!hasCallback || snap.accessExp == 0 || snap.accessExp >= world.clock + 900 ==>
              outcome == Some(Loaded(Some(snap))))
        && (hasCallback && snap.accessExp != 0 && snap.accessExp < old(world).clock + 900 ==> outcome.None?)
    {
      Others(c, beforeCheck, callback);
      Do(FastCheck(c, hasCallback));
      if world.calls[c].Returned? { return Some(Answer(c)); }
      outcome := None;
    }

    /**
     * Still good now: somebody else refreshed, and that is the answer.  Expired when the lock
     * was taken: the callback decides.
     */
    ghost predicate UnderLockOutcome(outcome: Outcome, found: Tokens, callback: Callback, before: int) reads this {
      && (found.accessExp == 0 || found.accessExp >= world.clock + 900 ==>
            outcome == Loaded(Some(found)) && world.row == Some(found))
      && (found.accessExp != 0 && found.accessExp < before + 900 ==> CallbackDecides(outcome, found, callback))
    }

    ghost predicate CallbackDecides(outcome: Outcome, found: Tokens, callback: Callback) reads this {
      match callback
      case Raises => outcome == CallbackError && world.row == Some(found)
      case Declines => outcome == Loaded(Some(found)) && world.row == Some(found)
      case Refreshes(renewed, commits) =>
        if commits then outcome == Loaded(Some(renewed)) && world.row == Some(renewed)
        else outcome == CommitError && world.row == Some(found)
    }

    /** The slow path: lock, check again, refresh, commit. */
    method UnderLock(c: Call, callback: Callback, beforeRecheck: seq<Action>, beforeCallback: seq<Action>)
      returns (outcome: Outcome)
      requires Valid() && Enabled(world, TakeLock(c)) && Reserved(world, callback)
      modifies this
      ensures Valid() && old(trail) <= trail && Seen(outcome, old(world).calls[c].since) && GoneOnFrom(old(world))
      ensures Ended(c, outcome)
      ensures Usable(outcome, callback, old(world).clock)
      ensures outcome.CallbackError? ==> callback.Raises?
      ensures outcome.CommitError? ==> callback.Refreshes? && !callback.commits
      ensures !outcome.TokenRefreshError?
      ensures old(world).row.None? ==> outcome == Loaded(None)
      ensures old(world).row.Some? ==> UnderLockOutcome(outcome, old(world).row.value, callback, old(world).clock)
    {
      Do(TakeLock(c));
      if world.calls[c].Returned? { return Answer(c); }
      outcome := CheckLocked(c, callback, beforeRecheck, beforeCallback);
    }

    /** Holding the lock: the row read under it is checked again. */
    method CheckLocked(c: Call, callback: Callback, beforeRecheck: seq<Action>, beforeCallback: seq<Action>)
      returns (outcome: Outcome)
      requires Valid() && c in world.calls && world.calls[c].Locked? && Reserved(world, callback)
      modifies this
      ensures Valid() && old(trail) <= trail && Seen(outcome, old(world).calls[c].since) && GoneOnFrom(old(world))
      ensures Ended(c, outcome)
      ensures Usable(outcome, callback, old(world).clock)
      ensures outcome.CallbackError? ==> callback.Raises?
      ensures outcome.CommitError? ==> callback.Refreshes? && !callback.commits
      ensures !outcome.TokenRefreshError?
      ensures UnderLockOutcome(outcome, old(world).calls[c].snap, callback, old(world).clock)
    {
      hide Run;
      Others(c, beforeRecheck, callback);
      Do(Recheck(c));
      if world.calls[c].Returned? { return Answer(c); }
      Others(c, beforeCallback, callback);
      outcome := RefreshUnderLock(c, callback);
    }

    method RefreshUnderLock(c: Call, callback: Callback) returns (outcome: Outcome)
      requires Valid() && c in world.calls && world.calls[c].Refreshing? && Reserved(world, callback)
      modifies this
      ensures Valid() && old(trail) <= trail && Seen(outcome, old(world).calls[c].since) && GoneOnFrom(old(world))
      ensures Ended(c, outcome)
      ensures CallbackDecides(outcome, old(world).calls[c].snap, callback) && world.clock == old(world).clock
    {
      assert PhaseOk(world, world.calls[c]);
      match callback
      case Raises =>
        Do(CallbackRaises(c));
        return CallbackError;
      case Declines =>
        Do(CallbackDeclines(c));
        return Answer(c);
      case Refreshes(renewed, commits) =>
        outcome := StoreRenewed(c, renewed, commits);
    }

    /** The provider has answered: the new tokens go into the row if the commit gets through. */
    method StoreRenewed(c: Call, renewed: Tokens, commits: bool) returns (outcome: Outcome)
      requires Valid() && Enabled(world, CallbackRefreshes(c, renewed))
      modifies this
      ensures Valid() && old(trail) <= trail && Seen(outcome, old(world).calls[c].since) && GoneOnFrom(old(world))
      ensures Ended(c, outcome)
      ensures outcome == if commits then Loaded(Some(renewed)) else CommitError
      ensures world.row == (if commits then Some(renewed) else old(world).row) && world.clock == old(world).clock
      ensures world.consumed == old(world).consumed + [old(world).calls[c].snap.refresh]
      ensures world.refreshes == old(world).refreshes + [old(world).calls[c].decided]
    {
      hide Run;
      Do(CallbackRefreshes(c, renewed));
      if !commits {
        Do(LoseCommit(c));
        return CommitError;
      }
      Do(Commit(c));
      outcome := Answer(c);
    }

    function Answer(c: Call): (outcome: Outcome)
      reads this
      requires Valid() && c in world.calls && world.calls[c].Returned?
      ensures outcome == Loaded(world.calls[c].result) && Seen(outcome, world.calls[c].since)
    {
      assert PhaseOk(world, world.calls[c]);
      Loaded(world.calls[c].result)
    }
  }
}
