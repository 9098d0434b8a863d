# Verified models of the OpenHands enterprise storage layer

The stores of `OpenHands/enterprise` are short transactions and protocols over shared
state: Postgres rows, a Redis lock, the LiteLLM budget ledger, the Resend audience.  Each
module below models one of them, with the outside world as plain maps and every network or
database call as a step that can succeed or fail, and proves what holds over every
interleaving, run or input.  `dafny verify dfyconfig.toml` checks the whole project.

| module | what it is about |
|---|---|
| `TokenRefresh` | `load_tokens`: double-checked locking around a single-use refresh token, any number of processes |
| `CreationLock` | `get_user_by_id`: one migration at a time under an ownerless Redis lock with a 30 s life |
| `CreditLedger` | `migrate_entries` and `downgrade_entries`: credits moved by several LiteLLM calls, each of which may be the last |
| `OrgLifecycle` | creating, switching and deleting organisations: foreign keys, a manual cascade, a saga with compensation |
| `SettingsMerge` | organisation settings, member diffs and member-private keys: `load`, `store`, the broadcast, and the recursive merge |
| `WebhookFairness` | the GitLab webhook installer as an oldest-first scheduler with faults |
| `ProactiveTrigger` | the proactive conversation: when a group of workflow runs is handed out, once |
| `ResendSync` | the contact sync: at most one contact and one welcome per address, with crashes anywhere |
| `DeviceFlow` | the device-code row and store, and the polling limit of section 3.5 of RFC 8628 |
| `Paging` | paging by an offset in decimal, by a has-more flag, and the financial view's use of it |
| `SkillName` | the skill-name normaliser and validator against their grammar |
| `Prelude` | `Option`, distinctness, and counting spaced events in a window |

Objects whose methods update fields are classes; a method that changes state is specified
by an `Effect`, `Next`, `After` or similarly named specification, and the lemmas are about
runs of those.  In the concurrent modules (`TokenRefresh`, `CreationLock`, `WebhookFairness`)
a method takes, as parameters, what everybody else does at each of its awaits, and performs
its own steps on the shared state machine.

## What the proofs turned up

Where a property is false of the code, the model keeps the code, and a lemma says exactly
when the property holds or exhibits a run that breaks it.

- A refresh token is consumed twice exactly when the commit after a successful callback is
  lost and a refresh follows before the next login (`TokenRefresh.AtMostOnceIff`).
- The user-creation lock excludes exactly while no critical section reaches its 30th second,
  Redis answers, and nobody migrates outside it (`CreationLock.OverlapIffFault`);
  `saas_settings_store.py:241` does migrate outside it.
- Once the sentinel is on the user record a migration is never retried.  If it stops before the
  membership the user stays outside the team for good (`CreditLedger.MembershipIsNotRetried`),
  and a key it did not reach stays off the team for good (`CreditLedger.KeysAfterRetries`).
- A downgrade that is cut short leaves the credits on the user record and on the team at once,
  and its retry forgets what was spent on the user record in between
  (`CreditLedger.HeldTwiceIff`, `CreditLedger.RetryForgetsSpending`).
- `downgrade_user` resets neither the settings version nor the billing margin, so a user
  migrated again has a margin folded in a second time
  (`CreditLedger.SecondMigrationAgreesIff`, `CreditLedger.MarginFoldedTwice`).
- A failing key listing reads as an empty one, and then the downgrade deletes the team with
  the keys still on it (`CreditLedger.KeysLeaveTheTeamFirst` gives the exact condition).
- LiteLLM and the database part company exactly in the cases listed in
  `OrgLifecycle.Desyncs`: set-up failing after the team exists, a failed compensation, a
  refresh failing after the commit, a commit failing after the team is deleted, a deletion of
  the org row that is not awaited, and the corresponding cases of adding a user.  As
  `org_store.py:538` is written the row is never deleted, so every deletion that gets through
  is such a case (`OrgLifecycle.UnawaitedDeleteDesyncs`); both readings are modelled.
- In the settings merge an object replaces only what it covers: a stored object loads back
  exactly if and only if no old leaf shows through it (`SettingsMerge.ObjectLoadsExactlyIff`);
  an empty one keeps all the old entries (`SettingsMerge.EmptyObjectKeepsTheOld`).  A null
  leaf loads as unset.
- A webhook row with both ids or neither raises before it is stamped, and then every run that
  gets to it ends there.  A waiting row is reached in every schedule exactly if no such row
  may be served before it (`WebhookFairness.ReachedIffNoMalformedAhead`).  The table has no
  constraint against such a row and `store_webhooks` inserts an entry with both ids
  (`WebhookFairness.MalformedRowBlocks`), although the callers in `gitlab_service.py` and in
  `routes/integration/gitlab.py` build entries with one.
- An address can still become a contact exactly while it is not marked, so a run that stops
  between the mark and the contact loses it (`ResendSync.AddableIffUnmarked`,
  `ResendSync.CrashStrands`).
- `last_updated_at` of a proactive conversation is set by the insertion alone, so the clean-up
  goes by creation time; a key answered before is answered again only after that
  (`ProactiveTrigger.FrozenUntilSwept`, `ProactiveTrigger.AnsweredIff`).  Two first events can
  both find no row, since there is none to lock and the index is not unique, and then the key
  can be answered twice (`ProactiveTrigger.CanAnswerIff`, `ProactiveTrigger.BothFirstAnswered`).
- Denying a device code after it was authorised does nothing, so the clean-up at
  `oauth_device.py:304` leaves the code authorised (`DeviceFlow.DecidedStaysDecided`).
  Interleaved, calls can overwrite each other (`DeviceFlow.DecisionIsFinalIff`).
- The financial view takes the has-more flag for a total count, so it never offers a second
  page (`Paging.FinancialViewStopsAtOnePage`).
- The validator's `$` lets one trailing newline through (`SkillName.PassesValidation`,
  `SkillName.NewlinePasses`).

Where code and comments disagree the model follows the code: `migrate_entries` describes
itself as retryable, yet it is so only up to the sentinel; the route says it reverts an
authorisation, yet it does not.

## Model

| member | source | states |
|---|---|---|
| TokenRefresh.AtMostOnceIff | OpenHands/enterprise/storage/auth_token_store.py:102-251 | Over every run, lost commits, lock time-outs and logins included: a refresh token is consumed twice if and only if some commit is lost and a refresh follows before the next login |
| TokenRefresh.AtMostOnce | OpenHands/enterprise/storage/auth_token_store.py:102-251 | In particular, where commits after a successful callback succeed, no refresh token is consumed twice in any interleaving of any number of calls |
| TokenRefresh.DoubleConsumption | OpenHands/enterprise/storage/auth_token_store.py:209-243 | From every starting state with an expired row, a run of two calls that consumes one token twice |
| TokenRefresh.InvRun | OpenHands/enterprise/storage/auth_token_store.py:167-243 | The invariant behind it, over every run without a lost commit: the row's refresh token is unused unless the lock holder has just used it |
| TokenRefresh.RowInvRun | OpenHands/enterprise/storage/auth_token_store.py:167-243 | The part that needs no assumption, over every run: only the lock holder is past the locked read, and its snapshot is still the row |
| TokenRefresh.ReturnsARowContent | OpenHands/enterprise/storage/auth_token_store.py:138-243 | Over every run, lost commits included, every returned tuple was the row's content at some instant between the start and the end of the call |
| TokenRefresh.WaitingSawExpiry | OpenHands/enterprise/storage/auth_token_store.py:138-186 | Over every run: a call waits for the lock only after it read, since it began, a row with an expiry less than 900 s away at some clock inside the call |
| TokenRefresh.ChecksAreExact | OpenHands/enterprise/storage/auth_token_store.py:34-57 | Both checks answer exactly a tuple whose expiry is 0 or at least 900 s away, the unlocked one also whatever a call without a callback finds |
| TokenRefresh.RefreshRateWithLosses | OpenHands/enterprise/storage/auth_token_store.py:34-57 | Over every run, if refreshed tokens live L > 900 s: a window of T seconds without a login decides at most T/(L-900)+1 refreshes and one more for each commit lost since the last login, however many processes call |
| TokenRefresh.RefreshRate | OpenHands/enterprise/storage/auth_token_store.py:34-57 | At most T/(L-900)+1 where no commit has been lost since the last login |
| TokenRefresh.PacedRun | OpenHands/enterprise/storage/auth_token_store.py:191-243 | Over every run refresh decisions come in order, and the pairs of them closer than L-900, with the newest token if it is not in the row, are no more than the commits lost since the last login |
| TokenRefresh.LostCommitStrands | OpenHands/enterprise/storage/auth_token_store.py:221-243 | Losing the commit leaves the row on a consumed token, with everything else in order; committing never does |
| TokenRefresh.StrandedRefreshRepeats | OpenHands/enterprise/storage/auth_token_store.py:209-243 | From the state a lost commit leaves, until a login, tokens stay distinct if and only if nobody refreshes |
| TokenRefresh.AuthTokenStore.LoadTokens | OpenHands/enterprise/storage/auth_token_store.py:102-251 | Whatever others do at its awaits, and whether or not its own or their commits are lost: the call ends returned or raised as its outcome says; it answers with a row content seen during the call, which was good for 900 s from when the call began or is the freshly obtained one unless the callback declined; any error comes only after the row was seen less than 900 s from its expiry, the lock error only while another call holds the row, the callback error only when the callback raises, another only when its commit is lost; and tokens are reused exactly under the condition of `AtMostOnceIff` |
| TokenRefresh.AuthTokenStore.FastPath | OpenHands/enterprise/storage/auth_token_store.py:138-164 | Answers without the lock only from the row, with good tokens or without a callback; otherwise it waits for the lock, which it does only with a callback and after an expired read |
| TokenRefresh.AuthTokenStore.CheckPeeked | OpenHands/enterprise/storage/auth_token_store.py:150-164 | What was read is answered as it is where its expiry is 0 or at least 900 s away, or there is no callback; where it is nearer and there is a callback the call goes on to the lock |
| TokenRefresh.AuthTokenStore.SlowPath | OpenHands/enterprise/storage/auth_token_store.py:167-251 | The wait for the lock: in vain exactly while another call holds the row, and otherwise the locked part; a row about to expire has been seen |
| TokenRefresh.AuthTokenStore.UnderLock | OpenHands/enterprise/storage/auth_token_store.py:167-207 | With the lock: a row that is gone gives nothing; one still good is the answer and stays; one expired when the lock was taken is left to the callback |
| TokenRefresh.AuthTokenStore.CheckLocked | OpenHands/enterprise/storage/auth_token_store.py:191-243 | The same from the locked read on |
| TokenRefresh.AuthTokenStore.RefreshUnderLock | OpenHands/enterprise/storage/auth_token_store.py:209-243 | Callback raising or declining, and a lost commit, leave the row; a refresh that commits is both returned and in the row |
| TokenRefresh.AuthTokenStore.StoreRenewed | OpenHands/enterprise/storage/auth_token_store.py:221-243 | The write and the commit after the callback, either outcome |
| CreationLock.AtMostOneMigrating | OpenHands/enterprise/storage/user_store.py:118-160 | Under the three stated assumptions two callers are never inside `migrate_user` together, in any interleaving with crashes |
| CreationLock.NoMigrationAfterCommit | OpenHands/enterprise/storage/user_store.py:650-694 | Once a migration has committed no caller is ever inside `migrate_user` again, under the three assumptions |
| CreationLock.NobodyEntersOnceUserExists | OpenHands/enterprise/storage/user_store.py:650-694 | Without any assumption: with the user there, whoever is inside `migrate_user` was inside it already |
| CreationLock.InvRun | OpenHands/enterprise/storage/user_store.py:118-160 | Over every run whoever is in a critical section owns the live lock and is alone; an existing user stays |
| CreationLock.OverlapIffFault | OpenHands/enterprise/storage/user_store.py:118-160 | The exact bound: while a migration is under way a second one can start if and only if the clock may reach its 30th second, or Redis may fail, or someone may migrate without the lock |
| CreationLock.QuietRun | OpenHands/enterprise/storage/user_store.py:118-160 | Without those three no run from there breaks the invariant, callers that acquire the lock later included |
| CreationLock.OverrunOverlaps | OpenHands/enterprise/storage/user_store.py:119-139 | The lock lapses under its holder and any waiting caller takes it |
| CreationLock.RedisErrorOverlaps | OpenHands/enterprise/storage/user_store.py:119-139 | A Redis error lets any waiting caller in, since it counts as acquired, and writes no key |
| CreationLock.UnlockedCallerOverlaps | OpenHands/enterprise/storage/saas_settings_store.py:241 | So does the settings store, which migrates without the lock |
| CreationLock.MigrationStarts | OpenHands/enterprise/storage/user_store.py:650-694 | The state these speak of is reachable: a lone caller of a user with legacy settings |
| CreationLock.CrashedHolderIsReplaced | OpenHands/enterprise/storage/user_store.py:118-139 | After a holder crashes a waiting caller fails before the 30th second, gets in at it, and exclusion still holds |
| CreationLock.UserStore.GetUserById | OpenHands/enterprise/storage/user_store.py:637-694 | Keeps the invariant under any interference; answers found exactly when the user then exists, raises only for a migration that was needed and failed, and finds any user that existed at the start; a waiting caller takes the lock at its first attempt that meets it free or expired, so it is still waiting only if the key was held at every attempt |
| CreationLock.UserStore.InsideLock | OpenHands/enterprise/storage/user_store.py:661-694 | The user exists afterwards if and only if it did or a needed migration succeeded, a needed migration that fails is raised, and the lock is freed on every path |
| CreditLedger.CreditsSurviveRetries | OpenHands/enterprise/storage/lite_llm_manager.py:293-380 | Stopped after any step and retried any number of times: the user record changes only once the team holds max(m*(budget-spend), 0), with the margin applied once |
| CreditLedger.TeamBudgetIs | OpenHands/enterprise/storage/lite_llm_manager.py:293-347 | In numbers, for a fresh team and any list of attempts: it exists iff one got through its first request, and then with m*(budget-spend) for a margin m other than 0 before version 4, with budget-spend for version 4 or later or without a margin, and never below 0 |
| CreditLedger.SentinelIff | OpenHands/enterprise/storage/lite_llm_manager.py:317-359 | The user record becomes the budget 1000000000 with its spend as it was iff some attempt got through its second request; no other record changes |
| CreditLedger.NothingToMigrate | OpenHands/enterprise/storage/lite_llm_manager.py:286-333 | Without a user record, with no budget or with the budget 1000000000, no list of attempts changes anything |
| CreditLedger.RetriesActAsOneAttempt | OpenHands/enterprise/storage/lite_llm_manager.py:254-437 | Any sequence of attempts has the effect of the one that first got past the sentinel; before it only the team exists |
| CreditLedger.MigratedStays | OpenHands/enterprise/storage/lite_llm_manager.py:317-333 | A user with the sentinel, or with no budget, is left alone by every later attempt |
| CreditLedger.MembershipIsNotRetried | OpenHands/enterprise/storage/lite_llm_manager.py:360-380 | The user ends in the team iff the decisive attempt got beyond the sentinel |
| CreditLedger.KeysAfterRetries | OpenHands/enterprise/storage/lite_llm_manager.py:376-380 | Over any list of attempts exactly the valid keys that the decisive attempt reached are on the org team, and all others stay where they were for good |
| CreditLedger.KeysReachedAre | OpenHands/enterprise/storage/lite_llm_manager.py:376-380 | The keys reached are those listed at the position j with at least j+4 requests of the decisive attempt performed |
| CreditLedger.Migrated | OpenHands/enterprise/storage/lite_llm_manager.py:334-380 | What a migration that reaches the membership leaves on users and teams |
| CreditLedger.RoundTripConserves | OpenHands/enterprise/storage/lite_llm_manager.py:439-580 | Migrate up to any step, spend s, downgrade: once the team was created the user holds the migrated credits with spend s, with or without a membership, its budget shown or not, and the team is gone; before that nothing has changed |
| CreditLedger.SecondMigrationAgreesIff | OpenHands/enterprise/storage/lite_llm_manager.py:299-380 | A second migration then gives the team what was left if and only if the credits do not look like the sentinel and its margin is idle: 1, or nothing was left |
| CreditLedger.MigratesAgain | OpenHands/enterprise/storage/lite_llm_manager.py:293-380 | The budget it gives for every margin m: max(m*(credits-s), 0), or none at all for credits equal to the sentinel |
| CreditLedger.MarginFoldedTwice | OpenHands/enterprise/storage/user_store.py:375-634 | With the settings unchanged, as the downgrade leaves version and margin, the margin is idle for credits that are left only if it was 1 to begin with: otherwise it is folded in twice |
| CreditLedger.DowngradeKeepsCredits | OpenHands/enterprise/storage/lite_llm_manager.py:514-574 | A downgrade cut short anywhere loses no credits: its first request puts all of them on the user record, which no later one touches |
| CreditLedger.HeldTwiceIff | OpenHands/enterprise/storage/lite_llm_manager.py:514-574 | User record and team both hold the credits exactly from the first request until the team is deleted |
| CreditLedger.RetryForgetsSpending | OpenHands/enterprise/storage/lite_llm_manager.py:494-520 | A retry overwrites the user record, so whatever was spent on it since the cut is forgotten |
| CreditLedger.DowngradeRetries | OpenHands/enterprise/storage/lite_llm_manager.py:514-574 | Cut short anywhere before the team is taken apart and begun again, it ends as if never cut |
| CreditLedger.Restored | OpenHands/enterprise/storage/lite_llm_manager.py:494-565 | The whole ledger before the team is taken apart: user restored, default team joined, listed valid keys moved, nothing else |
| CreditLedger.RestoredAccountIs | OpenHands/enterprise/storage/lite_llm_manager.py:494-574 | The account a whole downgrade leaves, read off the team: the member's own budget and spend in its personal team where its budget is shown, else the team's; the default team joined, the listed valid keys moved, the team gone |
| CreditLedger.KeysLeaveTheTeamFirst | OpenHands/enterprise/storage/lite_llm_manager.py:929-998 | No valid key of the user is left on the team about to be deleted iff the listing named them all |
| CreditLedger.KeyCallsMove | OpenHands/enterprise/storage/lite_llm_manager.py:974-998 | The key loop moves exactly the listed valid keys and nothing else, and never fails |
| CreditLedger.LiteLlmManager.Post | OpenHands/enterprise/storage/lite_llm_manager.py:857-927 | A request is performed once or, on failure, not at all |
| CreditLedger.LiteLlmManager.CreditsToMove | OpenHands/enterprise/storage/lite_llm_manager.py:293-334 | The branching margin code computes max(m*budget - m*spend, 0) with m = 1 where no margin applies |
| CreditLedger.LiteLlmManager.MigrateEntries | OpenHands/enterprise/storage/lite_llm_manager.py:254-437 | The step-by-step migration, cut short anywhere, is the specified prefix of calls; it reports success iff there was something to migrate and every call got through |
| CreditLedger.LiteLlmManager.UpdateUserKeys | OpenHands/enterprise/storage/lite_llm_manager.py:974-998 | The loop over keys performs its part of the sequence of requests, or stops where that is cut |
| CreditLedger.LiteLlmManager.DowngradeEntries | OpenHands/enterprise/storage/lite_llm_manager.py:439-580 | The downgrade, cut short anywhere or stopped by a rejected request, is that prefix of the specified calls; without the team it does nothing; it reports success iff team, user and default team exist and every call got through |
| CreditLedger.LiteLlmManager.RestoreUser | OpenHands/enterprise/storage/lite_llm_manager.py:494-565 | Its first steps up to the cut: the membership's budget when shown, else the team's, then the default team and the keys; when they all get through |
| OrgLifecycle.ReachableKeepInvariants | OpenHands/enterprise/storage/org_store.py:400-563 | In every reachable state, whatever failed on the way, each `current_org_id` names an existing org its user belongs to, and no row references a missing org |
| OrgLifecycle.StepKeepsInvariants | OpenHands/enterprise/storage/org_service.py:852-918 | One operation keeps them |
| OrgLifecycle.ErasedKeepsInvariants | OpenHands/enterprise/storage/org_store.py:498-535 | A committed cascade keeps them, thanks to the reassignment before the memberships go |
| OrgLifecycle.ErasedLeavesNoReference | OpenHands/enterprise/storage/org_store.py:444-538 | After a committed cascade that deletes the org row, no row of any table refers to the org or to its conversations |
| OrgLifecycle.ErasedSparesTheRest | OpenHands/enterprise/storage/org_store.py:444-538 | And nothing else goes: other orgs, memberships, users' other choices, conversations with their data and rows stay as they were; of the org's own rows only Jira workspaces stay, without an org |
| OrgLifecycle.SyncedIffNoDesync | OpenHands/enterprise/storage/org_service.py:226-371 | One operation keeps LiteLLM teams equal to org rows iff none of the listed faults hits it, the missing `await` being one |
| OrgLifecycle.UnawaitedDeleteDesyncs | OpenHands/enterprise/storage/org_store.py:538 | As written, every deletion that gets to the commit leaves an org row without a team |
| OrgLifecycle.SyncedThroughout | OpenHands/enterprise/storage/org_service.py:186-408 | Over a run without those faults the two sets agree after every call |
| OrgLifecycle.Platform.CreateOrgWithOwner | OpenHands/enterprise/storage/org_service.py:186-290 | A creation under every fault: the name error iff an org has the name, the LiteLLM error iff otherwise the set-up fails, created iff otherwise the id is new, the owner exists and nothing fails, and else the database error with exactly one compensation; the rows and teams after each |
| OrgLifecycle.Platform.BuildAndPersist | OpenHands/enterprise/storage/org_service.py:292-331 | Entities and persistence, with the compensation run once when persistence fails |
| OrgLifecycle.Platform.PersistOrgWithOwner | OpenHands/enterprise/storage/org_store.py:400-422 | Org and owner are committed together or not at all, though the refresh afterwards may raise |
| OrgLifecycle.Platform.HandleFailureWithCleanup | OpenHands/enterprise/storage/org_service.py:333-408 | Deletes the team, best effort, and always reports a database error |
| OrgLifecycle.Platform.DeleteOrgCascade | OpenHands/enterprise/storage/org_store.py:424-563 | All or nothing on the database, whether a statement, LiteLLM or the commit fails, and whether or not the deletion of the org row is awaited: erased from every table, with all else as it was, or exactly as before; refused for orphans iff some user has the org as current and belongs to no other, with precisely those users named; when each other error comes, and when the team goes |
| OrgLifecycle.Platform.RemoveOrg | OpenHands/enterprise/storage/org_store.py:517-538 | Reassignment, memberships and, if awaited, the org row with what the database does to its references |
| OrgLifecycle.Platform.DeleteOwnedRows | OpenHands/enterprise/storage/org_store.py:446-496 | The nine DELETE statements remove exactly the org's conversation data and restricting references |
| OrgLifecycle.Platform.ReassignCurrentOrg | OpenHands/enterprise/storage/org_store.py:517-529 | Every affected user gets another org of theirs, nobody else is touched |
| OrgLifecycle.Platform.DeleteRows | OpenHands/enterprise/storage/org_store.py:463-496 | One statement after others: what is left is what all tables so far leave |
| OrgLifecycle.Platform.DeleteDirectReferences | OpenHands/enterprise/storage/org_store.py:475-496 | The statements after the conversations clear the remaining tables |
| OrgLifecycle.RestrictingTables | OpenHands/enterprise/storage/org_store.py:463-496 | Together they leave only the references the database itself cascades or nulls |
| OrgLifecycle.Platform.SwitchToOrg | OpenHands/enterprise/storage/org_service.py:852-918 | Switches iff org, membership and user exist, and changes nothing else; the org error iff the org is missing, the authorisation error iff it exists and the membership is missing |
| OrgLifecycle.Platform.CreateUser | OpenHands/enterprise/storage/user_store.py:47-372 | Adds user, personal org `user_<id>_org`, membership, adopted rows and conversations together, or none of them, the latter iff the commit fails or an id, the name or a conversation is taken |
| SettingsMerge.LoadedLeaf | OpenHands/enterprise/storage/saas_settings_store.py:180-367 | What every member loads after a store at each shared non-secret path, for arbitrary prior rows: what the item says there, else what the member's diff said, else what the org's settings said |
| SettingsMerge.StoreThenLoadAgrees | OpenHands/enterprise/storage/saas_settings_store.py:180-367 | So every member of the org loads the stored value at each shared non-secret leaf path |
| SettingsMerge.ObjectLoadsExactlyIff | OpenHands/enterprise/storage/saas_settings_store.py:180-367 | A stored object loads back with exactly its leaves if and only if the rows before the store held below it no leaf that the item leaves uncovered and that would show |
| SettingsMerge.NoOldLeafLoadsExactly | OpenHands/enterprise/storage/saas_settings_store.py:180-367 | In particular if neither the org nor the member held an uncovered leaf there |
| SettingsMerge.HiddenOldLeaf | OpenHands/openhands/app_server/utils/jsonpatch_compat.py:10-28 | An uncovered leaf of the org's need not show: an object in the member's diff hides it |
| SettingsMerge.LoadedConversationLeaf | OpenHands/enterprise/storage/saas_settings_store.py:185-202 | The loaded conversation leaf at every path, in the same terms |
| SettingsMerge.ConversationAgrees | OpenHands/enterprise/storage/saas_settings_store.py:185-202 | Every stored leaf of the conversation settings loads back |
| SettingsMerge.StoreMakesLoadable | OpenHands/enterprise/storage/saas_settings_store.py:188-202 | A stored item always has an object as its `llm` (line 269 reads its model), so no load of any member after a store raises |
| SettingsMerge.LoadRaisesIff | OpenHands/enterprise/storage/saas_settings_store.py:188-202 | For an arbitrary item, the load after its store raises if and only if there is a key to put in and the layer that decides about `llm` holds something else than an object |
| SettingsMerge.LayersShow | OpenHands/openhands/app_server/utils/jsonpatch_compat.py:10-28 | The leaf that shows after merging one update into both layers, at every path, in terms of the layers before |
| SettingsMerge.NullClearsBothLayers | OpenHands/openhands/app_server/utils/jsonpatch_compat.py:10-28 | A null merged into both layers leaves nothing at the path, no object either |
| SettingsMerge.MergeLeaf | OpenHands/openhands/app_server/utils/jsonpatch_compat.py:10-28 | At every path a merge shows the update where it covers the path, and the base everywhere else |
| SettingsMerge.MergeCovers | OpenHands/openhands/app_server/utils/jsonpatch_compat.py:10-28 | When the merged diff decides about a path the update leaves uncovered |
| SettingsMerge.MergeClearsLeaf | OpenHands/openhands/app_server/utils/jsonpatch_compat.py:10-28 | A null leaf of the update leaves the result unset there |
| SettingsMerge.MergeKeepsUnset | OpenHands/openhands/app_server/utils/jsonpatch_compat.py:10-28 | A path unset on both sides stays unset |
| SettingsMerge.EmptyObjectKeepsTheOld | OpenHands/openhands/app_server/utils/jsonpatch_compat.py:18-26 | An empty object in the update leaves an object of the base as it was |
| SettingsMerge.MemberIsolation | OpenHands/enterprise/storage/saas_settings_store.py:290-367 | Over any sequence of stores by members, a member's private keys are its own initial ones overlaid by its own stores, in order |
| SettingsMerge.OthersAreInvisible | OpenHands/enterprise/storage/saas_settings_store.py:42-61 | Two histories with the same own stores and own initial row load the same private keys |
| SettingsMerge.LoadShowsOwnPrivateKeys | OpenHands/enterprise/storage/saas_settings_store.py:172-183 | `load` shows a member's own private keys and nothing of the org's |
| SettingsMerge.StoreOnPrivate | OpenHands/enterprise/storage/org_member_store.py:242-285 | One store changes the private keys of its actor only |
| SettingsMerge.PrivateKeyReplacedWhole | OpenHands/openhands/app_server/utils/jsonpatch_compat.py:31-57 | A stored private key loads back whole, so entries removed from it stay removed |
| SettingsMerge.OrgHoldsNoPrivateKey | OpenHands/enterprise/storage/saas_settings_store.py:303-317 | After any store by a member the org settings hold no private key, even if legacy rows did |
| SettingsMerge.PrivateKeysAre | OpenHands/enterprise/storage/saas_settings_store.py:42-61 | Exactly `mcp_config` and `acp_env` are private |
| SettingsMerge.KeyHidesNothingElse | OpenHands/enterprise/storage/saas_settings_store.py:119-202 | Putting in the effective key changes no path but `llm.api_key` |
| SettingsMerge.ActorLoadsKey | OpenHands/enterprise/storage/saas_settings_store.py:119-126 | What the actor of a store loads at `llm.api_key`: an unmanaged key it stored, whatever the org's is; else the org's if there is one, else the managed key it stored, else its earlier key |
| SettingsMerge.OtherLoadsKey | OpenHands/enterprise/storage/saas_settings_store.py:342-381 | What any other member loads: an unmanaged key is broadcast, and shown to a member with a custom key always, to one without unless the org has a key |
| SettingsMerge.KeyShown | OpenHands/enterprise/storage/saas_settings_store.py:119-202 | The key any load shows, from the member's row and the org's key |
| SettingsMerge.DeepMerge | OpenHands/openhands/app_server/utils/jsonpatch_compat.py:10-28 | The recursive loop computes the merge function, in whatever order the items come |
| SettingsMerge.SettingsStore.DeepMergeWithWholesaleKeys | OpenHands/openhands/app_server/utils/jsonpatch_compat.py:31-57 | The merge with private keys replaced as a whole |
| SettingsMerge.SettingsStore.UpdateAllMembers | OpenHands/enterprise/storage/org_member_store.py:242-285 | The loop updates every member as specified, in whatever order |
| SettingsMerge.SettingsStore.Store | OpenHands/enterprise/storage/saas_settings_store.py:215-381 | Org settings, broadcast, then the actor's private keys and key flags; no effect for a non-member |
| SettingsMerge.SettingsStore.LoadFor | OpenHands/enterprise/storage/saas_settings_store.py:132-213 | The loaded view, the missing member and the type error; the key it puts in is that of `KeyShown` |
| WebhookFairness.ReachedIffNoMalformedAhead | OpenHands/enterprise/sync/install_gitlab_webhooks.py:164-211 | The exact condition: given that stamping a well-formed row succeeds, a waiting row is reached in every schedule that adds up to the pending rows if and only if no row that may be served before it is malformed |
| WebhookFairness.EveryWaitingRowIsReached | OpenHands/enterprise/sync/install_gitlab_webhooks.py:164-211 | Starvation freedom: with no malformed row ahead a waiting row is reached once the runs add up to the n pending rows, whatever others insert, reset or delete |
| WebhookFairness.CanBeMissed | OpenHands/enterprise/sync/install_gitlab_webhooks.py:164-211 | With one ahead, ties included, any number of runs can miss it |
| WebhookFairness.PromisedAtLeastOnePerRun | OpenHands/enterprise/sync/install_gitlab_webhooks.py:164-211 | A run counts 100 rows when complete and at least 1 when aborted: ceil(n/100) complete runs or n runs of any kind suffice |
| WebhookFairness.PassedOverIsBounded | OpenHands/enterprise/storage/gitlab_webhook_store.py:188-197 | While a row is passed over, everything served was ahead of it, ties included |
| WebhookFairness.RunThatMissesServesOlder | OpenHands/enterprise/storage/gitlab_webhook_store.py:174-197 | A run that misses a row removes that many rows from those ahead of it |
| WebhookFairness.AheadShrinks | OpenHands/enterprise/storage/gitlab_webhook_store.py:159-172 | New, reset and processed rows never come before a waiting one |
| WebhookFairness.PoisonStarvesTheRest | OpenHands/enterprise/storage/gitlab_webhook_store.py:16-30 | A malformed row keeps every younger row from ever being reached, in every schedule that leaves the malformed row alone, whatever happens to the younger one |
| WebhookFairness.MalformedRowBlocks | OpenHands/enterprise/storage/gitlab_webhook_store.py:32-76 | Two calls of `store_webhooks` reach such a state from the empty table, the first with an entry that has both ids |
| WebhookFairness.GitlabWebhookStore.FilterRows | OpenHands/enterprise/storage/gitlab_webhook_store.py:174-197 | The batch: pending rows only, ascending with nulls last, none older left out, at most the limit |
| WebhookFairness.GitlabWebhookStore.StoreWebhooks | OpenHands/enterprise/storage/gitlab_webhook_store.py:32-76 | Either nothing is stored, and then some entry with both ids clashes in one of them, or every id of every entry is in the table; rows before are kept, new ones are stored as given and stamped now, ids stay unique: a step that others may take |
| WebhookFairness.GitlabWebhookStore.InsertBatch | OpenHands/enterprise/storage/gitlab_webhook_store.py:56-76 | One insert of the two: a known id is skipped for its own conflict index and raises for the other |
| WebhookFairness.GitlabWebhookStore.ResetForReinstallation | OpenHands/enterprise/storage/gitlab_webhook_store.py:289-341 | The row is pending again at the back of the queue, nothing else changes: a step that others may take |
| WebhookFairness.GitlabWebhookStore.InstallWebhooks | OpenHands/enterprise/sync/install_gitlab_webhooks.py:116-211 | The loop is a legal run over at most 100 rows: the batch in order, each row visited, up to the end or the first exception that is not absorbed; a row installed, found installed or deleted at its turn is not pending at the end unless others set it back afterwards |
| WebhookFairness.GitlabWebhookStore.ProcessRow | OpenHands/enterprise/sync/install_gitlab_webhooks.py:164-211 | One turn with its `finally`, in full: the row after each outcome, stamped or not, every other row as it was, and when the exception goes on |
| ProactiveTrigger.ReturnsExactlyAtFirstTrigger | OpenHands/enterprise/storage/proactive_conversation_store.py:25-128 | Over any interleaving of events, a call returns a group iff it is the first at which the initial snapshot overlaid by the key's events has no pending and some failed run, and returns that overlay |
| ProactiveTrigger.ReturnsAtMostOnce | OpenHands/enterprise/storage/proactive_conversation_store.py:53-128 | Per repository, PR and commit at most one call returns a group |
| ProactiveTrigger.FrozenAfterTrigger | OpenHands/enterprise/storage/proactive_conversation_store.py:70-77 | From then on, without clean-ups, the row is the triggering overlay with the time of the first event, and never changes |
| ProactiveTrigger.RowsOk | OpenHands/enterprise/storage/proactive_conversation_store.py:53-128 | The row of a key is absent, tracks the overlay, or is frozen at the trigger |
| ProactiveTrigger.ProactiveConversationStore.StoreWorkflowInformation | OpenHands/enterprise/storage/proactive_conversation_store.py:25-128 | One call: an answered row is left alone; else the run is entered into the stored or fetched ones, and they are answered and the row marked iff none is pending and one has failed; every other row unchanged |
| ProactiveTrigger.ProactiveConversationStore.CleanOldConvos | OpenHands/enterprise/storage/proactive_conversation_store.py:130-154 | Keeps exactly the rows created no earlier than the given number of minutes ago, as they are |
| ProactiveTrigger.FrozenUntilSwept | OpenHands/enterprise/storage/proactive_conversation_store.py:130-154 | Through any events and clean-ups an answered row stays as it is if and only if no clean-up has a cutoff later than its creation; later events do not make it younger |
| ProactiveTrigger.AnsweredIff | OpenHands/enterprise/storage/proactive_conversation_store.py:53-154 | Over any run of events and clean-ups a call is answered if and only if its event is the first trigger of the life of its row, from the event that inserted it on, and then with the overlay of that life |
| ProactiveTrigger.SecondGroupNeedsSweep | OpenHands/enterprise/storage/proactive_conversation_store.py:53-154 | A key is answered a second time only after a clean-up took its row |
| ProactiveTrigger.CanAnswerIff | OpenHands/enterprise/storage/proactive_conversation_store.py:53-128 | With first events that read before they insert: once there is a row the key can be answered, or answered again, if and only if a call that found no row is still under way or some row is not answered |
| ProactiveTrigger.AnswerIsLastIff | OpenHands/enterprise/storage/proactive_conversation_store.py:53-128 | So an answer is the last one if and only if no other such call is under way and the rows inserted beside it are answered |
| ProactiveTrigger.BothFirstAnswered | OpenHands/enterprise/storage/proactive_conversation_store.py:56-128 | Two first events whose snapshots trigger are both answered if neither sees the row of the other |
| ResendSync.AtMostOncePerAddress | OpenHands/enterprise/sync/resend_keycloak.py:460-537 | Over any sequence of runs with crashes between any two steps: at most one contact and one welcome per address, welcomes only for contacts, contacts only for unmarked addresses |
| ResendSync.InvRun | OpenHands/enterprise/storage/resend_synced_user_store.py:53-125 | The invariant behind it, over every run |
| ResendSync.AddableIffUnmarked | OpenHands/enterprise/sync/resend_keycloak.py:373-537 | Between runs an address can still become a contact if and only if it is not marked |
| ResendSync.CrashStrands | OpenHands/enterprise/sync/resend_keycloak.py:491-520 | The run that loses an address: stopped between the mark and the contact, it can be added before and never after |
| ResendSync.MarkedIsNeverAdded | OpenHands/enterprise/sync/resend_keycloak.py:373-537 | An address marked without a contact when a run ended is never added by any later run |
| ResendSync.Script.SyncUsersToResend | OpenHands/enterprise/sync/resend_keycloak.py:395-548 | A crash-free run counts every fetched user exactly once; the contacts it adds are, in order, fetched users with a valid address whose calls got through, and every such user is marked; marks are the starting, backfilled and added ones, the latter all new; and welcomed are, in order, exactly those added whose message got through |
| ResendSync.Script.BackfillContacts | OpenHands/enterprise/sync/resend_keycloak.py:344-392 | Marks exactly the unmarked contacts among those before the swallowed failure, if there is one |
| ResendSync.Script.SyncUser | OpenHands/enterprise/sync/resend_keycloak.py:476-537 | One user moves exactly one counter: already synced, invalid, error with the mark removed, or added, and then it is welcomed iff the message gets through |
| ResendSync.Script.SyncPages | OpenHands/enterprise/sync/resend_keycloak.py:465-537 | The two loops together do this for what the directory pages contain |
| ResendSync.Script.SyncPage | OpenHands/enterprise/sync/resend_keycloak.py:476-537 | The inner loop takes a run on by one page |
| ResendSync.WelcomedAllOrNone | OpenHands/enterprise/sync/resend_keycloak.py:526-532 | If every message gets through, those welcomed are those added; if none does, nobody is |
| ResendSync.WelcomedIff | OpenHands/enterprise/sync/resend_keycloak.py:526-532 | An address is welcomed iff a message to it got through |
| ResendSync.EverybodyIsFetched | OpenHands/enterprise/sync/resend_keycloak.py:116-163 | Where the reported total covers the directory the pages fetched are all its users with an address, in order |
| ResendSync.WithAddressIs | OpenHands/enterprise/sync/resend_keycloak.py:116-163 | Only users without an address are left out |
| DeviceFlow.IntervalCountsSlowDowns | OpenHands/enterprise/storage/device_code.py:94-131 | After k more slow-downs the interval is the capped one for as many slow-downs as it stood for before and k |
| DeviceFlow.IntervalAfterSlowDowns | OpenHands/enterprise/storage/device_code.py:94-131 | In numbers, for a code that starts at 5 s |
| DeviceFlow.AcceptedKeepsTheInterval | OpenHands/enterprise/storage/device_code.py:94-119 | An accepted poll comes at least the interval then in force after every earlier poll, refused ones included |
| DeviceFlow.WindowAccepts | OpenHands/enterprise/server/routes/oauth_device.py:125-167 | Any window of T seconds accepts at most T/5+1 polls of one code |
| DeviceFlow.DecidedStaysDecided | OpenHands/enterprise/storage/device_code_store.py:91-168 | With calls one after the other, no sequence of store operations changes the status or the user of an authorised or denied code |
| DeviceFlow.DecisionIsFinalIff | OpenHands/enterprise/storage/device_code_store.py:91-142 | With calls interleaving between check and commit, a decision is final if and only if no call that saw the code pending is still to write something else |
| DeviceFlow.AuthorizedIsChecked | OpenHands/enterprise/storage/device_code_store.py:91-116 | However calls interleave, the user a code ends up authorised for has a call that saw status PENDING at a time no later than the expiry |
| DeviceFlow.BothSucceed | OpenHands/enterprise/storage/device_code_store.py:91-116 | Two users' authorisations of one code can both succeed, the second overwriting the first |
| DeviceFlow.Undisturbed | OpenHands/enterprise/storage/device_code_store.py:91-168 | A check and its write with nothing between them, and a recorded poll, are the operations of the store |
| DeviceFlow.AuthorizedOnceInTime | OpenHands/enterprise/storage/device_code_store.py:91-116 | A pending code that ends authorised was authorised by one call, which found status PENDING at a time no later than the expiry, and carries that call's user; otherwise the user is untouched |
| DeviceFlow.UserCodesStayUnique | OpenHands/enterprise/storage/device_code_store.py:29-73 | User codes stay unique over every sequence of operations |
| DeviceFlow.DeviceCode.CheckRateLimit | OpenHands/enterprise/storage/device_code.py:90-119 | Too fast iff the last poll is less than the interval ago, and the interval announced |
| DeviceFlow.DeviceCode.UpdatePollTime | OpenHands/enterprise/storage/device_code.py:121-131 | The new poll time and interval, everything else unchanged |
| DeviceFlow.DeviceCodeStore.CreateDeviceCode | OpenHands/enterprise/storage/device_code_store.py:29-73 | Fails iff every generated pair collides and then changes nothing; else inserts one pending row under an unused pair |
| DeviceFlow.DeviceCodeStore.AuthorizeDeviceCode | OpenHands/enterprise/storage/device_code_store.py:91-116 | Succeeds iff some row has the user code, status PENDING and an expiry not yet passed, and authorises just that row; after the expiry nothing changes |
| DeviceFlow.DeviceCodeStore.DenyDeviceCode | OpenHands/enterprise/storage/device_code_store.py:118-142 | Succeeds on the same condition, and denies just that row |
| DeviceFlow.DeviceCodeStore.PollToken | OpenHands/enterprise/server/routes/oauth_device.py:125-167 | Check, then record, on the one row |
| Paging.PagesAreTheWholeList | OpenHands/enterprise/storage/org_store.py:196-253 | From no page id, with any limit of at least one, following `next_page_id` ends, and the pages joined are the user's whole name-ordered list, each organisation once and validated, in the table as well |
| Paging.PagesAreFewest | OpenHands/enterprise/storage/org_store.py:228-240 | In the fewest pages of that size |
| Paging.WalkIsWalkFrom | OpenHands/enterprise/storage/org_store.py:219-240 | Writing the offset in decimal and reading it back loses nothing: the walk is the one on plain offsets |
| Paging.ParsePrint | OpenHands/enterprise/storage/org_store.py:219-240 | `int(str(n)) == n` for every non-negative offset |
| Paging.ParseIntIff | OpenHands/enterprise/storage/org_store.py:219-227 | A text is an integer iff it is accepted digits with at most one sign before them and blanks around both |
| Paging.ParseWritten | OpenHands/enterprise/storage/org_store.py:219-227 | And then it is the number of the digits, negated for a minus |
| Paging.ParseDigitsIff | OpenHands/enterprise/storage/org_store.py:219-227 | Digits are accepted iff there are any and every underscore stands between two of them |
| Paging.UnderscoreCountsNothing | OpenHands/enterprise/storage/org_store.py:219-227 | An underscore between digits does not change the number |
| Paging.WalkCoversTheRest | OpenHands/enterprise/storage/org_store.py:219-253 | From any offset the pages are the remaining rows, validated |
| Paging.WalkFromAnyPageId | OpenHands/enterprise/storage/org_store.py:219-240 | What a client sees that starts from any text as page id: the rest of the list from an integer up to its length, nothing from a larger one, the whole list from a text that is no integer; only a negative integer is refused |
| Paging.OrgStore.GetUserOrgsPaginated | OpenHands/enterprise/storage/org_store.py:196-253 | One page by its id: its rows, its next id, and the upgraded rows of the table |
| Paging.OrgStore.FetchPage | OpenHands/enterprise/storage/org_store.py:228-253 | The page from an offset, found by fetching one row more than the limit |
| Paging.OrgStore.ValidateRows | OpenHands/enterprise/storage/org_store.py:244-251 | The loop upgrades exactly the rows of the page |
| Paging.OrgStore.ValidateOrgVersion | OpenHands/enterprise/storage/org_store.py:169-186 | An outdated row gets the current version, default model and default base URL in place and keeps its name; a current one is left alone |
| Paging.OrgMemberStore.GetOrgMembersPaginated | OpenHands/enterprise/storage/org_member_store.py:197-240 | The window of the filtered members, and whether more follow |
| Paging.MemberPagesCover | OpenHands/enterprise/storage/org_member_store.py:218-240 | Moving on by the limit while there is more yields every filtered member, once, in order |
| Paging.MatchingIsTheFilter | OpenHands/enterprise/storage/org_member_store.py:218-231 | The filter keeps exactly the matching members, all of them when it is empty |
| Paging.MatchingInOrder | OpenHands/enterprise/storage/org_member_store.py:218-231 | In their order |
| Paging.FinancialViewStopsAtOnePage | OpenHands/enterprise/server/services/org_member_financial_service.py:52-171 | The financial view never offers a second page, so a client sees every member iff one page holds them all |
| SkillName.NormalizeJoinsTheWords | software-agent-sdk/scripts/convert_legacy_skills.py:38-49 | The chain of replacements yields the alphanumeric runs of the lower-cased name joined by single hyphens, for every input |
| SkillName.WordsSplit | software-agent-sdk/scripts/convert_legacy_skills.py:44-47 | Those runs end at a hyphen or an underscore |
| SkillName.WordsIgnore | software-agent-sdk/scripts/convert_legacy_skills.py:44-47 | And ignore every other character that is no letter or digit |
| SkillName.NormalizeIsEmptyOrInGrammar | software-agent-sdk/scripts/convert_legacy_skills.py:35-49 | The result is in `[a-z0-9]+(-[a-z0-9]+)*`, or empty, and empty iff nothing alphanumeric is left |
| SkillName.NormalizeFixesGrammar | software-agent-sdk/scripts/convert_legacy_skills.py:38-49 | Every name in the grammar is its own normal form |
| SkillName.NormalizeTwice | software-agent-sdk/scripts/convert_legacy_skills.py:38-49 | Normalising is idempotent |
| SkillName.WordsOfJoin | software-agent-sdk/scripts/convert_legacy_skills.py:35 | Splitting a name of the grammar gives back its words: the grammar is unambiguous |
| SkillName.PatternAccepts | software-agent-sdk/scripts/convert_legacy_skills.py:35 | The compiled pattern accepts the grammar and, because of `$`, the same names with one newline appended, nothing else |
| SkillName.PassesValidation | software-agent-sdk/scripts/convert_legacy_skills.py:52-65 | No errors iff at most 64 characters and accepted by the pattern |
| SkillName.NewlinePasses | software-agent-sdk/scripts/convert_legacy_skills.py:52-65 | A name that passes and is outside the grammar |
| SkillName.NormalizedNameErrors | software-agent-sdk/scripts/convert_legacy_skills.py:38-65 | A normalised name can only be empty or too long |
| SkillName.ValidateSkillName | software-agent-sdk/scripts/convert_legacy_skills.py:52-65 | The error list, in order, an empty name stopping at its first error: too long iff beyond 64 characters, and the pattern error iff the name, less a final newline, is outside the grammar |

## Left out

- HTTP, SQLAlchemy, Redis, Keycloak, LiteLLM and Resend clients: maps with success or failure outcomes; a call fails without effect unless the model says otherwise, and API retries count as one outcome.
- Encryption and secret masking: identity.  Settings loaders and schema migrations: identity on current data.  Logging, FastAPI wiring, e-mail syntax, `ILIKE` matching and lower-casing: parameters or absent.
- TokenRefresh: `store_tokens` is one write of all four columns that waits for the row lock; the callback's network time and the statement time-out are free.
- CreationLock.UserStore.GetUserById: stops after a given number of failed lock attempts, where the source sleeps and tries on for ever.
- CreationLock: the 30 s bound is an assumption on the clock, and one user is modelled.
- CreditLedger: deployments without LiteLLM, users with local or direct model keys, key generation and checking after the migration (`verify_key`), and `create_entries` are not modelled.
- OrgLifecycle.Platform.CreateUser: stands for `create_user` and `migrate_user`; their LiteLLM part is a flag, and the rows and conversations that `migrate_user` re-homes are parameters.
- OrgLifecycle: `remove_user_from_org` is excluded, since it does not look at `current_org_id`; calls are atomic with respect to each other; `jira_dc_workspaces` is nulled and invitations and git claims cascade as their foreign keys say.
- SettingsMerge.SettingsStore.Store: leaves out the branch that migrates a user on the fly, and the generation of a managed key.
- SettingsMerge: an API key that is the empty string counts as absent; a null `llm.api_key` does as well.
- SettingsMerge: paths at private keys are covered by isolation and by wholesale replacement, the secret `llm.api_key` by `ActorLoadsKey` and `OtherLoadsKey`.
- WebhookFairness.ReachedIffNoMalformedAhead: promises nothing where stamping a well-formed row fails.
- WebhookFairness: how a row's conditions are verified is an outcome; rows whose `last_synced` is null sort last and are not promised anything.
- ProactiveTrigger: except in the race of first events, each call is one transaction; that race is of one key and without clean-ups.
- ResendSync: one audience; the directory is one sequence read by offset, and does not change during a run.
- DeviceFlow.DecidedStaysDecided: takes each store call as one step, as `AuthorizedOnceInTime` does; the interleaving of unlocked reads and commits is the subject of `DecisionIsFinalIff`.
- DeviceFlow.AuthorizedOnceInTime: takes each store call as one step.
- DeviceFlow: the route checks a poll and records it before the next poll of that code is checked; the API-key half of the token route is absent.
- Paging: the rows of a query are fixed between pages but for the upgrades, negative offsets are refused as Postgres does, and integers in other than ASCII digits, or longer than the interpreter or the database accepts, are not modelled.
- SkillName.NormalizeFixesGrammar: assumes of lower-casing that it leaves names of the grammar alone, which is all idempotence needs; the case mapping itself is not modelled.
- The GitHub issue scripts, maintenance tasks, CRUD stores, report rendering and everything in the frontend would add only easy members.
