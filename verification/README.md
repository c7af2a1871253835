# DebridPulse: a verified model of its state machines

A Dafny model of the parts of DebridPulse where a mistake would lose an account, a database, an event or an
operator's choice, with proofs about every run and every interleaving of them. `dafny verify dfyconfig.toml` checks
all of it.

| file | what it models |
|---|---|
| `Support.dfy` | options, distinct sequences, Python's `strip` and substring tests |
| `AccountModel.dfy` | accounts, credentials, bindings, tokens, demand and sessions, and what every account operation makes of them |
| `MergeForest.dfy` | merge redirections as a forest |
| `AccountLaws.dfy` | the account invariant, operation by operation |
| `AccountRuns.dfy` | what holds over whole runs: the last usable Admin, canonical accounts, withdrawn demand, clients, sessions, quarantine |
| `AccountOutcomes.dfy` | what an operation achieves for good: who signs in with what after it and after every run that follows |
| `AccountAdmission.dfy` | when each account operation is refused, in its caller's terms, and what the ones outside the guard make of the tables |
| `AccountEffects.dfy` | what each operation that is not refused leaves behind, table by table and in full |
| `SettingsTransition.dfy` | which changes of the authentication settings are admitted, and which keep a usable Admin |
| `AccountDirectory.dfy` | the same operations as they run: rows changed in place in a transaction that may roll back |
| `Restore.dfy` | replacing the whole stored state, with every wait completing, failing or cancelled |
| `ActivityPage.dfy` | Recent Activity from bounded per-status slices |
| `SearchMatch.dfy` | the Downloads text search and its shortcut |
| `SourceActions.dfy` | whether the list offers a common source, against the chooser |
| `EventHub.dfy`, `EventRuns.dfy` | the live event hub, and its runs |
| `RouteSwitch.dfy` | the best-effort switch of a transfer's provider |
| `ProfileCatalog.dfy` | replacing the delivery profile catalog |
| `AuthenticationCommit.dfy` | the credential and the settings as one change |
| `Consolidation.dfy` | consolidation summaries and their events |
| `CandidatePublication.dfy` | coalesced candidate publications |
| `OneTimeStore.dfy` | sign-in transactions and login challenges |
| `OidcAdmission.dfy` | when UserInfo is asked for, how its claims join, and who is admitted |

Each component that the source runs step by step is a class whose methods change its fields in place and loop where the
source loops; each method is held to a function of the old state, and the properties are proved of that function. A
database transaction is one atomic step; identifiers, digests and fingerprints are taken as injective. What a component
takes from code it calls (a slice the database answers, a case fold, the fate of a wait) is a parameter, constrained only
by what the calling code relies on.

## What the proofs say

* **Accounts.** From a fresh installation, through any mix of the nineteen operations: a usable Admin, once there is
  one, is always there, also through the operations nothing guards and under settings committed with a credential; the
  redirections stay a forest, so the cycle guard never decides; only a merge changes whom an identity means, and only for
  those that meant a source; disabling or removing withdraws exactly the demand that means the account; a client is one
  account for ever; a live session always carries its active account's role and generation; and an identity whose account
  was removed signs nobody in until exactly one of two acts of an Admin. A removal, a merge and a revocation are for
  ever, and a password that was set stands through every run that does not concern its account. Each operation is refused
  exactly for the reasons its caller can see; for the last Admin only if somebody can administer now and, of all who can,
  nobody would be left; and what is not refused changes exactly the rows it names.
* **Settings.** Beside any of those operations, changing the settings through the authentication endpoint, or by a proven
  configuration, always leaves a usable Admin; through the settings document it does so exactly outside one described
  family of changes.
* **Restore.** How a restore ends is an if-and-only-if over the fates of all its waits; nothing serves a state that is not
  whole, at any moment of any history, except in one exactly described situation.
* **Reads.** The page built from slices is the page of the whole table; the search shortcut is the plain search for every
  text exactly when it is for a few named ones; the list's query means what the chooser's rule means.
* **Protocols.** What is published, evicted, retired or consumed is what happened, at every interruption; every gated
  event sent was queued for that connection and permitted both times; and a switch that reports itself unchanged
  committed nothing.

## Where the code differs from what it promises

* `restore_backup` (backend/application/lifetime.py:294-299): when the restored application fails to start, or its start is
  cancelled, the code first waits to enter database maintenance. A cancellation, or a refusal, of that wait leaves the
  restored but uncommitted files in place, unsealed, with the replaced application admitted again. `Restore.Exposes` is
  the exact condition; `Restore.OneCancellationExposes` needs one cancellation. A cancellation while the final journal
  entry is written (line 342) reports an interruption of a restore that has succeeded.
* `stop_integrations` (backend/application/service.py:1260-1283) cancels a startup still in flight, and a refused restore
  starts again only what was stopped: an integration that was still starting and that the stop did not reach stays idle
  (`Restore.LeftIdle`, `Restore.StartupLost`).
* `_downloads_search_match` (backend/api/operational_downloads.py:281-294): the shortcut assumes that no file name and no
  root name is blank space. Otherwise the placeholder or the shown count of files may not be found
  (`SearchMatch.BlankNameLost`). It also assumes that a safe host can match only where its raw value does. That is so where
  the engine's fold agrees with Python's lower case, but not with the ASCII fold used without FTS5
  (backend/core/search_contract.py:137-144): a host written with the Kelvin sign is shown with a "k" that no search finds
  (`SearchMatch.KelvinLost`). `SearchMatch.FastIsDirect` is the exact condition.
* The list is documented as never more permissive than the chooser (backend/api/operational_downloads.py:1668-1669). It
  holds of the hosts the chooser can converge to, but a host every unfinished file is already selected on is offered when
  one of them has a second candidate there, and the chooser shows no movement (`SourceActions.OfferedButActive`,
  `SourceActions.ListOffersActiveHost`).
* `update_authentication_config` (backend/api/auth_config_routes.py:521-550) promises that a failure changed nothing. It
  compensates after errors only: a cancellation that takes the transaction away after the settings were written leaves new
  settings beside the old credential (`AuthenticationCommit.CancelledCommitSplits`). And a commit that raises after it took
  effect leaves the new credential beside the old settings, because the compensation succeeds
  (`AuthenticationCommit.FailedCommitSplits`). `AuthenticationCommit.SplitsExactly` is the exact condition.
* An authentication value changed through the settings document is said to meet exactly what the authentication endpoint
  requires (backend/api/routes.py:555-560). It does not: the guard both share accepts OIDC's local readiness in place of a
  password (backend/auth/transitions.py:229-240), and the requirement of a stored password
  (backend/api/auth_config_routes.py:483-489) is the endpoint's alone. A document that has passwords and OIDC on, while no
  Admin holds a password and none is bound under that issuer, leaves no Admin who could sign in
  (`SettingsTransition.ChangeUsable` is exact, `SettingsTransition.DocumentStrands` a fresh installation).
* `switch_transfer_provider` (backend/application/manual_route_switch.py:131-150) promises `unchanged` only when nothing
  durable changed, a refused file as it was, and unavailable storage raised as it is. A storage fault inside a command is
  turned into a refusal (backend/application/service.py:255-267), also after that command's own commit: with one root the
  report is `unchanged` although its route was replaced, and with more the switch goes on
  (`RouteSwitch.UnchangedAlthoughReplaced`, `RouteSwitch.FaultGoesOn`). A refusal may also come after writers were detached
  (backend/transfers/manual_route_switch.py:879-893). What is raised may likewise hide the raising command's own commit.
  `RouteSwitch.UnchangedExactly`, `RouteSwitch.RaisedExactly`, `RouteSwitch.FileHonest` and the contract of
  `RouteSwitch.Operation.SwitchTransferProvider` say exactly when each report is true.
* `_merge_userinfo_claims` (backend/auth/oidc.py:509-526): the comment promises that UserInfo's verification is never
  attached to the ID token's address. Without an email restriction it may be (`OidcAdmission.PairIsWhole`,
  `OidcAdmission.UnrestrictedPairTears`).
* A username of more than 256 characters is refused everywhere but in `import_legacy_credential`
  (backend/auth/accounts.py:704-740), so its length is no invariant.

## Model

| member | source | states |
|---|---|---|
| MergeForest.GuardSilent | backend/auth/accounts.py:278-293 | Whatever a walk along redirections has passed before, it ends at the same unmerged identity: the cycle guard never decides |
| MergeForest.CanonicalUnmerged | backend/auth/accounts.py:801-814 | An identity's canonical account is not merged, and is shared with the identity it redirects to |
| MergeForest.MergeRedirects | backend/auth/accounts.py:895-904 | A merge redirects exactly the identities whose canonical account was a source, and all of them to the target |
| MergeForest.RedirectedForest | backend/auth/accounts.py:861-904 | Redirecting live accounts to another live one keeps the redirections acyclic |
| MergeForest.OwnedPartition | backend/auth/accounts.py:787-814 | Every identity is owned by exactly one unmerged account, its canonical one; a merged account owns only itself |
| AccountLaws.StepGood | backend/auth/accounts.py:434-462 | Every operation keeps the default identities, the tombstones, the ownership of credentials, bindings and tokens and the freshness of sessions, and rewrites no history |
| AccountLaws.MergeKeeps | backend/auth/accounts.py:879-904 | A merge of several sources keeps every table's ownership rule, token clients included, and redirects the sources alone |
| AccountLaws.CreateTokenKeeps | backend/auth/accounts.py:1122-1136 | A rotation keeps one client with one account, verifiers unique, and every stored token's client |
| AccountLaws.RevokedFresh | backend/auth/accounts.py:405-410 | Moving the generation of the touched accounts and revoking their sessions leaves every remaining live session current |
| AccountLaws.ReboundFresh | backend/auth/accounts.py:413-423 | Re-binding an account's sessions after a change of role leaves every live session current |
| AccountRuns.InstalledInv | backend/auth/accounts.py:205-216 | A fresh installation meets the invariant of every run |
| AccountRuns.RunKeeps | backend/auth/accounts.py:19-24 | Over every run the invariant holds, and tombstones, redirections, bindings, clients, withdrawals and generations are never undone |
| AccountRuns.GuardedRow | backend/auth/accounts.py:434-471 | A guarded operation changes the standing of exactly the accounts it names and moves exactly the touched generations, or nothing |
| AccountRuns.UnguardedRow | backend/auth/accounts.py:605-631 | Sign-in, binding, recovery and tokens change no account's role, enablement or redirection |
| AccountRuns.StepUsable | backend/auth/accounts.py:434-462 | Where a usable Admin exists one exists after every operation, under the settings then in force |
| AccountRuns.RunUsable | backend/auth/accounts.py:321-332 | Over every run a usable Admin stays, and the default Admin stays live, enabled and an Admin |
| AccountRuns.StepCanonical | backend/auth/accounts.py:278-293 | Only a completed merge changes whom an identity means, and only for identities that meant a source |
| AccountRuns.StepWithdraws | backend/auth/accounts.py:787-798 | Outstanding demand is withdrawn exactly by disabling or removing its canonical account |
| AccountRuns.RetiringReply | backend/auth/accounts.py:824-838 | The transfers a disable or removal returns are exactly those whose demand it withdrew |
| AccountRuns.NewTokenClient | backend/auth/accounts.py:1106-1121 | A token without a predecessor is a client no token had; a rotated one continues its predecessor's client, which the account owns, and the predecessor is revoked |
| AccountRuns.RunClients | backend/auth/accounts.py:1126-1136 | After any run two tokens of one client belong to one canonical account, and no token changes its client |
| AccountRuns.StepSessions | backend/auth/accounts.py:465-471 | A live session ends exactly when its account's generation moves other than by a change of role, follows a change of role, and is otherwise untouched |
| AccountRuns.StepQuarantine | backend/auth/accounts.py:547-562 | An identity that signs nobody in is let in again exactly by enabling its account or merging it into an active one, and its own attempts sign in nobody |
| AccountRuns.RunQuarantine | backend/auth/accounts.py:841-847 | Through every run without such a release a quarantined identity stays shut out |
| AccountRuns.RemovalQuarantines | backend/auth/accounts.py:848-858 | Removing an account quarantines its identities |
| AccountRuns.OnlyAdminsMakeAdmins | backend/auth/accounts.py:61-64 | Nobody becomes an Admin but by being created as one or by a change of role |
| AccountRuns.ProvisionedOnce | backend/auth/accounts.py:585-590 | The second sign-in of an identity finds the account the first one created and adds none |
| AccountRuns.ReturnsDisabledOnce | backend/auth/accounts.py:591-602 | An identity whose account was removed returns as one new disabled account, never an Admin, and stays with it |
| AccountOutcomes.OneLocalAccount | backend/auth/accounts.py:296-305 | After any run a username and password sign in at most one account, human, and never one removed or merged before the run |
| AccountOutcomes.StepCredential | backend/auth/accounts.py:465-471 | What does not touch an account leaves its credential and its activity as they were |
| AccountOutcomes.CredentialStands | backend/auth/accounts.py:296-305 | Who can sign in with a password can do so after every run that does not concern them |
| AccountOutcomes.PasswordSetStands | backend/auth/accounts.py:502-520 | A password that was set signs in its account, under the trimmed or kept username, after every run that does not concern it |
| AccountOutcomes.RecoverySignsIn | backend/auth/accounts.py:704-740 | After the offline recovery the default Admin signs in with the file's credential, and with passwords enabled a usable Admin exists |
| AccountOutcomes.PredictionHolds | backend/auth/accounts.py:381-400 | What is predicted of a restore point's Admins is what starting it leaves, wherever its credential can be installed |
| AccountOutcomes.RemovedForEver | backend/auth/accounts.py:841-858 | After a removal and every later run nobody signs in, authenticates, holds a session or becomes that account again |
| AccountOutcomes.MergedForEver | backend/auth/accounts.py:861-904 | Whatever meant a merged account means the target after every run, and the merged account is shut out for ever |
| AccountOutcomes.MergedPasswordStands | backend/auth/accounts.py:861-869 | The one password among merged accounts signs in as the target after every run that does not concern it |
| AccountOutcomes.MeanOneForEver | backend/auth/accounts.py:278-293 | Identities that mean one account mean one account after every run |
| AccountOutcomes.RevokedForEver | backend/auth/accounts.py:1160-1167 | A token revoked, or succeeded by a rotation, is accepted after no run, and no other token is touched |
| AccountAdmission.UsableExists | backend/auth/accounts.py:321-346 | A usable Admin exists exactly if no mechanism is on or some enabled, live Admin can sign in by one that is |
| AccountAdmission.CreateLocalRefused | backend/auth/accounts.py:745-758 | A local account is refused exactly for its role, its password, its identifier or its username |
| AccountAdmission.CreateIntegrationRefused | backend/auth/accounts.py:761-769 | An Integration account is refused for nothing but a taken identifier |
| AccountAdmission.ChangeRoleRefused | backend/auth/accounts.py:772-784 | A change of role is refused exactly for one's own or a default account, across the Integration line, or for the last who can administer |
| AccountAdmission.ChangeEnabledRefused | backend/auth/accounts.py:824-838 | Enabling is refused exactly for one's own or a dead account, disabling also for the default Admin or the last who can administer |
| AccountAdmission.RemoveRefused | backend/auth/accounts.py:841-858 | A removal is refused exactly for one's own, a default or a dead account, or the last who can administer |
| AccountAdmission.MergeRefused | backend/auth/accounts.py:861-904 | A merge is refused exactly for its list, an account that may not be folded, two passwords, or for the last who can administer without the target taking over |
| AccountAdmission.SetOwnCredentialRefused | backend/auth/accounts.py:661-694 | An own change of credential is refused exactly for the account, password or username, or if nobody could administer under the settings committed with it though somebody can now |
| AccountAdmission.ResetPasswordRefused | backend/auth/accounts.py:907-920 | A reset is never refused for the last Admin, and exactly for the actor, the password, the account or the username |
| AccountAdmission.ChangeOwnPasswordRefused | backend/auth/accounts.py:1088-1096 | An own password changes only against the verifier just proven |
| AccountAdmission.SetOwnEmailRefused | backend/auth/accounts.py:963-989 | An own address is refused exactly if blank, stale, or over one the account did not enter |
| AccountAdmission.OthersNeverLast | backend/auth/accounts.py:451-462 | A change that concerns nobody who can administer is never refused as the last one's |
| AccountAdmission.OidcSignsInExactly | backend/auth/accounts.py:547-602 | An identity signs in as exactly the active account it is bound to or the one created for it now |
| AccountAdmission.OidcProvisions | backend/auth/accounts.py:571-602 | The account created for an identity, field by field, disabled where the identity's account was removed |
| AccountAdmission.OidcCompletes | backend/auth/accounts.py:605-631 | Returning claims fill an empty address or restate the same one's verification, and change nothing else |
| AccountAdmission.BindsExactly | backend/auth/accounts.py:634-656 | A proven identity signs in as exactly the enabled Admin it is bound to or, unbound, the one who proved it |
| AccountAdmission.ImportExactly | backend/auth/accounts.py:704-740 | The recovery is idle, refused for a missing or taken name, or installs the file's credential and ends the default Admin's sessions |
| AccountAdmission.CreateTokenRefused | backend/auth/accounts.py:1122-1136 | A token is refused exactly for the account, a taken identifier or secret, or a predecessor that is not the account's, merges considered |
| AccountAdmission.AcceptsExactly | backend/auth/accounts.py:1170-1191 | A secret is accepted exactly as an unrevoked token of an enabled, live Integration account |
| AccountEffects.RefusedNothing | backend/auth/accounts.py:434-463 | Whatever is refused leaves the whole state as it was |
| AccountEffects.RoleChanged | backend/auth/accounts.py:772-784 | A change of role rewrites one row; the account's sessions follow it while they last, or end where it is disabled |
| AccountEffects.EnabledChanged | backend/auth/accounts.py:824-838 | Enabling rewrites one row and ends its sessions; disabling also withdraws exactly the demand that means the account |
| AccountEffects.Removed | backend/auth/accounts.py:841-858 | A removal leaves a dead row without credential or usable token, ends its sessions, withdraws its demand, keeps its bindings |
| AccountEffects.Merges | backend/auth/accounts.py:861-904 | A merge redirects each source, moves every binding, ends all their sessions, and leaves tokens and demand recorded as they were |
| AccountEffects.MergesCredential | backend/auth/accounts.py:861-904 | The target holds whichever credential there was among the merged, the sources none, and others what they had |
| AccountEffects.CreatedLocal | backend/auth/accounts.py:745-758 | A local account appears enabled in its role, under its trimmed username with the given password, and nothing else changes |
| AccountEffects.OwnCredentialSet | backend/auth/accounts.py:661-694 | An own change leaves the trimmed or kept username with the new, kept or cleared password, ends the sessions, and commits the settings |
| AccountEffects.PasswordReset | backend/auth/accounts.py:907-920 | A reset installs the given password under the trimmed new or kept username and ends the account's sessions |
| AccountEffects.OwnPasswordChanged | backend/auth/accounts.py:1088-1096 | An own change keeps the username and replaces the verifier that was proven |
| AccountEffects.EmailEntered | backend/auth/accounts.py:963-989 | An own address is stored unverified as the account's own entry, and no session ends |
| AccountEffects.SignsNobodyIn | backend/auth/accounts.py:547-602 | An identity that signs nobody in changes nothing, unless it returns from a removed account |
| AccountEffects.TokenCreated | backend/auth/accounts.py:1106-1145 | A new token is a client of its own, or carries on its predecessor's client and revokes the predecessor |
| AccountEffects.TokenRevoked | backend/auth/accounts.py:1160-1167 | Exactly the one token is revoked |
| SettingsTransition.StepBinding | backend/auth/accounts.py:585-602 | A binding moves only away from an account that is no longer active |
| SettingsTransition.SessionWitness | backend/auth/transitions.py:264-279 | After any run a valid OIDC session of an Admin witnesses an Admin bound under the configured issuer |
| SettingsTransition.NextGood | backend/auth/middleware.py:129-148 | Every operation, sign-in, change of settings and proof keeps the account invariant and the account each OIDC session was opened for |
| SettingsTransition.TurnedAwayExactly | backend/auth/transitions.py:179-293 | Each reason a change of settings is turned away for, and no other |
| SettingsTransition.ChangedExactly | backend/api/auth_config_routes.py:551-558 | An admitted change ends exactly the sessions of a mechanism it switches or reconfigures, and touches no account |
| SettingsTransition.ProvenExactly | backend/auth/pending_oidc.py:189-202 | A proven configuration is committed exactly for an Admin, with the binding, and ends every OIDC session |
| SettingsTransition.ChangeUsable | backend/auth/transitions.py:179-293 | An admitted change of settings keeps a usable Admin exactly outside the one described family of settings documents |
| SettingsTransition.ProofUsable | backend/auth/pending_oidc.py:149-202 | Committing a proven configuration always leaves a usable Admin |
| SettingsTransition.ActsUsable | backend/auth/transitions.py:33-36 | Over every mix of account operations, sign-ins, changes and proofs there is a usable Admin at every moment exactly if no document strands |
| SettingsTransition.DedicatedUsable | backend/api/auth_config_routes.py:461-567 | As long as settings change through the authentication endpoint a usable Admin stays, over every run |
| SettingsTransition.DocumentStrands | backend/api/routes.py:635-692 | A fresh open installation that one settings document leaves without an Admin who could sign in |
| AccountDirectory.Directory.CanonicalAccountId | backend/auth/accounts.py:284-293 | The guarded walk returns the canonical account |
| AccountDirectory.Directory.OwnedAccountIds | backend/auth/accounts.py:804-814 | The account first, then every identity that means it, each once |
| AccountDirectory.Directory.ResolveToken | backend/auth/accounts.py:1170-1191 | A secret is accepted exactly when an unrevoked token of an active Integration account has its verifier, and then as that token's account and client |
| AccountDirectory.Directory.TouchRows | backend/auth/accounts.py:405-410 | Moves the generation of each listed account once |
| AccountDirectory.Directory.Finish | backend/auth/accounts.py:451-462 | Rolls back to the state before when no usable Admin would remain under the next settings, else commits, moves generations and ends sessions |
| AccountDirectory.Directory.SetRole | backend/auth/accounts.py:772-784 | A change of role, or a refusal that changes nothing |
| AccountDirectory.Directory.WithdrawOwnedDemand | backend/auth/accounts.py:787-798 | Withdrawing owner by owner withdraws the outstanding demand of all owners at once and returns its transfers |
| AccountDirectory.Directory.SetEnabled | backend/auth/accounts.py:824-838 | Enabling or disabling, with exactly the withdrawn transfers as reply |
| AccountDirectory.Directory.DeleteAccount | backend/auth/accounts.py:841-858 | Removal table by table is the one-step removal, or a rollback of all of it |
| AccountDirectory.Directory.CheckFold | backend/auth/accounts.py:880-893 | Accepts exactly when every source may be folded and at most one of all the accounts holds a credential |
| AccountDirectory.Directory.FoldAll | backend/auth/accounts.py:895-904 | Folding source by source is folding all sources at once |
| AccountDirectory.Directory.MergeAccounts | backend/auth/accounts.py:861-904 | A merge of a list with repetitions is the merge of its set, atomically, or changes nothing |
| AccountDirectory.Directory.CreateLocalAccount | backend/auth/accounts.py:745-758 | Account and credential together, or neither |
| AccountDirectory.Directory.CreateIntegrationAccount | backend/auth/accounts.py:761-769 | An Integration account without credential or token |
| AccountDirectory.Directory.SignInOidc | backend/auth/accounts.py:547-602 | Resolution, first provisioning, and the disabled return of a removed identity |
| AccountDirectory.Directory.BindVerifiedOidc | backend/auth/accounts.py:634-656 | Links an unbound identity to the Admin who proved it; a bound one keeps its active Admin or is refused |
| AccountDirectory.Directory.WritePasswordRow | backend/auth/accounts.py:502-520 | One credential row under a name nobody else has, or a refusal |
| AccountDirectory.Directory.SetOwnLocalCredential | backend/auth/accounts.py:661-694 | Setting, clearing or releasing one's own credential with the settings committed beside it |
| AccountDirectory.Directory.ResetAccountPassword | backend/auth/accounts.py:907-920 | An Admin's reset of another human account's credential |
| AccountDirectory.Directory.ChangeProvenPassword | backend/auth/accounts.py:1088-1096 | A change that needs the stored verifier to be the one just proven |
| AccountDirectory.Directory.ImportLegacyCredential | backend/auth/accounts.py:704-740 | The recovery credential installed once, idempotently, or refused for a name that is missing or taken |
| AccountDirectory.Directory.EnterOwnEmail | backend/auth/accounts.py:963-989 | A self-entered address, unverified, only over none or an own one, and only if it is still the one shown |
| AccountDirectory.Directory.IssueToken | backend/auth/accounts.py:1122-1136 | A new or rotated token, the predecessor checked against the owned accounts |
| AccountDirectory.Directory.RevokeOneToken | backend/auth/accounts.py:1160-1167 | Revokes one unrevoked token of the account |
| Restore.Host.StopIntegrations | backend/application/service.py:1260-1283 | Ends a startup in flight, then stops in reverse order up to the first that does not stop, and names exactly those stopped |
| Restore.Host.StartIntegrations | backend/application/service.py:1203-1227 | Starts exactly the given integrations, each on its own: running where its start completes and degraded where it does not |
| Restore.Host.Quiesce | backend/application/lifetime.py:229-248 | Reads the pause intent and the scheduler before changing either, and refuses exactly on a failed drain or stop |
| Restore.Host.ToCompletion | backend/application/lifetime.py:176-189 | A swap step runs to its end through any number of cancellations, and its failure wins over them |
| Restore.Host.Swap | backend/application/lifetime.py:249-284 | The swap is made, refused with the previous state whole, or ends sealed; a safety backup holds the recorded intent |
| Restore.Host.Launch | backend/application/lifetime.py:285-326 | The restored state is committed and installed, or reverted, or sealed, or left exposed exactly when the maintenance to seal or revert under cannot be entered |
| Restore.Host.Resume | backend/application/lifetime.py:316-324 | A fresh application over the previous state, with the recorded pause intent |
| Restore.Host.Reopen | backend/application/lifetime.py:151-160 | Puts back the stopped integrations, the intent and the scheduler it found running |
| Restore.Host.RestoreBackup | backend/application/lifetime.py:200-345 | For every fate of every wait: which of the endings it is; what it leaves on disk, sealed, paused, and of each integration, which after a refusal runs again exactly if it was stopped and its start completes; that no seal is undone; and that at no moment of a history that misses none anything serves a state that is not whole, but for the one exact case |
| Restore.LeftIdle | backend/application/lifetime.py:327-334 | After a refusal an integration is left idle exactly if it was still starting and the stop did not reach it |
| Restore.PrefixesMean | backend/application/lifetime.py:222-284 | How far a restore gets is decided by the first wait, in order, that does not let it go on: prepared if none does, refused while stopping or while preparing if that one failed |
| Restore.ExposesMeans | backend/application/lifetime.py:294-301 | The one exposing situation, wait by wait |
| Restore.ReopeningMeans | backend/application/lifetime.py:151-160 | What a refusal starts again is exactly what the stop had reached |
| Restore.PreparingRestartsAll | backend/application/lifetime.py:151-160 | A refusal after all integrations stopped leaves each running where its start completes and degraded where it does not |
| Restore.RunningAgain | backend/application/service.py:1223-1227 | Where every start completes, whatever ran before a refusal runs after it |
| Restore.StartupLost | backend/application/service.py:1266-1281 | A concrete refusal that leaves an integration idle |
| Restore.OneCancellationExposes | backend/application/lifetime.py:297-301 | One cancellation before the rollback begins is enough to leave the swapped files served |
| ActivityPage.SortByStable | backend/api/operational_downloads.py:770-784 | The sort orders by key, keeps every element, and keeps the order within every key |
| ActivityPage.NewestFirstUniqueIds | backend/api/operational_downloads.py:712-723 | The newest ids of all pairs, each once at its newest time, at most the limit, nothing newer left out |
| ActivityPage.BoundedStatusCandidates | backend/api/operational_downloads.py:687-709 | One slice per status, all of them and nothing else |
| ActivityPage.SlicesSuffice | backend/api/operational_downloads.py:726-757 | The newest of the per-status slices are the newest of everything those statuses hold |
| ActivityPage.ActivityCohort | backend/api/operational_downloads.py:726-767 | The acquired ids are the newest live transfers and, in the room they leave, the newest settled ones |
| ActivityPage.PageBounded | backend/api/operational_downloads.py:727-731 | A page never exceeds its limit, repeats no transfer, and below its limit shows everything |
| ActivityPage.PageNewest | backend/api/operational_downloads.py:734-739 | No transfer left out is newer than a shown one of its kind, and no live one is left out for a settled one |
| ActivityPage.PriorityIsStable | backend/api/operational_downloads.py:770-784 | The tiers never decrease, nothing is lost, and recency inside a tier is kept |
| SearchMatch.JoinedIsFieldwise | backend/api/operational_downloads.py:277-280 | One match over the joined and folded fields is a match of some field |
| SearchMatch.FieldsMean | backend/api/operational_downloads.py:275-280 | What is searched is every text of the transfer that is not empty, and nothing else |
| SearchMatch.SafeExactly | backend/core/presentation_safety.py:27-46 | The safe form of a host, by what it is rather than how it is computed |
| SearchMatch.DisplayedExactly | backend/transfers/display_name.py:112-137 | What a transfer is shown as, for every number of names |
| SearchMatch.DecWrites | backend/transfers/display_name.py:124-137 | A shown count is the decimal of its number |
| SearchMatch.DisplayAdds | backend/api/operational_downloads.py:286-294 | A match in the displayed name is a match of a field, or lies in its placeholder or count, or holds its plus sign |
| SearchMatch.FastIsSound | backend/api/operational_downloads.py:275-298 | The shortcut never finds what the plain search does not |
| SearchMatch.FastIsDirect | backend/api/operational_downloads.py:275-298 | The shortcut is the plain search for every valid text exactly when it loses none of finitely many: the placeholder or the count, and each safe host |
| SearchMatch.GuardExactly | backend/api/operational_downloads.py:281-285 | Looking at the raw host first loses no text of a safe host exactly if it does not lose the safe host itself |
| SearchMatch.AgreeingHolds | backend/core/presentation_safety.py:27-46 | A raw host holds its safe form wherever the fold agrees with the lower case on its host characters |
| SearchMatch.KelvinLost | backend/core/search_contract.py:137-144 | With an ASCII fold, a host whose shown name a search for it misses |
| SearchMatch.NothingLost | backend/api/operational_downloads.py:281-294 | Without blank file or root names, and with a fold that agrees on the hosts, the shortcut is the plain search for every text |
| SearchMatch.BlankNameLost | backend/api/operational_downloads.py:290-292 | A transfer shown as unnamed that a search for its shown name misses |
| SearchMatch.LooseAcross | backend/core/search_contract.py:162-165 | Folding a text around a visible character it leaves alone splits every match that lacks that character |
| SourceActions.CommonIsEveryFile | backend/api/operational_downloads.py:1591-1599 | Counting the files per host is asking whether every file has the host |
| SourceActions.ActionableMeans | backend/api/operational_downloads.py:1758-1769 | A host is actionable exactly when it is common, an enabled provider moves a switchable file there, and every unfinished fixed file is on it |
| SourceActions.CountIsSound | backend/api/operational_downloads.py:1673-1684 | The remaining count is nonzero exactly when such a host exists, and then counts the switchable files |
| SourceActions.ExistenceIsCount | backend/api/operational_downloads.py:2008-2021 | The existence query, the host count and the scope classifier agree |
| SourceActions.OfferedIsActionable | frontend/static/ui-group-candidates.js:169-180 | Every host the list offers is one the chooser can converge to |
| SourceActions.ChooserActionableMeans | frontend/static/ui-group-candidates.js:169-180 | A host the chooser can converge to, by the bindings alone |
| SourceActions.OfferedExactly | backend/api/operational_downloads.py:1758-1769 | How much stricter the list is than the chooser: an enabled provider moves a file there and no fixed file has another candidate there |
| SourceActions.OneFileExactly | backend/api/operational_downloads.py:2008-2021 | The list shows one file's candidates exactly where one file may be moved |
| SourceActions.GroupExactly | backend/api/operational_downloads.py:2008-2021 | It shows a group exactly where several may and some host is offered |
| SourceActions.OfferedButActive | frontend/static/ui-group-candidates.js:243-249 | An offered host is missing from the chooser's movements exactly when every unfinished file is selected on it |
| SourceActions.OneCandidatePerHost | frontend/static/ui-group-candidates.js:243-249 | With one candidate per file and host, every offered host is a movement of the chooser |
| SourceActions.MovableAgrees | backend/api/operational_downloads.py:1722-1732 | The list and the chooser call the same files movable |
| SourceActions.ListOffersActiveHost | backend/api/operational_downloads.py:1618-1629 | A transfer the list offers a group switch for and the chooser has none |
| EventHub.Hub.Broadcast | backend/api/routes.py:2677-2697 | Each connection gets the frame in its turn if it may, or is evicted if it is full, whatever the others do |
| EventHub.Hub.EvictOne | backend/api/routes.py:2700-2725 | The drained queue holds the one reason still to be told, a session's end before a role change, and the marker |
| EventHub.Hub.SessionsEnded | backend/api/routes.py:2733-2745 | Exactly the affected connections are told, evicted ones too |
| EventHub.Hub.Advance | backend/api/routes.py:2776-2799 | One turn of a stream, re-checked before it sends |
| EventRuns.Replay | backend/api/routes.py:2677-2802 | Any history of the hub, driven through its own methods, is a run, event by event |
| EventRuns.RunHealthy | backend/api/routes.py:2677-2802 | In every interleaving queues stay bounded, in order and granted, an evicted one holds only its ending, and every stream keeps its clock |
| EventRuns.InOrder | backend/api/routes.py:2776-2799 | A stream never evicted took exactly what was queued first, and sent of it in order exactly what its principal might read at that turn |
| EventRuns.AuthorizedOnly | backend/api/routes.py:2788-2799 | Nothing is sent at a turn without authorization; such a turn ends the stream, which is told so exactly then or at its session's end |
| EventRuns.Turning | backend/api/routes.py:2776-2799 | The turn a stream takes is the turn its history records |
| EventRuns.GatedTwice | backend/api/routes.py:2795-2798 | Every gated frame sent was queued for that connection, permitted when queued and when sent, in the order queued and never twice |
| EventRuns.GatedSkipped | backend/api/routes.py:2795-2798 | A gated frame a running stream took was sent exactly if its principal might still read it |
| EventRuns.EvictedDrains | backend/api/routes.py:2700-2712 | After an eviction nothing is queued any more |
| EventRuns.PingOnTime | backend/api/routes.py:2779-2791 | However busy a stream, if its turns come at most d apart, successive pings are at least a heartbeat and less than a heartbeat and d apart |
| EventRuns.EvictedTold | backend/api/routes.py:2700-2725 | Over every run an evicted stream is told exactly the one reason in what it missed, a session's end before a role change, and then the marker |
| RouteSwitch.Operation.SwitchThroughEquivalents | backend/application/manual_route_switch.py:62-117 | One command per file in order, up to one that breaks; a change is reported exactly after a commit; a stop is reported exactly after a change, else raised |
| RouteSwitch.FileHonest | backend/application/manual_route_switch.py:78-80 | What a file reports as changed is what durably changed exactly where its own command did not hide its change |
| RouteSwitch.Operation.SwitchTransferProvider | backend/application/manual_route_switch.py:120-214 | A root gets commands exactly if it is eligible, named and, moved file by file, still on the route the operator saw, and nothing stopped the operation; each root is told what its own commands came to; changed exactly after a commit; unchanged exactly when nothing committed; complete and pending as their counts say; raised exactly when a command broke before any commit |
| RouteSwitch.ProgressExact | backend/application/manual_route_switch.py:160-206 | Which roots get which commands and what each is told, from the roots, what the operator saw and the commands alone |
| RouteSwitch.UnchangedExactly | backend/application/manual_route_switch.py:148-150 | `unchanged` is reported exactly when nothing committed, and is then true exactly when no refusal came after a durable change |
| RouteSwitch.RaisedExactly | backend/application/manual_route_switch.py:131-138 | What is raised follows no commit, and hides a durable change exactly if the raising command or an earlier refusal did |
| RouteSwitch.UnchangedAlthoughReplaced | backend/application/service.py:255-267 | One root whose route was replaced under a report of `unchanged` |
| RouteSwitch.FaultGoesOn | backend/application/manual_route_switch.py:199-205 | A storage fault after a commit is a refusal, and the next root is switched all the same |
| RouteSwitch.CountAll | backend/application/manual_route_switch.py:207-212 | The counts add up to the participants exactly when all are settled or pending |
| ProfileCatalog.Settings.Judge | backend/api/external_routes.py:199-211 | Refuses exactly when some job of a profile not named loses something it wants, and collects exactly the jobs of named profiles that do |
| ProfileCatalog.Settings.PutExternalProfiles | backend/api/external_routes.py:145-242 | How a write ends, whom it retires, and at every point of interruption, none left out, that under a new file every unsettled job keeps its roots and its client |
| ProfileCatalog.AffectedMeans | backend/api/external_routes.py:131-142 | A write takes a profile away from exactly the jobs that want it and whose roots or client it would not leave |
| ProfileCatalog.UsesMean | backend/api/external_routes.py:206-215 | A refusal names exactly the profiles in the way, what the write would do to each, and how many jobs depend on it |
| ProfileCatalog.TotalIsJobs | backend/api/external_routes.py:213-218 | The number a refusal reports is the number of jobs in the way |
| ProfileCatalog.ContainedMeans | backend/api/external_routes.py:180-189 | Every profile but the stored ones carried unchanged must be confined |
| ProfileCatalog.StrandedRetired | backend/api/external_routes.py:202-219 | After a write that is not refused no job loses anything it wants: what it would have lost is retired |
| ProfileCatalog.OnlyAuthorizedRetired | backend/api/external_routes.py:110-114 | Only unsettled jobs of named profiles that lose something are ever retired |
| AuthenticationCommit.Stores.UpdateWithCredential | backend/api/auth_config_routes.py:511-551 | Success changes credential, settings and sessions together, a refusal nothing, and after a failure what is durable of each is exactly as told |
| AuthenticationCommit.Stores.UpdateAuthentication | backend/api/auth_config_routes.py:475-567 | How an update ends and what it leaves, with a credential and without; a success is all new; an error is all old wherever the compensating write succeeds and no commit that raised had taken effect |
| AuthenticationCommit.AsksExactly | backend/api/auth_config_routes.py:281-293 | An update concerns the credential exactly if it clears or supplies a password or names another username |
| AuthenticationCommit.ChangedIsStep | backend/api/auth_config_routes.py:521-530 | It is then the account's own change of credential under the settings about to be written |
| AuthenticationCommit.SplitsExactly | backend/api/auth_config_routes.py:533-550 | When exactly one of the two is new |
| AuthenticationCommit.CancelledCommitSplits | backend/api/auth_config_routes.py:535-541 | A cancellation after the settings write splits the pair where an error would not |
| AuthenticationCommit.FailedCommitSplits | backend/api/auth_config_routes.py:535-550 | A commit that fails after it took effect splits the pair just because the compensation succeeds |
| Consolidation.LeavesConserved | backend/application/consolidation_events.py:133-189 | Every leaf is counted once, so the counts always add up to the material and the last check is redundant |
| Consolidation.TargetsBounded | backend/application/consolidation_events.py:174-186 | There are never more targets than matches, and a match always has one |
| Consolidation.CountsMean | backend/application/consolidation_events.py:133-172 | The counts are the numbers of leaves that are proven, remaining or associated by their own facts |
| Consolidation.Disposition | backend/application/consolidation_events.py:104-212 | A summary exists exactly if no leaf is open, one is proven and the source is consolidated just when none remains, and holds the true counts and the proven leaves' transfers |
| Consolidation.PublicPayload | backend/application/consolidation_events.py:214-261 | Accepts exactly the safe shape, rebuilt from its fields |
| Consolidation.PublishedExactly | backend/application/consolidation_events.py:225-249 | That shape, field by field: what must be positive, what may be absent, and which targets |
| Consolidation.SummaryRoundTrips | backend/application/consolidation_events.py:200-212 | Every summary is published as itself and as nothing else |
| Consolidation.Ledger.Stage | backend/application/consolidation_events.py:41-67 | At most one event per transfer is ever staged |
| Consolidation.Ledger.FinalizePending | backend/application/consolidation_events.py:69-102 | Exactly the settled hidden markers before one that breaks the pass off are promoted, each with its own summary, as many as reported; it breaks off exactly at such a one |
| Consolidation.Perform | backend/application/consolidation_events.py:41-102 | The ledger's own methods do what the operations of a run say |
| Consolidation.RunPublishesOnce | backend/application/consolidation_events.py:41-102 | Over any run a transfer has at most one event, and what is public stays as it was |
| CandidatePublication.RunOwes | backend/application/service.py:1088-1109 | In every interleaving pending is exactly what is owed, and once the drain stopped nothing is, unless it was cancelled |
| CandidatePublication.OwedMeans | backend/application/service.py:1088-1094 | A transfer is owed a publication exactly if it was queued after its last publication began |
| CandidatePublication.DrainEnds | backend/application/service.py:1096-1109 | Left alone a drain ends with nothing pending after one turn per pending transfer and one more |
| CandidatePublication.Publisher.DrainPublications | backend/application/service.py:1096-1103 | Every pending transfer once, in ascending order, whatever fails |
| OneTimeStore.Store.Cleanup | backend/auth/oidc.py:154-159 | What has expired is exactly a prefix, and its length is returned |
| OneTimeStore.Store.Issue | backend/auth/oidc.py:109-135 | The new entry last, the bound kept, the oldest gone |
| OneTimeStore.Store.Consume | backend/auth/oidc.py:137-152 | Succeeds exactly for a pending, unexpired entry and its secret, and takes the entry whatever comes of it |
| OneTimeStore.IssuedDropsEarliest | backend/auth/csrf.py:53-66 | What a full store evicts expires no later than anything it keeps |
| OneTimeStore.RunOnce | backend/auth/csrf.py:68-82 | Over every run the store is bounded and ordered by expiry, and no entry is consumed successfully twice |
| OneTimeStore.AttemptBurns | backend/auth/csrf.py:68-75 | After any attempt nothing is consumed under that key until it is issued again |
| OneTimeStore.EntryWasIssued | backend/auth/oidc.py:109-132 | Whatever can be consumed was issued in the run, with that secret, for the store's own time |
| OidcAdmission.MergeUserinfo | backend/auth/oidc.py:502-532 | Claim by claim, UserInfo only completes the token, but for a replaced email pair |
| OidcAdmission.EmailJoined | backend/auth/oidc.py:511-526 | The email pair after the merge: UserInfo's whole, the token's whole, or claim by claim, exactly as configured |
| OidcAdmission.ClaimsJoined | backend/auth/oidc.py:528-531 | Any other claim is the token's where it states it, and UserInfo's for a profile or group claim it does not |
| OidcAdmission.AskedExactly | backend/auth/oidc.py:459-472 | UserInfo is asked exactly when the token leaves a configured restriction open |
| OidcAdmission.TurnedAwayExactly | backend/auth/oidc.py:626-660 | Each reason for which an identity is turned away, and no other |
| OidcAdmission.TokenClaimsStand | backend/auth/oidc.py:502-532 | No claim the token states is changed, but for an email pair replaced whole |
| OidcAdmission.UnneededIsIrrelevant | backend/auth/oidc.py:459-472 | Where UserInfo is not asked for, nothing it could say changes who is admitted |
| OidcAdmission.AdmittedNeedsNothing | backend/auth/oidc.py:626-660 | Whoever the token alone admits is never sent to UserInfo |
| OidcAdmission.PairIsWhole | backend/auth/oidc.py:509-526 | The address and its verification come from one document, but in exactly one described case |
| OidcAdmission.AdmittedEmailVerified | backend/auth/oidc.py:645-648 | Under an email restriction an admitted address was verified by the document that stated it |
| OidcAdmission.UnrestrictedPairTears | backend/auth/oidc.py:523-526 | Claims that call the token's address verified on the word of another |

## Left out

- AccountDirectory.Directory.ChangeProvenPassword: the throttle, the admission of attempts and the hash comparison before the lock are not modelled; it starts from the verifier just proven.
- AccountDirectory.Directory.OwnedAccountIds: the alphabetical order of the merged identities is not modelled, since nothing depends on it.
- AccountDirectory.Directory.EnterOwnEmail: the syntax of an entered address is not modelled; an address is a value that may be blank and may agree with another in all but letter case.
- AccountDirectory.Directory.SignInOidc: display and actual names are not modelled; they identify and authorize nothing.
- Restore.Host.RestoreBackup: one restore at a time, backup packages, retention holds and file moves are taken as the outcomes a swap may have; deleting the journal and the staged files is taken to succeed.
- ActivityPage.ActivityCohort: the slices are taken from one snapshot; the code reads them one after another.
- SearchMatch.FastIsDirect: the multipart file name patterns are taken as any function that returns a prefix, and a character's lower case as one character.
- SourceActions.CommonIsEveryFile: the normalization of a host is not modelled; a binding names a usable host or none.
- EventHub.Hub.Broadcast: the public projection of a payload and its encoding are not modelled.
- ProfileCatalog.Settings.PutExternalProfiles: settling the retired jobs after the commit is the transfer engine's and is not modelled; a retired job is one the commit made durable.
- AuthenticationCommit.Stores.UpdateAuthentication: the refusals before the transaction (400) and the ending of a switched mechanism's sessions are not modelled here; the ones that bear on a usable Admin are in `SettingsTransition`.
- SettingsTransition.ChangeUsable: a request is its proposed settings and a few facts about it; parsing, coercion and the settings that are no sign-in facts are not modelled. That a proven configuration is still the staged one is not either.
- RouteSwitch.Operation.SwitchTransferProvider: what a command durably changes besides its own route or choice is one yes or no; the plan and the standing of each root are parameters.
- EventRuns.PingOnTime: the bounded wait for a frame is any number of turns that find nothing.
- Consolidation.PublicPayload: reading and writing the JSON text is taken to be lossless.
- OneTimeStore.Store.Issue: what else a sign-in transaction carries (nonce, verifier, configuration) is its secret here.
- OidcAdmission.AdmittedEmailVerified: does not cover a group claim configured to be the email claim itself; `OidcAdmission.PairIsWhole` does.
- HTTP routing, request and response bodies, cookies, templates and the rest of the browser code.
- Provider clients, OIDC discovery and token exchange, signatures, password hashing.
- SQLite, the backup package format, the transfer engine, the session store, the NZB reader and network safety, beyond what the calling code relies on.
- Statistics, notifications, settings forms, directory browsing, the *arr dialects: reporting and thin wrappers.
