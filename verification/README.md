# SoroBeacon in Dafny

SoroBeacon watches Soroban contracts, raises alerts and serves an API around them. This project
models the parts of it whose correctness depends on interleavings, on references between rows, or on
several passes over the same text agreeing with each other, and proves what those parts promise.

* **Idempotent requests.** `IdempotencyMemory` is the middleware of one process as a transition
  system: any number of requests, each entering, publishing and releasing under one mutex, with the
  handlers and the waits in between running freely. `IdempotencyServer` is the middleware's mutable
  state as classes whose methods are those three critical sections, proved to do what the transition
  system does. `IdempotencyCluster` adds replicas, the shared SQL table with its two-minute lease,
  crashes, lost writes and pruning.
* **Group mappings, cached resolutions and sessions.** `Groups` resolves a caller's groups to
  grants. `OidcCache` is the bearer cache around it, with verifications, mapping replacements and
  evictions in any order. `Sessions` is the session table, with sign-ins, drops, sweeps and
  revalidations whose three sections may interleave with everything else.
* **Backup and restore.** `BackupData` validates a backup file, `Guidance` runbook links and response
  notes. `BackupStore` is the store a restore writes to, with the columns its SQL keeps and the rows
  it refuses. `BackupFaults` lists what a backup is refused for. `Restore` and `Export` are the two
  directions, `BackupRoundTrip` relates them, `RestoredColumns` gives the restored rows column by
  column, and `SecondTrip` follows a backup through a second restore.
* **Flap detection** (`Flapping`), **route tables** (`Routes`), **alert paging and CSV export**
  (`Paging`), **template substitution** (`Templates`), **the audit token bucket** (`AuditBucket`),
  **command-line argument order** (`CliArgs`).
* **Generated clients.** `WideInts` is the integer quoter of the TypeScript client, `LexicalForms` its
  tokens in closed form, `SchemaSort` the dependency sort of the Python client.

Every run-level theorem speaks of `After(…, events)`: the state after a sequence of events from the
initial state, or `None` when some event was not possible. A theorem about `After(…).value` is a
theorem about every reachable state and every interleaving. Where such a theorem also mentions
`Typed(After(…).value)`, that is only to make its own statement well formed: `RunKeepsInv` shows it of
every reachable state.

Some promises turned out not to hold without a condition. The code is modelled as it is; a lemma gives
an input, and another the exact condition.

* A restore is announced as never updating an existing row (`cmd/sorobeacon/backup.go:16-17`). It
  updates one exactly when it gets as far as the searches, the backup has a default one and the store
  has one too (`ImportKeepsExistingRowsIff`, `RestoreCanUnmarkTheDefault`).
* A validated backup is not always written in full. The import stops at the first row over a quota, at
  the first monitor whose name is taken and at the first rule whose guidance, its parameters'
  included, is refused; it succeeds exactly when there is none of these, and otherwise leaves what
  came before (`ImportAll`, `ImportedIff`, `QuotaStopsARestore`, `RepeatedNameStopsARestore`,
  `ParameterLinkIsRefused`).
* What is written does not always come back as it was. A channel loses its minimum severity and gets a
  timeout, a monitor loses its tags, its last match and an unspelled priority, a rule its severity and
  its version; links and notes are trimmed, schemes put in lower case and carriage returns dropped.
  `ChannelSurvivesIff`, `MonitorSurvivesIff`, `RuleSurvivesIff`, `SearchSurvivesIff` and
  `TemplateSurvivesIff` say on the rows' own text which of them survive; `ChannelColumnsAreLost`,
  `MonitorColumnsAreLost` and `RuleColumnsAreLost` give rows that do not.
* A second restore, of the backup of what the first one wrote, is refused exactly when a rule had a
  blank link or note over an invalid one in its parameters (`SecondImportIff`,
  `HiddenLinkIsRefused`). Otherwise it changes no channel, monitor, search or template, and a rule
  exactly when its blank link or note had hidden a non-blank one (`SecondRoundTrip`,
  `LinkIsUncovered`, `RestoreTwice`).
* A session's grant is meant to be the one its groups have under the mapping version it is labelled
  with. The sign-in resolves first and reads the label later. In every run an admitted label is wrong
  exactly when the session is still as it was minted, under mappings, and its grant was resolved under
  none or under mappings that gave its groups something else (`AdmittedLabelIsWrongIff`).
  `ReplacementDuringSignIn` gives such a run for all mappings, an administrator's grant from before
  there were any included; the mismatch lasts no longer than the cache TTL (`StaleGrantIsBounded`).
* Two replicas can run the same key at once. In every run, while a handler runs, a request on another
  replica starts a second one exactly when none runs there and the table has no row for the key, an
  expired one, or an unfinished one whose claim is older than the lease (`SecondExecutionIff`,
  `TwoReplicasCanExecute`). A lease need not have passed: a handler that fails past its own lease
  deletes the row of the one that replaced it (`LateFailureDropsANewerRow`). As long as no handler
  outlives its lease, a second one starts exactly when the clock has passed the lease or the expiry
  (`SecondExecutionIffLeaseOver`).
* A successful answer does not always keep its key for one retention window. A request breaks the
  window exactly when it reads a time inside it although another, newer execution of the key has
  failed or has expired at that time (`IdempotencyMemory.WindowIsBrokenIff`,
  `LateClockReadingBreaksTheWindow`); clock readings that do not decrease in lock order rule that out
  (`SuccessHoldsTheWindow`). With replicas, it does so exactly when no handler for the key runs on its
  replica and the table has no row, an expired one, or an unfinished one past its lease
  (`IdempotencyCluster.WindowIsBrokenIff`).
* Template parameters are replaced one after the other, not all at once. Every stage of that is the
  simultaneous substitution, for all templates, exactly when no placeholder of a later parameter
  starts in the value of an earlier one (`EveryStageIsSimultaneousIff`, `DisturbedValueBreaks`);
  values such as JSON objects are harmless (`PlainIsQuiet`).
* A permuted command line parses like the original exactly when no last flag without a value finds a
  positional argument to take, and no "--" lets an argument behind it overtake one before it
  (`PermutedParsesTheSameIff`, `MissingValueTakesAPositional`, `TerminatorIsMoved`).
* A route lookup returns a most specific entry except when the request method contains a space
  (`AnswerIsMostSpecificIff`, `SpacedMethodIsMisrouted`), and normalizing a route twice changes it
  exactly when its trailing slashes cover a space (`NormalizedTwiceIff`, `NormalizingTwiceCanChange`).

## Model

| member | source | states |
|---|---|---|
| IdempotencyCore.ScopeKeyInjective | internal/api/idempotency.go:82-88 | two requests share a scope key exactly when they agree on workspace and client key, whatever characters the key has |
| IdempotencyServer.Server.ClaimLocked | internal/api/idempotency.go:257-288 | the in-memory claim: expired records are replaced, live ones replay, conflict or report in progress |
| IdempotencyServer.Server.StartFlight | internal/api/idempotency.go:184-194 | a new flight is registered for the key and no other flight changes |
| IdempotencyServer.Server.Enter | internal/api/idempotency.go:138-195 | the entry section refines the protocol's entry step: same decision, same new state |
| IdempotencyServer.Server.Publish | internal/api/idempotency.go:225-253 | the publication section refines the protocol's publication step |
| IdempotencyServer.Server.Release | internal/api/idempotency.go:203-216 | the deferred release refines the protocol's release step, aborting on panic or 5xx |
| IdempotencyServer.Server.Await | internal/api/idempotency.go:296-332 | in terms of the flight alone: a closed flight with a record of the same method, path and hash answers its status, content type and body, the body left out for 204; any other record is a conflict; no record is in progress, since without a backing store the poll behind it ends at its first read |
| IdempotencyMemory.RunKeepsInv | internal/api/idempotency.go:92-255 | every reachable state ties map, flights, records, requests and execution history together |
| IdempotencyMemory.AtMostOneExecution | internal/api/idempotency.go:138-216 | in every run at most one handler executes per scope key, however long it takes |
| IdempotencyMemory.ClaimNeverInProgress | internal/api/idempotency.go:257-288 | without a backing store a claim never ends in progress |
| IdempotencyMemory.WaiterHasExecutor | internal/api/idempotency.go:290-311 | a waiting request's flight is closed or still has a request executing it |
| IdempotencyMemory.ReplaysAreFaithful | internal/api/idempotency.go:178-181 | every replayed answer of every run has the status, the content type and, unless the status is 204, the body of one execution of the same key and fingerprint that ended below 500 |
| IdempotencyMemory.NewestClaimDecides | internal/api/idempotency.go:138-288 | in every reachable state the newest claim of a key decides the next request: while it runs, wait or conflict; once failed or expired, execute; before that, its answer or a conflict |
| IdempotencyMemory.UnclaimedKeyExecutes | internal/api/idempotency.go:257-288 | in every reachable state a key that was never claimed executes |
| IdempotencyMemory.ArrivalIsAnswered | internal/api/idempotency.go:138-195 | what an arriving request is told, in terms of the newest execution of its key: it executes when that failed or expired, waits while the same request runs, is shown the status, content type and body of a finished one, and is a conflict otherwise |
| IdempotencyMemory.WaiterIsAnswered | internal/api/idempotency.go:296-311 | in every run a woken waiter is shown the status, content type and body of the execution it waited for when that ended below 500, and is told in progress when it failed |
| IdempotencyMemory.ExecutorIsAnswered | internal/api/idempotency.go:203-253 | in every run the request that executed is answered with what its own handler returned |
| IdempotencyMemory.WindowIsBrokenIff | internal/api/idempotency.go:128-288 | a request starts an execution inside the window of a success exactly when it reads a time before the end of it and the newest claim is another one that is closed and has failed or, at that time, expired |
| IdempotencyMemory.SuccessHoldsTheWindow | internal/api/idempotency.go:128-195 | with clock readings that do not decrease in lock order no window is ever broken: any later execution of a key was claimed at least one TTL after a successful one |
| IdempotencyMemory.LateClockReadingBreaksTheWindow | internal/api/idempotency.go:131-138 | without that, a run exists in which two successful executions of a key lie within one TTL |
| IdempotencyMemory.KeysDoNotInterfere | internal/api/idempotency.go:133-253 | no step for one scope key changes anything another scope key can see |
| IdempotencyMemory.StepsMakeProgress | internal/api/idempotency.go:92-255 | apart from arrivals every step brings the requests closer to being answered |
| IdempotencyMemory.EveryRequestCanBeAnswered | internal/api/idempotency.go:290-311 | from every reachable state all requests present can be answered in boundedly many steps, none giving up, whatever each handler returns or whether it panics |
| IdempotencyCluster.RunKeepsInv | internal/store/idempotency.go:144-232 | every reachable state of the cluster ties rows, flights, requests and history together |
| IdempotencyCluster.AtMostOneExecutionPerReplica | internal/api/idempotency.go:138-216 | on one replica at most one handler runs per key, whatever the others, the clocks and the store do |
| IdempotencyCluster.ReplaysAreFaithful | internal/api/idempotency.go:290-351 | every replayed answer, on any replica and by any path, has the status, content type and body of an execution of the same key and request hash that ended below 500 |
| IdempotencyCluster.ReplaysMatchTheRequest | internal/api/idempotency.go:296-345 | with a request hash that identifies requests the replayed execution had the same method and path as well |
| IdempotencyCluster.ArrivalIsAnswered | internal/api/idempotency.go:138-195 | in every run, in terms of the flights and the row: what an arriving request is told, or that it waits or executes |
| IdempotencyCluster.WaiterIsAnswered | internal/api/idempotency.go:296-311 | in every run a woken waiter is shown the published answer of the execution it waited for, and turns to the table when there is none |
| IdempotencyCluster.PollIsAnswered | internal/api/idempotency.go:313-351 | one look at the table: in progress once there is no live row, a conflict for another request, the answer of a completed row, and another look otherwise |
| IdempotencyCluster.ExecutorIsAnswered | internal/api/idempotency.go:203-253 | in every run the request that executed is answered with what its own handler returned, whether the table took it or not |
| IdempotencyCluster.PublicationCompletesTheRow | internal/store/idempotency.go:234-268 | a publication that reaches a row of the same request completes it with the answer and the expiry of the publishing request |
| IdempotencyCluster.StepAnswers | internal/api/idempotency.go:196-255 | a handler's result is recorded as it was and fails from 500 on, a failure that reaches the table takes the row with it, a request that gives up is told in progress, and no step but arrivals, publications, failures and prunes changes the table |
| IdempotencyCluster.PruneRemovesTheExpired | internal/store/idempotency.go:322-337 | a prune removes the expired rows and no other |
| IdempotencyCluster.CrashForgets | internal/store/idempotency.go:16-19 | a crash ends what its replica was doing and nothing else; the table keeps its rows |
| IdempotencyCluster.AtMostOneExecution | internal/store/idempotency.go:16-19 | as long as handlers end within the lease and the TTL, at most one runs per key in the whole cluster |
| IdempotencyCluster.SecondExecutionIffLeaseOver | internal/store/idempotency.go:144-232 | as long as no handler has outlived its lease: while one runs, a request on another replica starts a second one exactly when its clock has passed the lease or the expiry, or once the answer is in the table, the expiry |
| IdempotencyCluster.SecondExecutionIff | internal/api/idempotency.go:138-195 | in every run: while a handler runs, a request on another replica starts a second one beside it exactly when none runs there and the row of the key is gone or gives way |
| IdempotencyCluster.ExecutesIff | internal/store/idempotency.go:144-232 | in every run a request executes exactly when no handler for its key runs on its replica and the table has no row, or one that has the expiry of a claim and has reached it, or an unfinished one whose claim, the newest of the key, is older than the lease |
| IdempotencyCluster.LateFailureDropsANewerRow | internal/api/idempotency.go:203-216 | for every key, request and 5xx response a run in which a late failure lets a third request execute beside the second one, inside its lease |
| IdempotencyCluster.TwoReplicasCanExecute | internal/store/idempotency.go:16-19 | for every key and request a run in which two replicas execute it, the second one from past the lease on |
| IdempotencyCluster.PublishedHoldsTheWindow | internal/store/idempotency.go:144-268 | with timely handlers, ordered clocks and completions that reach the table, any later execution in the cluster was claimed at least one TTL after a published one |
| IdempotencyCluster.WindowIsBrokenIff | internal/store/idempotency.go:144-268 | in every run, with no condition: a request starts an execution inside the window of an earlier one exactly when no handler for the key runs on its replica and the table has no row, or one that expires with an earlier claim and has, or an unfinished one whose claim is older than the lease |
| IdempotencyCluster.RunKeepsOrigin | internal/store/idempotency.go:144-268 | in every run a row was created by the newest claim of its key and expires with a claim of it |
| Groups.FirstMatch | internal/auth/oidc.go:1109-1123 | the first matching rule of a workspace |
| Groups.ResolveGroupMappings | internal/auth/oidc.go:1092-1136 | the three loops compute the specified resolution |
| Groups.CollectGroups | internal/auth/oidc.go:1096-1104 | the trimmed, non-blank group names |
| Groups.CollectGrants | internal/auth/oidc.go:1106-1124 | one pass over the rules computes the grant list |
| Groups.PickBest | internal/auth/oidc.go:1129-1135 | the loop over the grants returns the primary one |
| Groups.ResolveMeetsSpec | internal/auth/oidc.go:1080-1136 | one grant per matching workspace in order of first match, each with the highest matching role; the primary has the highest role, ties to the earliest; none when nothing matches |
| Groups.GrantsAreDetermined | internal/auth/oidc.go:1080-1136 | the documented precedence determines the grant list, roles and order included |
| Groups.ResolveIffSpec | internal/auth/oidc.go:1080-1136 | a value is the resolution exactly when the documented precedence describes it |
| Groups.OrderAndRepetitionIrrelevant | internal/auth/oidc.go:1092-1136 | the order and repetition of groups in a token do not matter |
| Groups.MoreGroupsNeverLose | internal/auth/oidc.go:1092-1136 | more groups never remove a grant, lower a role or lower the primary role |
| Groups.MatchingRoleIsHeld | internal/auth/oidc.go:1080-1136 | a caller in the group of a rule holds no less than its role, as primary role and in its workspace: Admin for an Admin rule, Editor or Admin for an Editor rule, and so on down |
| Groups.ResolutionIsJustified | internal/auth/oidc.go:1080-1136 | a caller is resolved exactly when a rule names one of their groups, and every grant is one such a rule gives |
| Text.TrimSpaceDrops | internal/auth/oidc.go:1096-1104 | the trimming the code relies on drops the spaces at both ends and nothing else |
| Groups.SameStringSet | internal/auth/oidc.go:1138-1153 | true exactly when the lists agree as multisets |
| OidcCache.OidcProvider.SetGroupMappings | internal/auth/oidc.go:493-510 | the mappings are replaced, the version grows and the cache is emptied |
| OidcCache.OidcProvider.EvictSubject | internal/auth/oidc.go:527-534 | one subject's entry is dropped; an empty subject changes nothing |
| OidcCache.OidcProvider.Lookup | internal/auth/oidc.go:758-786 | the snapshot of the first section, and a hit exactly under version, expiry and equal groups |
| OidcCache.OidcProvider.Conclude | internal/auth/oidc.go:797-818 | the second section resolves under the snapshot, evicts on failure and drops a write-back whose version is gone |
| OidcCache.HitIsExact | internal/auth/oidc.go:780-786 | a token that lists the cached groups in another order resolves to the cached answer |
| OidcCache.RunKeepsInv | internal/auth/oidc.go:758-818 | in every run each entry is what its groups resolve to under the mappings of its version |
| OidcCache.CacheNeverChangesAnAnswer | internal/auth/oidc.go:758-818 | under any interleaving a cache hit answers exactly what the token's groups resolve to under the mappings the request snapshotted |
| OidcCache.BeginIsAnswered | internal/auth/oidc.go:758-786 | how a verification starts: unmapped without mappings, the cached answer exactly with an entry of its subject that has the current version, is not past its expiry and lists the same groups, and otherwise on to resolving |
| OidcCache.EndIsAnswered | internal/auth/oidc.go:788-818 | how it ends: with what its groups resolve to under the rules it read, and forbidden without a resolution or when the resolver fails |
| OidcCache.RunKeepsOrigins | internal/auth/oidc.go:758-818 | in every run each entry has the current version and was left by a verification of its own subject, one lifetime before its expiry |
| OidcCache.ServedIsRecent | internal/auth/oidc.go:758-818 | in every run what the cache answers was resolved by an earlier verification of the same subject under the same mappings and from the same groups, less than the lifetime of an entry before |
| OidcCache.RepeatIsServed | internal/auth/oidc.go:780-818 | a resolution is served again until it expires, through any events that do not touch its entry |
| OidcCache.TakenBack | internal/auth/oidc.go:493-534 | new mappings, a new resolver, an eviction and a verification without a grant each make the next one resolve anew |
| Sessions.Authenticator.DropSession | internal/auth/auth.go:352-359 | one session goes, the others stay |
| Sessions.Authenticator.SweepLocked | internal/auth/auth.go:361-367 | exactly the expired sessions go |
| Sessions.Authenticator.AddSession | internal/auth/auth.go:524-540 | a sweep and the new session |
| Sessions.Authenticator.LoadSession | internal/auth/auth.go:389-404 | a live session, with an expired one deleted on sight |
| Sessions.Authenticator.StoreRevalidated | internal/auth/auth.go:407-420 | nothing is written for a session that has gone; a refused one is deleted |
| Sessions.GoneStaysGone | internal/auth/auth.go:389-422 | however a run goes on, a session once dropped, swept or expired never returns and a live one keeps its expiry |
| Sessions.NoOlderLabelIsAdmitted | internal/auth/oidc.go:839-891 | a request is never admitted on a session labelled older than the mappings in force when it arrived, unless there were none when it was revalidated |
| Sessions.AdmittedGrantIsCurrent | internal/auth/oidc.go:839-891 | a session resolved under the version it is labelled with is only ever admitted with the grant its groups have under the mappings its revalidation read |
| Sessions.AdmittedLabelIsWrongIff | internal/auth/auth.go:489-542 | in every run an admitted label is wrong exactly when the session is as it was minted, under mappings, and was resolved under none or under mappings that gave its groups another resolution |
| Sessions.ReplacementDuringSignIn | internal/auth/auth.go:489-542 | for all mappings before, none included, and after: the race admits the old grant under the new label, which is right exactly when there were mappings before and both resolve the groups alike |
| Sessions.StaleGrantIsBounded | internal/auth/oidc.go:858-891 | in every run an admitted grant is right for its mappings, or unchanged since load and within the cache TTL of its last check; which groups it is right for is AdmissionIsRight |
| Sessions.AdmissionIsRight | internal/auth/oidc.go:839-891 | in every run an OIDC session is admitted as it was when there are no mappings or neither the TTL has passed nor the version changed; otherwise with the resolution of the groups the resolver just returned when the TTL has passed and there is a resolver, of its own groups when not, its groups, check time and version renewed |
| Sessions.RunKeepsChecks | internal/auth/oidc.go:839-891 | in every run each check has come to that, refusals included: a failing resolver, an explicit TTL that has passed without a resolver, and groups without a grant are forbidden, and nothing else is |
| Sessions.StartIsAnswered | internal/auth/auth.go:389-404 | a request is let in to a session that exists and has not expired and to no other; an expired one is deleted on sight and no other changes |
| Sessions.StoreIsAnswered | internal/auth/auth.go:406-422 | a lookup ends unauthenticated when the session has gone, refused and deleted when the check refused it, and else admitted with what the check came to, which is what is stored |
| Sessions.SignInIsResolved | internal/auth/oidc.go:735-818 | a sign-in carries what its groups resolve to under the mappings, or without any the identity's own grant |
| Sessions.SignInFailsClosed | internal/auth/auth.go:499-512 | under mappings a sign-in without a role or a workspace is never minted |
| Sessions.MintedSession | internal/auth/auth.go:514-541 | a minted session lasts one session TTL and carries its identity; only a missing role or workspace is filled in, with Admin and the default one |
| BackupData.ValidateBackup | cmd/sorobeacon/backup.go:281-466 | accepts exactly the valid backups: distinct ids, well-formed rows, attachments and owners inside the backup, at most one default search |
| BackupData.CheckRows | cmd/sorobeacon/backup.go:292-321 | the loop all five tables share accepts exactly rows with distinct ids that each pass their check |
| BackupData.CheckDefaults | cmd/sorobeacon/backup.go:408-433 | accepts exactly searches at most one of which is the default |
| BackupData.CheckAttachments | cmd/sorobeacon/backup.go:369-375 | accepts exactly monitors all of whose channels are in the backup |
| BackupFaults.ValidIffFaultless | cmd/sorobeacon/backup.go:281-466 | a backup is valid exactly when it has none of the listed faults, each spelled out with its constants: version, ids, names, kinds, times, priorities, severities, digests, timeouts, links, notes, JSON, references, defaults |
| Guidance.RunbookURLStays | internal/store/store.go:265-292 | a runbook link the validation accepts is accepted unchanged the second time |
| Guidance.ResponseGuidanceStays | internal/store/store.go:299-319 | a response note the validation accepts is accepted unchanged the second time |
| Guidance.LinkKeptIff | internal/store/store.go:265-292 | an accepted link is stored as it is exactly when it has nothing to trim and its scheme is in lower case |
| Guidance.NoteKeptIff | internal/store/store.go:299-319 | an accepted note is stored as it is exactly when it has nothing to trim and no carriage return |
| Guidance.BlankNoteIff | internal/store/store.go:299-319 | an accepted note is stored as none exactly when it is blank |
| Guidance.NewlinesAreReplaced | internal/store/store.go:299-319 | a carriage return becomes a newline, together with the newline behind it if there is one, and what stands before stays |
| BackupStore.AttachedMembers | internal/store/postgres.go:411-418 | a monitor's stored channels are the given ones, in order and without repetition |
| BackupStore.Store.CreateChannel | internal/store/postgres.go:1314-1338 | refused, without change, exactly when the quota is reached; otherwise a row with a fresh id, without minimum severity and with the default for a missing timeout is added, and the tables stay consistent |
| BackupStore.Store.CreateMonitor | internal/store/postgres.go:359-395 | refused, without change, exactly when the guidance is invalid, the quota of live monitors is reached or a live monitor has the name; otherwise a row with a fresh id, its priority spelled out, its guidance trimmed and no channels is added |
| BackupStore.Store.SetMonitorChannels | internal/store/postgres.go:962-1015 | refused, without change, exactly when the monitor or a channel is missing; otherwise the monitor's channels are replaced |
| BackupStore.Store.CreateRule | internal/store/postgres.go:1072-1095 | refused, without change, exactly when the guidance, its parameters' included, is invalid, the monitor is missing or the quota of live monitors' rules is reached; otherwise a row with a fresh id, the first version and no severity is added |
| BackupStore.Store.CreateSavedSearch | internal/store/postgres.go:3933-3946 | a row with a fresh id is added, and a new default takes the mark from the old one |
| BackupStore.Store.CreateMonitorTemplate | internal/store/postgres.go:4022-4029 | a row with a fresh id is added |
| Restore.RemapChannelIds | cmd/sorobeacon/backup.go:768-779 | known ids renamed in order, unknown ids dropped |
| Restore.RemapMembers | cmd/sorobeacon/backup.go:768-779 | the renamed list holds exactly the new ids of the known ones |
| Restore.ImportChannels | cmd/sorobeacon/backup.go:643-661 | the channels within the quota are added, as stored, under an injective renaming to fresh ids, all of them exactly when there are no more |
| Restore.ImportMonitor | cmd/sorobeacon/backup.go:665-686 | one monitor is added with its renamed attachments, or refused without change exactly when the quota is reached or its name is taken |
| Restore.ImportMonitors | cmd/sorobeacon/backup.go:663-687 | the monitors before the first one over the quota or with a taken name are added with their renamed attachments, all of them exactly when there is none |
| Restore.ImportRules | cmd/sorobeacon/backup.go:689-704 | the rules before the first one over the quota or with refused guidance are added under their renamed owners, all of them exactly when there is none |
| Restore.RemapFilter | cmd/sorobeacon/backup.go:707-726 | the criteria stay; a known monitor or rule is renamed, a dangling one cleared, an absent one stays absent, for monitor and rule each on its own |
| Restore.RemapInPlace | cmd/sorobeacon/backup.go:768-779 | known ids are renamed where they stand, unknown ones leave no trace |
| Restore.ImportSearches | cmd/sorobeacon/backup.go:706-739 | the searches are added with renamed references, dangling ones cleared |
| Restore.ImportTemplates | cmd/sorobeacon/backup.go:741-753 | the templates are added with their known channels renamed |
| Restore.ImportAll | cmd/sorobeacon/backup.go:642-763 | exactly the importable part of a validated backup is written, as the image of its rows under an injective renaming to fresh ids; it succeeds exactly when the quotas have room, names are free and distinct and no rule's guidance is refused |
| Restore.ImportedIff | cmd/sorobeacon/backup.go:642-763 | all of the backup is written exactly when the store has no objection to a row |
| RestoredColumns.TakenWholeIff | internal/store/quotas.go:485-600 | the whole backup is written exactly when the rows fit the quotas, deleted monitors and their rules not counted, no monitor's name is taken and no rule's guidance, its parameters' included, is at fault |
| RestoredColumns.ChannelRestored | internal/store/postgres.go:1314-1338 | column by column: a restored channel is as it was, except for its minimum severity and a missing timeout, which becomes fifteen seconds |
| RestoredColumns.MonitorRestored | internal/store/postgres.go:359-395 | column by column: a restored monitor is live, without tags or matches, its priority spelled out, its link and note as written, the rest as it was |
| RestoredColumns.RuleRestored | internal/store/postgres.go:1072-1095 | column by column: a restored rule has its first version, no severity, its link and note or those of its parameters, and the rest as it was |
| RestoredColumns.TemplateRestored | cmd/sorobeacon/backup.go:741-753 | column by column: a restored template is as it was |
| BackupRoundTrip.AttachmentsPreserved | cmd/sorobeacon/backup.go:663-687 | a restored monitor has a restored channel attached exactly when it had it in the backup |
| BackupRoundTrip.OwnersPreserved | cmd/sorobeacon/backup.go:689-704 | a restored rule belongs to a restored monitor exactly when it did in the backup |
| BackupRoundTrip.FiltersPreserved | cmd/sorobeacon/backup.go:706-739 | a restored search has its name, default mark, creation time and criteria, keeps its monitor and rule, and loses a reference exactly when it dangled |
| BackupRoundTrip.TemplateChannelsPreserved | cmd/sorobeacon/backup.go:741-753 | a restored template names a restored channel exactly when it did in the backup |
| BackupRoundTrip.MonitorsAttachNewChannels | cmd/sorobeacon/backup.go:663-687 | no restored monitor is attached to a channel that was there before |
| BackupRoundTrip.RulesHaveNewOwners | cmd/sorobeacon/backup.go:689-704 | no restored rule belongs to a monitor that was there before |
| BackupRoundTrip.FiltersNameNewRows | cmd/sorobeacon/backup.go:706-739 | no restored search refers to a row that was there before |
| BackupRoundTrip.TemplatesNameNewChannels | cmd/sorobeacon/backup.go:741-753 | no restored template names a channel that was there before |
| BackupRoundTrip.ExistingRowsKeptIff | cmd/sorobeacon/backup.go:16-24 | existing rows stay as they were exactly when what is written and the store do not both have a default search |
| BackupRoundTrip.ImportKeepsExistingRowsIff | cmd/sorobeacon/backup.go:16-24 | of a whole backup, stopped or not: existing rows stay as they were except exactly when it is importable and it and the store both have a default search |
| BackupRoundTrip.RestoreCanUnmarkTheDefault | internal/store/postgres.go:3933-3946 | for every default search without references, a restore that updates an existing row |
| Export.GetMonitor | internal/store/postgres.go:397-409 | the row with the id, attachments included, or none |
| Export.ListMonitors | internal/store/postgres.go:424-461 | the monitors that are not soft-deleted, in order, without their attachments |
| Export.ListRules | internal/store/postgres.go:1145-1183 | the rules of one monitor, in order |
| Export.ExportMonitors | cmd/sorobeacon/backup.go:499-520 | every live monitor is exported with its attachments, its rules grouped behind it |
| Export.ExportAll | cmd/sorobeacon/backup.go:498-568 | every row is exported except soft-deleted monitors and their rules, searches and templates in name order |
| Export.ExportedContents | cmd/sorobeacon/backup.go:498-568 | table by table: the channels, the monitors that are not deleted by id, exactly their rules by owner and id, the searches and templates by name |
| Sorting.LexLeIff | clients/python/generator.go:449-452 | the order of names: a prefix first, or the smaller character where two first differ |
| Export.EveryRuleIsExported | cmd/sorobeacon/backup.go:504-520 | grouping by monitor exports exactly the rules of live monitors, each once |
| Export.AllRulesAreExported | cmd/sorobeacon/backup.go:504-520 | in a consistent store without soft-deleted monitors every rule is exported exactly once |
| BackupRoundTrip.RoundTrip | cmd/sorobeacon/backup.go:498-763 | restored into an empty store and exported again, a valid backup comes back valid and with the same rows up to renaming, what the store keeps of their columns, and row order |
| BackupRoundTrip.RestoreThenBackUp | cmd/sorobeacon/backup.go:498-763 | import and export called one after the other on an empty store: what was importable comes back so |
| BackupRoundTrip.ChannelKeptIff | internal/store/postgres.go:1314-1338 | a channel is stored unchanged exactly without minimum severity and with a timeout; once stored it is |
| BackupRoundTrip.MonitorKeptIff | internal/store/store.go:393-408 | a monitor's copied columns are stored unchanged exactly with its priority spelled out, nothing to trim in link and note, a lower-case scheme and no carriage return; once stored they are |
| BackupRoundTrip.RuleKeptIff | internal/store/store.go:410-431 | a rule is stored unchanged exactly without severity, at its first version, with nothing to trim in link and note, a lower-case scheme, no carriage return, and no non-blank link or note in its parameters where its own is empty |
| BackupRoundTrip.StoredRuleSettlesIff | internal/store/store.go:410-431 | a stored rule is stored unchanged the next time exactly when no blank link or note had hidden a non-blank one in its parameters, and is refused exactly when the hidden one is invalid |
| BackupRoundTrip.MonitorSurvivesIff | cmd/sorobeacon/backup.go:665-674 | a monitor comes back with all its columns exactly when its copied columns are kept and it has no tags, has not matched and is not deleted |
| BackupRoundTrip.ChannelSurvivesIff | cmd/sorobeacon/backup.go:643-661 | a channel comes back with all its columns exactly when it has no minimum severity and a timeout |
| BackupRoundTrip.RuleSurvivesIff | cmd/sorobeacon/backup.go:689-704 | a rule comes back as stored, with all its columns exactly under that condition on its text |
| BackupRoundTrip.SearchSurvivesIff | cmd/sorobeacon/backup.go:706-739 | a search comes back with its name, default mark, creation time and criteria, its references renamed and none lost exactly when none dangles |
| BackupRoundTrip.TemplateSurvivesIff | cmd/sorobeacon/backup.go:741-753 | a template comes back with all columns, its channels renamed and none lost exactly when none dangles |
| BackupRoundTrip.ChannelColumnsAreLost | internal/store/postgres.go:1314-1338 | a valid channel that comes back changed |
| BackupRoundTrip.MonitorColumnsAreLost | internal/store/postgres.go:359-395 | for every note, a valid monitor that comes back changed |
| BackupRoundTrip.RuleColumnsAreLost | internal/store/postgres.go:1072-1095 | a valid rule that comes back changed |
| BackupRoundTrip.RepeatedNameStopsARestore | internal/store/postgres.go:388-391 | a valid backup of which only the first monitor is written |
| BackupRoundTrip.ParameterLinkIsRefused | internal/store/store.go:410-431 | valid rules that stop a restore |
| BackupRoundTrip.QuotaStopsARestore | internal/store/quotas.go:564-600 | a backup with more channels than the quota leaves exactly the first ones |
| SecondTrip.SecondImportIff | cmd/sorobeacon/backup.go:642-763 | the backup of what a store took whole is taken whole by an empty store with the same quotas exactly when no rule had a blank link or note over an invalid one in its parameters |
| SecondTrip.SecondRoundTrip | cmd/sorobeacon/backup.go:498-763 | then every channel, monitor, search and template comes back as it was under new ids, no reference lost, and every rule, unchanged exactly when no blank link or note had hidden a non-blank one |
| SecondTrip.RestoreTwice | cmd/sorobeacon/backup.go:498-763 | both round trips called one after the other on two empty stores, for every valid backup, stopped or not |
| SecondTrip.LinkIsUncovered | internal/store/store.go:410-431 | rules that change again in a second round trip |
| SecondTrip.HiddenLinkIsRefused | internal/store/store.go:410-431 | valid rules that are stored once as valid rules and then refused |
| Flapping.DetectFlapping | internal/alerts/flapping.go:32-77 | in terms of the alerts and the configuration, with 3 episodes, 15 minutes and 2 minutes where it has no positive value: maximal runs touching the window, alerts in it, its alerts of the last run, and flapping exactly when the runs reach the threshold |
| Flapping.SelectTimes | internal/alerts/flapping.go:43-53 | the alerts from one quiet period before the window up to now |
| Flapping.ScanTimes | internal/alerts/flapping.go:56-74 | the loop over the sorted times computes the tally of the pass |
| Flapping.ScanIsReference | internal/alerts/flapping.go:56-76 | on sorted times the tally is the declarative state |
| Flapping.EpisodesAreLeaders | internal/alerts/flapping.go:58-70 | the maximal runs touching the window are counted by the gaps inside it |
| Flapping.EpisodeStartsIff | internal/alerts/flapping.go:58-70 | an episode starts at an alert of the window more than a quiet period behind every earlier one in it |
| Flapping.WindowCountIs | internal/alerts/flapping.go:64-66 | the alerts in the window, both ends and repetitions included |
| Flapping.ReferencePermutation | internal/alerts/flapping.go:54 | the order of the alerts does not matter |
| Flapping.OlderAlertsIrrelevant | internal/alerts/flapping.go:43-53 | forgetting every alert before the window changes nothing |
| Flapping.EpisodesFitTheWindow | internal/alerts/flapping.go:54-76 | two or more episodes satisfy (episodes-1)*quiet < window, so a threshold beyond that is never reached |
| Flapping.OneMoreAlert | internal/alerts/flapping.go:54-75 | one more alert changes the episodes by at most one either way, and the alert count exactly when it is in the window |
| Routes.PatternMatches | internal/auth/route_table.go:109-125 | true exactly when the segments agree in number and each is a parameter or equal |
| Routes.LiteralSegments | internal/auth/route_table.go:137-145 | the number of segments that are not parameters |
| Routes.NormalizedForm | internal/auth/route_table.go:89-105 | a normalized path is the root, or starts and does not end with a slash |
| Routes.NormalizedDrops | internal/auth/route_table.go:89-105 | normalizing puts a slash before the trimmed path if it has none, drops slashes from its end and changes nothing else |
| Routes.SegmentsJoin | internal/auth/route_table.go:126-133 | no segment has a slash, the first one is not empty, and the normalized path is its leading slashes and the segments joined by slashes; the root has none |
| Routes.SegmentMatchesIff | internal/auth/route_table.go:115-122 | a pattern segment matches the same text and, in braces, any |
| Routes.LiteralsCount | internal/auth/route_table.go:137-145 | the literals are the segments that are not in braces |
| Routes.NormalizedTwiceIff | internal/auth/route_table.go:89-105 | normalizing twice changes the path exactly when, trimmed and without its trailing slashes, it ends in a space |
| Routes.NormalizingTwiceCanChange | internal/auth/route_table.go:89-105 | a path for which it does |
| Routes.ExactIsMostSpecific | internal/auth/route_table.go:40-46 | no pattern that matches a path has more literals than the path read as a pattern |
| Routes.CoversIff | internal/auth/route_table.go:56-66 | an entry covers a request when its method agrees up to case with the request's and each segment of its pattern is in braces or equal |
| Routes.ExactKeyText | internal/auth/route_table.go:51-55 | the key tried first is the method, trimmed and in upper case, a space and the normalized path |
| Routes.NewRouteTable | internal/auth/route_table.go:29-37 | the entries are kept and their keys listed once, in order |
| Routes.FindBest | internal/auth/route_table.go:56-70 | the loop keeps the first of the patterns with the most literals |
| Routes.Lookup | internal/auth/route_table.go:39-74 | for every way to fold case: an entry is returned unless none covers the request, and it is the exact key or the first of the most specific ones |
| Routes.ExactKeyIff | internal/auth/route_table.go:51-55 | in a well-keyed table the exact-key shortcut returns a most specific entry exactly when the method has no space |
| Routes.AnswerIsDetermined | internal/auth/route_table.go:21-37 | the answer is fixed by the entries, not by the order a map is walked in |
| Routes.AnswerIsMostSpecificIff | internal/auth/route_table.go:39-74 | the answer is a most specific covering entry except for an exact key formed by a method with a space |
| Routes.SpacedMethodIsMisrouted | internal/auth/route_table.go:51-55 | such a request |
| Paging.ListingIsComplete | internal/store/postgres.go:2704-2774 | the listing holds each matching alert once, by time and id, ascending or descending |
| Paging.RemainingIsComplete | internal/store/postgres.go:2755-2772 | from a cursor on, exactly the matching alerts behind its row, in order; none for an unknown cursor |
| Paging.NextCursor | internal/store/postgres.go:2755-2772 | the cursor on the n-th remaining row leaves exactly the rows behind it |
| Paging.ExportAlertsCsv | internal/api/alerts.go:194-265 | the export terminates and writes the remaining rows in order, none skipped or repeated: all of them, or as many as the limit, which is 10000 unless it lies between 1 and that |
| Paging.ListAlertsPage | internal/api/alerts.go:131-166 | a page of at most the limit, 50 unless it lies between 1 and 500; a cursor exactly when the page is full; without one the page is all that was left, with one the page and what the cursor lists make up what was left |
| Paging.FollowCursor | internal/api/alerts.go:139-153 | following the cursor with any limits visits every row of the listing once, in order |
| Templates.ReplaceIsFill | internal/api/templates.go:648-650 | one ReplaceAll fills the placeholders of one parameter and touches nothing else |
| Templates.OneByOneIsSimultaneous | internal/api/templates.go:641-652 | when no placeholder of a later parameter starts in an earlier value, the parameters replaced one by one give the simultaneous substitution of every clean template |
| Templates.EveryStageIsSimultaneousIff | internal/api/templates.go:641-652 | for all parameters: every stage of the loop is the simultaneous substitution of the parameters so far, for all clean templates, exactly when no placeholder of a later parameter starts in an earlier value, or that parameter is its own placeholder |
| Templates.DisturbedValueBreaks | internal/api/templates.go:648-650 | otherwise the first disturbing parameter breaks a template |
| Templates.DisturbancesCanCancel | internal/api/templates.go:648-650 | at the end of the loop alone two disturbances can undo each other |
| Templates.PlainIsQuiet | internal/api/templates.go:648-650 | no placeholder starts in a value without a double brace that does not end in a brace |
| Templates.SubstituteParams | internal/api/templates.go:641-652 | the loop replaces the parameters in name order; under that condition the result is the simultaneous substitution for every clean reading of the text |
| AuditBucket.AuditLimiter.AllowWrite | internal/api/audit.go:188-214 | one call's decision and new table; a call without a source counts as "unknown", and no other source's bucket changes unless the table held more than 4096 |
| AuditBucket.TokensStayInRange | internal/api/audit.go:183-214 | in every reachable state tokens lie in [0, 50] and the table holds at most 4097 sources |
| AuditBucket.AdmissionIsBounded | internal/api/audit.go:183-214 | between resets a source gets at most 50 + 5 per second between its first and highest reading admitted, with clocks going back and forth |
| AuditBucket.SpacedSourceIsNeverRefused | internal/api/audit.go:183-214 | calls at least 0.2 s apart are all admitted, resets included |
| AuditBucket.FirstFiftyAdmitted | internal/api/audit.go:183-214 | the first fifty calls of a source without a bucket are admitted at any spacing, as long as the table is not reset |
| CliArgs.PermuteArgs | cmd/sorobeacon/cli.go:275-302 | the loop computes flags with their values, then positional arguments |
| CliArgs.PermutedIsPermutation | cmd/sorobeacon/cli.go:275-302 | a permutation that keeps the order of the flags and of the positional arguments |
| CliArgs.PermutedTwice | cmd/sorobeacon/cli.go:275-302 | permuting twice is permuting once |
| CliArgs.ReadForms | cmd/sorobeacon/cli.go:270-302 | the parser the arguments are meant for reads one or two dashes, a known name, and a value behind an equals sign, true for a boolean flag, or the next argument |
| CliArgs.ReadHasForm | cmd/sorobeacon/cli.go:270-302 | and reads nothing else as a flag |
| CliArgs.PermutedParsesTheSameIff | cmd/sorobeacon/cli.go:270-302 | for all argument lists, "--" included: the stopping parser reads the permuted arguments as a parser that reads on reads the original, errors included, exactly when no last flag takes a positional argument for its missing value and no "--" lets arguments overtake |
| CliArgs.TerminatorHarmlessIff | cmd/sorobeacon/cli.go:280-287 | a moved "--" keeps the order of the positional arguments exactly when nothing behind it is moved, or nothing positional stands before it and the rest is already in order |
| CliArgs.MissingValueTakesAPositional | cmd/sorobeacon/cli.go:296-299 | such arguments |
| CliArgs.TerminatorIsMoved | cmd/sorobeacon/cli.go:280-287 | with "--" positional arguments can change order |
| WideInts.QuoteUnsafeIntegers | clients/typescript/generator.go:898-972 | the scan terminates on every text and returns the specified one |
| WideInts.ScanToken | clients/typescript/generator.go:903-969 | one round of the loop copies exactly the first token, quoted when unsafe |
| WideInts.SkipString | clients/typescript/generator.go:905-923 | the loop over a string literal ends at its closing quote or the end of the text |
| WideInts.SkipNumber | clients/typescript/generator.go:925-952 | the number token is maximal and the integer test is right |
| WideInts.ShortIntegersAreSafe | clients/typescript/generator.go:953 | the sixteen-character test hides no unsafe integer |
| WideInts.QuotesExactlyTheUnsafeTokens | clients/typescript/generator.go:898-972 | every division of a text into tokens of the grammar is the same one, and the output quotes exactly its unsafe integers |
| WideInts.QuotedIdempotent | clients/typescript/generator.go:898-972 | quoting twice is quoting once |
| WideInts.UnchangedIffSafe | clients/typescript/generator.go:898-972 | a text is left alone exactly when it has no unsafe integer |
| WideInts.NothingUnsafeIsLeft | clients/typescript/generator.go:898-972 | no unsafe integer token is left in the output |
| LexicalForms.NumberIff | clients/typescript/generator.go:925-952 | a number token is a sign or a digit and digits, then a fraction and an exponent, either missing or without digits |
| LexicalForms.IntegerIff | clients/typescript/generator.go:925-960 | an integer token is an optional sign and digits, and is unsafe exactly when the digits make more than 9007199254740991 |
| LexicalForms.QuotedByToken | clients/typescript/generator.go:898-972 | for every division of a text into tokens, the output is the same tokens one after the other, each integer beyond 9007199254740991 either way between quotes |
| LexicalForms.ClosedIff | clients/typescript/generator.go:905-923 | a closed string token is a body between quotes: escapes with what they escape, and anything else but a quote |
| SchemaSort.CollectDirectSchemaDeps | clients/python/generator.go:432-445 | exactly the names that a reference at some position of the schema names, positions being any depth of properties, items and additional properties |
| SchemaSort.DirectDepsIff | clients/python/generator.go:432-445 | a name is a direct dependency exactly when some position holds a reference to it |
| SchemaSort.Sorter.Visit | clients/python/generator.go:457-480 | a visit terminates on any graph, finishes what it opens and keeps dependencies first up to cycles |
| SchemaSort.SortSchemasTopologically | clients/python/generator.go:447-486 | every schema is listed once, each one it refers to first unless that reaches back, and each before it reached from a name not after its own |
| SchemaSort.TopologicalIffAcyclic | clients/python/generator.go:447-486 | the order is topological exactly when the schemas are acyclic |

## Left out

- Chain ingestion, rule evaluation, notification delivery, escalations, maintenance windows, the dashboard and the rest of the API: they would mostly add members without a property across them.
- Idempotency: request hashing and body limits are inputs of the model.
- OIDC: token verification, claim parsing and the validation of mapping rules are inputs of the model.
- Roles: the mapping from token scopes to roles; only the order of roles is used.
- Sessions: static tokens and database tokens; session ids are taken to be fresh.
- BackupData.ValidateBackup: the JSON and URL parsers are parameters; error texts are not modelled; durations do not wrap around at 64 bits; JSON columns are compared as texts and times are whole.
- BackupStore.Store.CreateMonitor: database errors, which can also refuse a write, are not modelled; a store is one workspace.
- BackupRoundTrip.RoundTrip: of the URL parser only this is used: writing the scheme of a link in lower case leaves it the same link.
- Flapping.DetectFlapping: times are integers and do not saturate.
- Paging.ExportAlertsCsv: the filter is a predicate; the retention cutoff, the replica fallback, write errors and the CSV columns are left out.
- Templates.SubstituteParams: the validation of parameters and of the resulting rule is left out.
- AuditBucket.AuditLimiter.AllowWrite: tokens and clocks are reals, not floating-point numbers.
- CliArgs.PermutedParsesTheSameIff: the conversion of flag values and the help flag are left out; no flag has the empty name.
- WideInts.QuoteUnsafeIntegers: a text is a sequence of characters, and the conversion to BigInt never fails on an integer token.
