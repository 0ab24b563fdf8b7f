# kubelogin-daemon: a verified model of its core

kubelogin-daemon keeps OIDC tokens alive in one long-lived process. This project models the parts of it that are
stateful, concurrent or backed by disk, and proves what they promise for every input, every run and every interleaving.
`dafny verify dfyconfig.toml` checks all of it.

| file | models |
|---|---|
| TokenManager.dfy | the token manager object: timers, wait group, stop flag, backoff |
| TokenRuns.dfy, TokenSafety.dfy, RefreshTokens.dfy, TokenProgress.dfy | every interleaving of timers, callbacks, refresh callers, logins, evictions and Stop on one manager |
| TokenDisk.dfy | what those interleavings leave in the manager's token file |
| LoginStates.dfy | the per-key login state machine and its three-pass eviction |
| ManagerCache.dfy, CacheRefinement.dfy, CacheSafety.dfy, CacheStates.dfy, DaemonServer.dfy | the 256-entry manager cache with write-back to disk, against an unbounded map |
| TokenFiles.dfy, FileRuns.dfy, FileSafety.dfy, FileDurability.dfy | token files: one writer, then any number of writers, loaders, crashes and cleanups, one file-system call at a time |
| Migration.dfy | the move of token files from the legacy directory |
| Sanitizer.dfy | the log sanitizer |
| ExecArgs.dfy, FlagNames.dfy, FlagMeanings.dfy, SetupArgs.dfy | the exec-argument parser, what each flag means, and the printer the parser should undo |
| Chaos.dfy | the stress test's chaos loops |
| Common.dfy, CacheKeys.dfy | an option type, map cardinalities, cache keys |

Objects that the program updates in place are classes whose methods are proved to compute a function on the object's
value; the properties are proved of runs of those functions. Instants and durations are integers (nanoseconds) on a
monotone clock, and 0 or `None` is Go's zero time. Timers, the provider, random draws, map iteration orders and failures of system calls are inputs, so
each result holds for all of them.

## What does not hold as promised

- Retry backoff (pkg/daemon/token_manager.go:349): the documented sequence holds for the first 2^64 consecutive failures and, after
  the counter wraps, exactly when the exponent has reached its cap again (`BackoffExact`).
- Write-back on eviction (pkg/daemon/server.go:1234-1237): a manager whose refresh token is empty is written but not reloaded, so the
  daemon asks for a login it did not need; and the eviction deletes the state entry (pkg/daemon/server.go:1250), so it forgets that a
  login is in progress. Get-token cannot tell exactly when the refresh token is not empty and no login of the key is in progress
  (`EvictionVisibleIff`); check cannot tell exactly in the cases of `EvictionCheckIff`.
- Persisting (pkg/daemon/persist.go:275-285): a record whose encoding is over 10 MB is written without complaint and deleted by the
  first load (`PersistLoadExact`, `DeletesIff`). The load deletes by name, so it can take a newer good record with it
  (`OversizedTakesNewer`). Store-token bounds each token to 1 MB, but a refreshed token is not bounded.
- Durability (pkg/daemon/persist.go:56-57): the directory is not synced, so a crash may undo a rename and bring back an earlier record
  (`CrashBringsBack`), always a whole one. What a key holds survives every crash exactly when it is what the key held after the last one,
  every rename since carried the same record and no load has rejected the file (`DurableIff`, `DurableInRunIff`).
- Persisting the current token (pkg/daemon/token_manager.go:401-405, 447-458): the watchdog, like an eviction (pkg/daemon/server.go:1238-1240),
  loads an entry first and writes it later, so it can put a spent refresh token back over a newer one (`SpentTokenReturns`). Once every
  install has been written the file agrees with memory exactly when no other record has been written since the current one
  (`DiskAgreesIff`), and it can only disagree through such an overlap (`StaleWriteOverlaps`).
- GetState (pkg/daemon/state.go:57-71): between its two locked sections the key may go, and the lapsed login is then reported as one
  in progress, exactly in the case `SplitGetExact` gives.
- Migration (pkg/daemon/persist.go:174, 196): a Stat of the destination that fails for any reason reads as "not there", so an existing file can be
  replaced (`DestinationKeptIff`), and a source file over 10 MB is cut and then deleted (`MovedIntactIff`).
- Flag spellings (main.go:2257-2301): the equivalent spellings of a flag agree exactly when no earlier flag takes the argument as
  its value, and `-x` agrees with `--x` only for names of two bytes or more (`SplitSpellingIff`, `DashSpellingIff`, `SwallowedDiffers`).
- Setup round trip (main.go:629-652): it holds exactly for comma-free, trimmed, non-empty scopes and parameter and header keys without an equals sign (`RoundTripIff`).
- CompleteLogin (pkg/daemon/state.go:142-143): documented as a no-op outside LOGIN_IN_PROGRESS; the code always sets VALID, so there it
  is one exactly for a key that is VALID already (`CompleteIsNoOpIff`).
- Stop (pkg/daemon/token_manager.go:468-470): documented as leaving no refresh in progress; it waits for timer callbacks only, so a refresh led
  by a request can outlive it (`RefreshCanOutliveStop`), exactly when some caller of Refresh still waits for one (`RefreshOutlivesStopIff`).
- Chaos exclusion (stresstest/internal/chaos/engine.go:27-31): the comment says two minutes; the code and the model use six. The global
  cooldown is not checked again after a wait, so two loops can act at the same instant (`CooldownCanBeMissed`); it is kept exactly when
  the guard would be false again at the stamp (`CooldownKeptIff`), as it always is for a loop that did not wait (`CooldownWithoutWait`).

## Model

| member | source | states |
|---|---|---|
| TokenManagers.Normalize | pkg/daemon/token_manager.go:98-106 | settings in range are kept, and the others become 0.8, 10 s and 5 min |
| TokenManagers.BaseRange | pkg/daemon/token_manager.go:354-361 | the backoff base is 1, 2, 4, 8, 16 or 30 s for every 64-bit count, and the shifted product cannot overflow an int64 |
| TokenManagers.RetryDelayBounds | pkg/daemon/token_manager.go:343-369 | every retry delay is positive, within the remaining lifetime, below 37.5 s, and within [0.75, 1.25) of the base unless the lifetime cuts it; no int64 overflow |
| TokenManagers.BackoffExact | pkg/daemon/token_manager.go:340-361 | the base after n failures is min(2^(n-1), 30) s if and only if n is at most 2^64 or the wrapped exponent is at its cap |
| TokenManagers.BackoffDelay | pkg/daemon/token_manager.go:354-369 | the shift, cap, jitter and cut compute the delay those bounds are about |
| TokenManagers.RefreshDelayExact | pkg/daemon/token_manager.go:274-282 | the proactive wait is the margin's share of the lifetime, rounded down, or the minimum interval if that is longer |
| TokenManagers.ScheduleExact | pkg/daemon/token_manager.go:259-285 | scheduling leaves one pending refresh for a live token, none for a dead one, changes nothing on a stopped manager and spares the watchdog |
| TokenManagers.RescheduleExact | pkg/daemon/token_manager.go:319-372 | the same for a retry |
| TokenManagers.TokenManager.constructor | pkg/daemon/token_manager.go:97-121 | a new manager has no token, no timer, no slot taken and settings in range |
| TokenManagers.TokenManager.TimerStop | pkg/daemon/token_manager.go:267-271 | stopping a timer reports true exactly when it was still pending |
| TokenManagers.TokenManager.StopAndRelease | pkg/daemon/token_manager.go:266-272 | a timer stopped before it fired gives back its slot; one that fired does not |
| TokenManagers.TokenManager.ScheduleProactiveRefresh | pkg/daemon/token_manager.go:259-285 | the whole new state: the old timer gone, a new one at the margin of the lifetime, or none for a dead token or a stopped manager |
| TokenManagers.TokenManager.ScheduleRetry | pkg/daemon/token_manager.go:319-372 | the whole new state: the old timer gone, the counter bumped with wrap-around, a retry timer unless the token is dead |
| TokenManagers.TokenManager.StartPersistWatchdog | pkg/daemon/token_manager.go:406-420 | at most one watchdog is started, none on a stopped manager |
| TokenManagers.TokenManager.RearmPersistWatchdog | pkg/daemon/token_manager.go:433-441 | the watchdog's own rearming, none once stopped or cancelled |
| TokenManagers.TokenManager.StopUnderLock | pkg/daemon/token_manager.go:471-495 | the first call stops both timers and releases the slots of those still pending; later calls change nothing |
| TokenManagers.TokenManager.SetInitialToken | pkg/daemon/token_manager.go:125-135 | the token is installed, then its refresh and the watchdog are scheduled, each section with its own clock reading |
| TokenRuns.StopBothEmpties | pkg/daemon/token_manager.go:482-494 | stopping the two named timers leaves no timer pending, although a field may name a timer that is long gone |
| TokenRuns.RearmKeeps | pkg/daemon/token_manager.go:422-441 | a rearming watchdog callback is the only one, so its successor is too, and the slot count stays exact |
| TokenRuns.StoppedStays | pkg/daemon/token_manager.go:471-477 | no step of any goroutine clears the stop flag |
| TokenRuns.AirStep | pkg/daemon/token_manager.go:191-256 | a flight someone waits for stays active or lands; it never vanishes |
| TokenRuns.InvStep | pkg/daemon/token_manager.go:125-500 | every atomic step of every goroutine keeps the accounting of timers, slots, stop calls and waiting callers |
| TokenRuns.InvRun | pkg/daemon/token_manager.go:125-500 | so it holds in every state of every run |
| TokenSafety.WaitGroupExact | pkg/daemon/token_manager.go:259-499 | in every run the wait group equals pending timers plus unfinished callbacks, is never negative, and at most one refresh and one persist timer are pending |
| TokenSafety.AddsPrecedeStop | pkg/daemon/token_manager.go:259-477 | every Add, also one that a Done in the same section cancels out, arms a new timer while the manager is not stopped before or after it |
| TokenSafety.StopIsFinal | pkg/daemon/token_manager.go:465-500 | once the stopping call has returned nothing is pending and no callback runs, ever, whatever is called later |
| TokenSafety.StopCanReturn | pkg/daemon/token_manager.go:497-500 | from every reachable stopped state the callbacks and the flight alone can run until the wait group is zero: Stop cannot deadlock |
| TokenSafety.CrewRun | pkg/daemon/token_manager.go:191-192 | in every run an active refresh has a callback or a caller waiting for it |
| TokenSafety.RefreshOutlivesStopIff | pkg/daemon/token_manager.go:465-500 | when Stop returns a refresh is in progress if and only if a caller of Refresh that is no timer callback still waits for one |
| TokenSafety.RefreshCanOutliveStop | pkg/daemon/token_manager.go:465-500 | a run in which the refresh token is on its way to the provider when Stop has returned |
| RefreshTokens.TokensConserved | pkg/daemon/token_manager.go:191-256 | a step moves refresh tokens around or brings in the one a login or the provider gave; it makes up none |
| RefreshTokens.TokenHasOrigin | pkg/daemon/token_manager.go:125-256 | every refresh token held in a run was brought in by an earlier login or provider answer |
| RefreshTokens.SpentTokenStaysRetired | pkg/daemon/token_manager.go:191-256 | with a rotating provider and fresh logins, a refresh token whose provider call succeeded is never presented again in any interleaving |
| RefreshTokens.PresentedNonEmpty | pkg/daemon/token_manager.go:201-217 | the provider is never presented an empty refresh token |
| RefreshTokens.RefreshTokenKept | pkg/daemon/refresher.go:170-179 | between logins a held refresh token stays non-empty, and no flight ends for want of one |
| RefreshTokens.LandedFlightExact | pkg/daemon/token_manager.go:191-256 | a landed flight succeeded with an entry if and only if it installed that entry; a failed one installed nothing |
| RefreshTokens.OutcomeIsStable | pkg/daemon/token_manager.go:182-192 | all callers that joined a flight read the same outcome |
| RefreshTokens.CurrentChanges | pkg/daemon/token_manager.go:132-235 | the current entry changes only by a login or by a flight that installs what it received |
| RefreshTokens.CounterExact | pkg/daemon/token_manager.go:242-245 | the retry counter is the number of consecutive failures since the last success, modulo 2^64 |
| RefreshTokens.RetrySchedule | pkg/daemon/token_manager.go:319-372 | over a run the n-th consecutive failure of a live token, for every n at which the documented base holds, arms a retry within a quarter of min(2^(n-1), 30) s, or at the end of its life |
| TokenProgress.ProactiveArmed | pkg/daemon/token_manager.go:246-285 | in every run, the scheduling step of a login or a refresh on a running manager leaves one refresh pending for its entry, due at the margin's share of the remaining lifetime or after the minimum interval; an expired token leaves none |
| TokenProgress.SuccessSchedules | pkg/daemon/token_manager.go:235-249 | a refresh reports success only in the step that schedules the next one |
| TokenProgress.LoginScheduled | pkg/daemon/token_manager.go:125-135 | a login that gets to the watchdog or to persisting has taken its scheduling step |
| TokenProgress.FlightExact | pkg/daemon/token_manager.go:193-235 | which token a refresh presents, with what it ends for a missing or empty token or a denial, and which entry a grant gives |
| TokenProgress.RetriedIff | pkg/daemon/token_manager.go:305-312 | a callback whose refresh has landed goes on to a retry if and only if the failure is transient or there was no token, and there is an entry to retry for: its own, or the current one; otherwise it ends |
| TokenProgress.FiredCalls | pkg/daemon/token_manager.go:298-305 | a fired refresh timer joins or leads a refresh if and only if the manager is not stopped |
| TokenProgress.RetryFollows | pkg/daemon/token_manager.go:386-399 | from a landed failure on: the callback's next step but one arms the retry, in the band of the n-th consecutive failure |
| TokenProgress.DeadTokenNotRetried | pkg/daemon/token_manager.go:343-347 | a retry for a token that has expired arms nothing |
| TokenProgress.WatchdogNeverDies | pkg/daemon/token_manager.go:406-441 | in every run, once a login gets to persisting, the watchdog of a running manager is pending and due within one interval or its callback is on the way to rearming it |
| TokenProgress.WatchdogWritesIff | pkg/daemon/token_manager.go:443-458 | the watchdog writes the current entry if and only if the manager is not stopped and one of its tokens is not empty |
| TokenProgress.EvictionStops | pkg/daemon/server.go:1245-1247 | an eviction ends with the manager stopped and no timer pending |
| TokenDisk.DiskExact | pkg/daemon/token_manager.go:237-240 | whichever writes fail, the token file holds a record if and only if it was there or was written and no other has been written since |
| TokenDisk.FindInstall | pkg/daemon/token_manager.go:132-235 | the current entry was made current by a last login or refresh |
| TokenDisk.OwnWrite | pkg/daemon/token_manager.go:235-240 | an entry that a login or a refresh has installed, and that it no longer owes a write, has been written after its install |
| TokenDisk.HeldSince | pkg/daemon/token_manager.go:447-458 | what a writer holds was current when it loaded it, the ID token and, for an eviction, later the refresh token, and it has held it ever since |
| TokenDisk.DiskAgreesIff | pkg/daemon/token_manager.go:235-458 | once every install has been written, the file agrees with the current entry if and only if every write of another record has been followed by one of the current record |
| TokenDisk.StaleWriteOverlaps | pkg/daemon/token_manager.go:447-458 | if it does not agree, the last writer loaded before the current entry was installed and wrote after that entry had been written |
| TokenDisk.SpentTokenReturns | pkg/daemon/token_manager.go:443-458 | for every rotating answer there is a run that ends with the new entry current and the spent refresh token back on disk |
| LoginStates.StateManager.constructor | pkg/daemon/state.go:37-41 | a new state manager knows no key |
| LoginStates.StateManager.ReadEntry | pkg/daemon/state.go:47-58 | the first locked section reads the entry and tells whether the login in it has lapsed |
| LoginStates.StateManager.SettleEntry | pkg/daemon/state.go:59-70 | the second settles a login that has lapsed by then, and keeps the first reading only if the key is gone |
| LoginStates.StateManager.Get | pkg/daemon/state.go:46-74 | with nothing in between, a lapsed login is settled to NEEDS_LOGIN and every other key is reported as it is |
| LoginStates.SplitGetExact | pkg/daemon/state.go:46-74 | whatever happens in between, an answer of the first section is right at that time, and one of the second is right if and only if the key is still there |
| LoginStates.StateManager.Set | pkg/daemon/state.go:77-91 | the new state, with a start time exactly for a login |
| LoginStates.StateManager.Begin | pkg/daemon/state.go:96-118 | a login begins, with a second clock reading, unless an unexpired one is in progress, whose start is returned |
| LoginStates.StateManager.Cancel | pkg/daemon/state.go:122-133 | only a login in progress is cancelled |
| LoginStates.StateManager.Complete | pkg/daemon/state.go:144-154 | the key is VALID, without a start time |
| LoginStates.CompleteIsNoOpIff | pkg/daemon/state.go:142-154 | completing a login that is not in progress changes nothing if and only if the key is VALID already |
| LoginStates.ReportedExact | pkg/daemon/state.go:46-74 | a key is reported as recorded, or as NEEDS_LOGIN if it is absent or its login is over five minutes old, and then left so |
| LoginStates.ReadBack | pkg/daemon/state.go:77-154 | the state a key is reported in after each operation; a begin succeeds exactly without an unexpired login and otherwise returns its recorded start |
| LoginStates.OtherKeysKept | pkg/daemon/state.go:46-154 | no operation but an eviction touches another key |
| LoginStates.CancelFrees | pkg/daemon/state.go:120-133 | after a cancel the next begin succeeds at once |
| LoginStates.RefusedBeginExact | pkg/daemon/state.go:111-113 | in every run a refused begin returns the start of the login that holds |
| LoginStates.StateManager.Delete | pkg/daemon/state.go:136-140 | exactly that key is forgotten |
| LoginStates.StateManager.FirstPass | pkg/daemon/state.go:172-176 | in every iteration order exactly the NEEDS_LOGIN entries go |
| LoginStates.StateManager.SecondPass | pkg/daemon/state.go:181-186 | in every iteration order exactly the lapsed logins go |
| LoginStates.StateManager.ThirdPass | pkg/daemon/state.go:191-198 | VALID and REFRESHING entries go in iteration order until the map fits |
| LoginStates.StateManager.EvictStaleEntries | pkg/daemon/state.go:165-199 | the three passes, each only while the map is still too large |
| LoginStates.EvictionBounded | pkg/daemon/state.go:160-199 | afterwards at most 1024 entries are left, or every one is an unexpired login; what is left is unchanged and no unexpired login is ever evicted |
| LoginStates.EvictionStaged | pkg/daemon/state.go:165-199 | eviction goes no further than it must: a map of at most 1024 is left alone, each pass runs only while more than 1024 entries would be left, and the third stops at 1024 |
| LoginStates.WellFormedStep | pkg/daemon/state.go:46-199 | every operation keeps LOGIN_IN_PROGRESS if and only if a start time is recorded |
| LoginStates.WellFormedRun | pkg/daemon/state.go:46-199 | so it holds throughout every run |
| LoginStates.FirstTwoPassesInvisible | pkg/daemon/state.go:171-186 | dropping idle entries and lapsed logins changes no answer to any later sequence of calls on any keys |
| LoginStates.LoginHeld | pkg/daemon/state.go:46-199 | a begun login stays in place while its TTL runs, whatever else is called |
| LoginStates.LoginsSpaced | pkg/daemon/state.go:96-118 | with no reset in between, the clock reading of a successful begin is over five minutes past the recorded start of every earlier one |
| ManagerCache.MakeRoomExact | pkg/daemon/server.go:542-550 | at the cap there is always a manager to evict, and afterwards there is room |
| ManagerCache.AdmissionExact | pkg/daemon/server.go:537-574 | admitting a loaded or stored token keeps the count exact and at most 256; neither rejection for want of an evictable manager can happen |
| CacheRefinement.WriteBackSilent | pkg/daemon/server.go:1234-1247 | writing a manager back before dropping it loses no key's tokens |
| CacheRefinement.LoadedSound | pkg/daemon/server.go:520-535 | a reloaded record gets from its token the expiry it had in memory |
| CacheRefinement.GetOrCreateSilent | pkg/daemon/server.go:478-575 | loading on demand finds a manager exactly for keys with tokens that are not on disk alone without a refresh token, and changes no key's tokens even when it evicts |
| CacheRefinement.RefreshRefines | pkg/daemon/token_manager.go:191-256 | a refresh replaces the tokens of its key alone, keeping the refresh token if none came back; an empty refresh token or a failure changes nothing |
| CacheRefinement.GetRefines | pkg/daemon/server.go:418-474 | get-token answers as the unbounded map does, but for keys on disk alone without a refresh token, and reports a login in progress exactly when there is one |
| CacheRefinement.StoreRefines | pkg/daemon/server.go:749-843 | store-token puts the tokens of its key in the map, an empty refresh token included, or rejects a bad request and changes nothing |
| CacheRefinement.CheckRefines | pkg/daemon/server.go:897-1013 | check changes no tokens; it is ready, with that token's expiry, if and only if the key is valid, its token has not expired and, if it is in memory, its state is VALID |
| CacheRefinement.WatchdogRefines | pkg/daemon/token_manager.go:447-458 | the watchdog's write changes no key's tokens |
| CacheRefinement.StepRefines | pkg/daemon/server.go:418-983 | every handler, login step and background action of the bounded server is a step of the unbounded map with the same answer; a background refresh renews the tokens exactly of a key in memory with a refresh token when the grant succeeds |
| CacheRefinement.CacheRefinesMap | pkg/daemon/server.go:418-1258 | in every run, logins, cancellations and state evictions included, the answers and the tokens are those of the unbounded map; which keys are not reloaded or not refreshed, which gets are put off and which checks are ready is stated exactly |
| CacheSafety.CountRun | pkg/daemon/server.go:418-1258 | in every run of any requests, tokens and files the count equals the number of managers and is at most 256, there is always room or a manager to evict, and nothing is rejected for want of one |
| CacheSafety.CountBySections | pkg/daemon/server.go:537-574 | the same however the locked sections of any number of handlers interleave, also when another request has admitted or evicted the key in between; each admission leaves its key in the cache |
| CacheSafety.StoreIsSections | pkg/daemon/server.go:796-840 | the store handler is those sections in a row: admission under the mutex, install, write, and the key set to VALID |
| CacheSafety.NothingLost | pkg/daemon/server.go:499-502 | if no empty refresh token is on disk at the start or stored, every key with tokens is reloaded in every run, so the map alone decides |
| CacheSafety.ReadyMeansToken | pkg/daemon/server.go:925-983 | a ready check with a valid refresh token is kept by a get at the same clock reading, with the same expiry, from memory or disk and at the cap |
| CacheSafety.EvictionVisibleIff | pkg/daemon/server.go:1234-1250 | evicting a manager is invisible to the next get, forced or not, expired or not, if and only if its refresh token is not empty and no login of the key is in progress |
| CacheSafety.EvictionCheckIff | pkg/daemon/server.go:925-989 | evicting a manager is invisible to the next check if and only if the token is good and the state VALID, or it has expired without a refresh token and the state is VALID or NEEDS_LOGIN |
| CacheStates.StoredIsServed | pkg/daemon/server.go:749-843 | a stored token is served by every get without force and reported ready by every check until it expires, whatever login was in progress |
| CacheStates.StoreEndsLogin | pkg/daemon/server.go:839-840 | in every run, after a store no get of the key is put off before the next begin of the key |
| CacheStates.BegunLoginHolds | pkg/daemon/server.go:856-868 | a begun login puts gets and begins off, with its start, for five minutes, and touches no tokens |
| CacheStates.CancelledLoginFrees | pkg/daemon/server.go:888-894 | after a cancel a login can begin at once, and no tokens are touched |
| CacheStates.FailureCodes | pkg/daemon/server.go:1084-1115 | the code of a failed refresh: revoked, unreachable or failed, by its cause |
| CacheStates.StateAfterGet | pkg/daemon/server.go:444-473 | the login state a get leaves: VALID with a token, NEEDS_LOGIN with a failure, unchanged while a login is in progress |
| CacheStates.GetSparesStates | pkg/daemon/server.go:443-473 | a get touches the login states of its own key and of the manager it evicts |
| CacheStates.NotReadyExact | pkg/daemon/server.go:949-1013 | the reply of a check that is not ready, and the state it leaves, for every state of the key |
| CacheStates.BadKeysRefused | pkg/daemon/server.go:897-923 | a malformed key is refused by every request and changes nothing; a check without a key reports NEEDS_LOGIN |
| CacheStates.UnreadableExpires | pkg/daemon/server.go:520-533 | a reloaded token whose expiry cannot be read counts as expired at any later clock reading |
| CacheStates.LastAccessExact | pkg/daemon/token_manager.go:144 | in every run a manager's last access is the second of the last request that used it: the admission, a get that found it, or a check of a VALID key |
| CacheStates.EvictedIsLeastRecent | pkg/daemon/server.go:1214-1228 | so the manager an eviction picks was last used no later, to the second, than any other |
| CacheStates.RestartKeepsTokens | pkg/daemon/server.go:834-837 | in every run a daemon that stops and starts again on its directory holds the tokens it held |
| CacheStates.WatchdogHeals | pkg/daemon/token_manager.go:401-405 | whatever has become of a key's file, the watchdog puts the tokens in memory back, unless both are empty |
| DaemonServers.OldestExists | pkg/daemon/server.go:1219-1232 | a cache that is not empty has a least recently used manager |
| DaemonServers.DaemonServer.constructor | pkg/daemon/server.go:925-929 | a daemon starts with no manager and whatever its directory holds |
| DaemonServers.DaemonServer.EvictOldestManagerLocked | pkg/daemon/server.go:1214-1258 | for every iteration order the victim has minimal last access, is written to disk, and leaves with its state entry and its count; an empty cache is left alone |
| DaemonServers.DaemonServer.GetOrCreateTokenManager | pkg/daemon/server.go:478-575 | the whole new server state and whether a manager was found, for some least recently used victim |
| DaemonServers.DaemonServer.RefreshManager | pkg/daemon/token_manager.go:191-256 | a successful refresh updates memory and disk; an empty refresh token or a failure changes nothing |
| DaemonServers.DaemonServer.HandleGetToken | pkg/daemon/server.go:418-474 | the whole new server state and the reply |
| DaemonServers.DaemonServer.HandleStoreToken | pkg/daemon/server.go:749-843 | the whole new server state and the reply |
| DaemonServers.DaemonServer.HandleCheck | pkg/daemon/server.go:897-1013 | the whole new server state and the reply |
| DaemonServers.DaemonServer.HandleBeginLogin | pkg/daemon/server.go:845-875 | a login begins, or the start of the one in progress is returned; a bad key changes nothing |
| DaemonServers.DaemonServer.HandleCancelLogin | pkg/daemon/server.go:877-895 | the login of a valid key is cancelled; a bad key changes nothing |
| TokenFiles.FinalNameInjective | pkg/daemon/persist.go:80 | keys do not share a token file |
| TokenFiles.TempIsNotFinal | pkg/daemon/persist.go:86 | no temporary file has the name of any key's token file |
| TokenFiles.FinalIsNotTemporary | pkg/daemon/server.go:1277-1279 | the stale-file cleanup never matches a token file |
| TokenFiles.TempLooksTemporary | pkg/daemon/server.go:1278-1279 | the cleanup matches every temporary file of a writer and of the migration |
| CacheKeys.ValidKeysAre | pkg/daemon/persist.go:12-13 | a cache key is one to 128 hexadecimal digits |
| TokenFiles.TokenDir.PersistToken | pkg/daemon/persist.go:58-127 | an error before the rename leaves the directory as it was unless the temp file cannot be removed; after it the whole record is in place; no other name changes |
| TokenFiles.TokenDir.LoadPersistedToken | pkg/daemon/persist.go:257-302 | the answer, and deletion, where it succeeds, exactly of oversized, undecodable or unknown-version files |
| TokenFiles.PersistLoadExact | pkg/daemon/persist.go:257-302 | a persisted record that can be read loads back and stays if and only if its encoding is at most 10 MB; a larger one is deleted; other keys are unaffected |
| TokenFiles.LoadExact | pkg/daemon/persist.go:257-302 | for any file: a load gives its record if it is at most 10 MB and decodes to version 1, and otherwise an error without the file; an unreadable file stays |
| FileRuns.RenameKeeps | pkg/daemon/persist.go:111-119 | the rename publishes a whole synced record and disturbs no other writer or open loader |
| FileRuns.CrashKeeps | pkg/daemon/persist.go:101-116 | a crash at any point, which garbles unsynced files and may undo renames and removals name by name, leaves whole token files only |
| FileRuns.CleanupKeeps | pkg/daemon/server.go:1267-1293 | the cleanup removes no token file, and taking a live writer's name away harms nothing but that writer's rename |
| FileRuns.LoaderKeeps | pkg/daemon/persist.go:265-301 | a loader's step, also one that deletes, keeps every token file whole and disturbs no writer |
| FileRuns.InvStep | pkg/daemon/persist.go:58-127 | every file-system call of every writer and loader, failing or not, keeps every token file whole |
| FileRuns.InvRun | pkg/daemon/persist.go:58-127 | so every reachable state has whole token files only |
| FileSafety.FilesAreRegister | pkg/daemon/persist.go:58-127 | in every run the file of a key holds, whole, the record of the last rename for it or the one at the start, unless a crash since has brought back an earlier one, also whole |
| FileSafety.NeverLost | pkg/daemon/persist.go:58-127 | a token file that was there at the start is lost, crashes or not, only to a load that rejects it |
| FileDurability.DurableIff | pkg/daemon/persist.go:106-119 | what a key holds survives every crash if and only if every record published for it since the last one is the one it holds and, if it holds one, its name was there after that crash |
| FileDurability.PublishedSince | pkg/daemon/persist.go:116-119 | what a crash can bring back is what the key held after the last crash and what has been renamed into place since |
| FileDurability.DurableInRunIff | pkg/daemon/persist.go:56-127 | over runs: it survives every crash if and only if the key held it after the last one, every rename since carried the same record and no load has rejected the file |
| FileDurability.CrashBringsBack | pkg/daemon/persist.go:116-119 | whenever a record is held, there is a run in which a newer one is persisted in full and a crash brings the older one back |
| FileSafety.RegisterStep | pkg/daemon/persist.go:116-119 | between crashes only a rename for a key or a load that rejects its file changes what is held for it, to exactly that record or nothing |
| FileSafety.LoadIsAtomic | pkg/daemon/persist.go:257-302 | a load answers with what was held when it opened the file, whole, or with nothing if nothing was; it errs only for a bad key, a failed call of its own or a record over 10 MB |
| FileSafety.DeletesIff | pkg/daemon/persist.go:281-300 | a load changes the directory if and only if it read a record over 10 MB, can remove it and the name is there; nothing else but a crash takes a token file away |
| FileSafety.NothingDeleted | pkg/daemon/persist.go:281-300 | so, as long as every record fits, no load changes the directory and only a crash takes a token file away |
| FileSafety.OversizedTakesNewer | pkg/daemon/persist.go:277-285 | whenever a record over 10 MB is held, there is a run in which its loader deletes a good record renamed into place after it was read |
| FileSafety.CanPersist | pkg/daemon/persist.go:58-127 | in every reachable state a new writer with an unused name can persist its record, whatever the others are doing |
| FileSafety.NoTempLeft | pkg/daemon/persist.go:95-119 | once the writers are done only token files and orphans are left, and orphans come only from a crash or a failed removal |
| FileSafety.CleanupRemoves | pkg/daemon/server.go:1267-1293 | every temporary name can be cleaned up, and nothing else goes with it |
| Migration.AtomicWriteFile | pkg/daemon/persist.go:221-252 | the destination gets all the data or the directory is as it was, but for a temp file that could not be removed |
| Migration.MigrateTokens | pkg/daemon/persist.go:157-218 | the two directories after the loop; the legacy directory is removed exactly when every entry has been moved and the removal succeeds |
| Migration.OthersUntouched | pkg/daemon/persist.go:163-176 | files the loop does not list end as they began, in both directories |
| Migration.CopiedIff | pkg/daemon/persist.go:165-205 | a token file is copied if and only if Stat finds nothing at the destination and every call on the way succeeds |
| Migration.FateExact | pkg/daemon/persist.go:163-210 | the fate of each listed file depends on its own failures alone: copied, then removed, exactly when every check and write succeeds |
| Migration.TokensConserved | pkg/daemon/persist.go:173-209 | every regular token file of at most 10 MB ends byte-identical at the source or the destination, under any failures |
| Migration.MovedIntactIff | pkg/daemon/persist.go:196-208 | a moved file arrives byte-identical if and only if it is at most 10 MB |
| Migration.DestinationKeptIff | pkg/daemon/persist.go:173-205 | an existing destination keeps its content if and only if Stat finds it, or nothing is copied over it, or the bytes are the same |
| Sanitizer.IndexFrom | pkg/daemon/log.go:146-150 | the first occurrence of the prefix at or after the offset, or none |
| Sanitizer.TokenCharsAre | pkg/daemon/log.go:142-156 | a token starts with eyJ, and runs are made of the base64url characters and the dot |
| Sanitizer.RunEnd | pkg/daemon/log.go:152-161 | the end of the longest run of token characters |
| Sanitizer.Sanitize | pkg/daemon/log.go:141-171 | the loop terminates and computes the recursive specification |
| Sanitizer.NeverLonger | pkg/daemon/log.go:162-164 | the result is never longer than the message |
| Sanitizer.CutsExactly | pkg/daemon/log.go:141-171 | the message is cut into pieces of which exactly the whole token-like runs are replaced; everything else is kept in order |
| Sanitizer.ResultIsClean | pkg/daemon/log.go:138-171 | no position of the result starts a token-like run longer than ten characters |
| Sanitizer.CleanIsKept | pkg/daemon/log.go:141-171 | a message without token-like runs is unchanged |
| Sanitizer.Idempotent | pkg/daemon/log.go:141-171 | sanitizing twice is sanitizing once |
| ExecArgs.ParseExecArgs | main.go:2234-2416 | the index loop computes the scan into settings followed by their application |
| ExecArgs.ReadWhole | main.go:2272-2276 | "--flag=value" is read as that flag with that value, also when the value holds equals signs |
| ExecArgs.ScanAppends | main.go:2257-2301 | after a list that leaves no flag open, the scan starts afresh at a flag |
| ExecArgs.ScanSwallows | main.go:2288-2300 | an open flag takes the next argument as its value, whatever it is |
| ExecArgs.SplitSpellingIff | main.go:2272-2300 | "--flag=value" and "--flag" "value" give the same settings if and only if no earlier flag takes the argument |
| ExecArgs.DashSpellingIff | main.go:2265-2270 | "--flag" and "-flag", with or without a value, give the same settings if and only if the text has two bytes or more and no earlier flag takes it |
| ExecArgs.SplitIrrelevant | main.go:2234-2416 | so splitting a flag from its value does not change the parsed configuration |
| ExecArgs.DashIrrelevant | main.go:2234-2416 | nor does writing one dash for two |
| FlagMeanings.SwallowedDiffers | main.go:2288-2300 | after an open "--username" the two spellings of any flag give different configurations |
| FlagNames.LookupText | main.go:2303-2412 | each of the 28 flags is known by its text |
| FlagNames.TextOfLookup | main.go:2303-2412 | and no other key is known, but for the second spelling of the parameter flag |
| FlagMeanings.ParseAppends | main.go:2257-2416 | where a flag is read, what follows is applied on its own to the configuration parsed so far |
| FlagMeanings.TextFlags | main.go:2304-2411 | the thirteen flags that set one field to their value, field by field |
| FlagMeanings.BooleanFlags | main.go:2328-2405 | the seven boolean flags: on unless the value is "false", or a mode that is chosen unless it is |
| FlagMeanings.OtherFlags | main.go:2310-2402 | the flags that add to a list or a map or parse their value, and what each does with an empty value |
| FlagMeanings.OtherParamFlag | main.go:2354-2367 | the second spelling of the parameter flag adds a parameter too |
| FlagMeanings.UnknownFlag | main.go:2412-2414 | any other flag is skipped with its value |
| FlagMeanings.SwitchesAre | main.go:2240-2255 | exactly seven flags need no value |
| FlagMeanings.BareFlag | main.go:2278-2290 | a bare boolean flag is on and leaves the next argument alone unless it is true or false |
| FlagMeanings.FlagWithWord | main.go:2282-2286 | the words true and false are taken as its value, in lower case |
| FlagMeanings.BooleanWords | main.go:2282-2283 | a word is boolean exactly if it spells true or false in any case |
| FlagMeanings.PairExact | main.go:2361-2365 | a pair is split at its first equals sign, a value without one is a key alone, an empty one is ignored |
| FlagMeanings.TrimExact | main.go:2317 | trimming takes white space off both ends and nothing else |
| FlagMeanings.SplitExact | main.go:2316 | splitting at commas gives comma-free parts that join to the whole |
| FlagMeanings.PartsKept | main.go:2316-2321 | every part that is not blank is kept, trimmed, in order |
| SetupArgs.AppendPairs | main.go:638-643 | the pairs of a map are appended in the iteration order, one flag each |
| SetupArgs.AppendScopes | main.go:635-637 | the scopes are appended in order, one flag each |
| SetupArgs.BuildExecArgs | main.go:629-652 | the builder's loops compute the printed list for every iteration order |
| SetupArgs.PrintExact | main.go:629-652 | the list starts with the command, the issuer and the client, and has one argument for each scope, parameter, header and option that is set |
| SetupArgs.ParsePrinted | main.go:629-652 | for every configuration and iteration order, what the parser makes of the printed list |
| SetupArgs.ScopesRoundTripIff | main.go:2310-2324 | a scope list reads back as itself if and only if every scope is comma-free, trimmed and not empty |
| SetupArgs.PairsRoundTripIff | main.go:2354-2380 | a map reads back as itself, in every order, if and only if no key holds an equals sign |
| SetupArgs.RoundTripIff | main.go:629-652 | the parser undoes the printer, "auto" and "" both reading as "", if and only if the scopes and the keys are so |
| Chaos.Engine.constructor | stresstest/internal/chaos/engine.go:60-79 | a new engine has recorded nothing |
| Chaos.Engine.CooldownLeft | stresstest/internal/chaos/engine.go:169-170 | the wait is positive exactly within the cooldown, and ends with it |
| Chaos.Engine.StampChaos | stresstest/internal/chaos/engine.go:179 | only the time of the last chaos changes |
| Chaos.Engine.Admit | stresstest/internal/chaos/engine.go:189-199 | kill_daemon and delete_socket are turned away exactly within six minutes of the last corruption, and corrupt_token_files within six minutes of the last of those two |
| Chaos.Engine.Record | stresstest/internal/chaos/engine.go:209-213 | the corruption time is set for corrupt_token_files, the kill time for kill_daemon and delete_socket, and nothing else changes |
| Chaos.InvStep | stresstest/internal/chaos/engine.go:158-225 | every step of every loop keeps the mutex exclusive and the admission check valid until the action starts |
| Chaos.OneAtATime | stresstest/internal/chaos/engine.go:168-218 | no two loops are ever inside the mutex at once, so no two actions execute at once |
| Chaos.EndedBetween | stresstest/internal/chaos/engine.go:205-218 | an action that started has ended before its loop is anywhere else |
| Chaos.ExclusionAfterEnd | stresstest/internal/chaos/engine.go:181-213 | a kill_daemon or delete_socket action starts at least six minutes after the end of every earlier corrupt_token_files action, and the reverse |
| Chaos.ExclusionWindow | stresstest/internal/chaos/engine.go:158-218 | every earlier-started action that this one conflicts with has ended, six minutes or more before |
| Chaos.LastIsExact | stresstest/internal/chaos/engine.go:208-213 | a camp's last time is the time of its latest record, and is set exactly when there is one |
| Chaos.TurnedAwayIff | stresstest/internal/chaos/engine.go:189-199 | an action is turned away if and only if one that it conflicts with was recorded less than six minutes before |
| Chaos.ChaosIsExact | stresstest/internal/chaos/engine.go:179 | the last chaos time is the time of the latest stamp, and is set exactly when there is one |
| Chaos.CooldownKeptIff | stresstest/internal/chaos/engine.go:168-179 | a stamp is at least the cooldown after every earlier one if and only if the guard, looked at again at the stamp, is false |
| Chaos.CooldownWithoutWait | stresstest/internal/chaos/engine.go:168-179 | so a loop that did not wait always keeps the cooldown |
| Chaos.WaitedLongEnough | stresstest/internal/chaos/engine.go:169-179 | a loop that waited stamps no earlier than the cooldown after the stamp it saw when it entered |
| Chaos.CooldownCanBeMissed | stresstest/internal/chaos/engine.go:169-179 | for every positive cooldown there is a run of two different faults in which the loop that waited stamps at the same instant as the other |

## Left out

- Socket election, ownership and the starting guard: they have no clean invariant over all runs.
- OIDC discovery, HTTP, TLS, browser and device-code flows, JWT verification and decoding: the provider's answers and the expiry of a token are inputs.
- filterRequestHeaders and the blocked-parameter tables: filters over fixed tables, easy members only.
- handleRefresh, handleHealth, post-wake refresh, RegisterTokenManager, Shutdown: thin wrappers of operations that are modelled.
- Peer checks, permissions, symlinks in load and persist, core dumps, the nonce: operating-system calls.
- Cobra commands, kubeconfig writing, prompts, and the rest of the stress test.
- Panics and their recovery in callbacks and in the coalesced refresh.
- Floating point: the refresh margin is a real number, so the delay has no rounding error.
- Refresh-token single use across an eviction: a reloaded manager starts from the token file, which `StaleWriteOverlaps` shows can hold a spent token.
- LoginStates.StateManager.Get: its two locked sections are taken one after the other; `SplitGetExact` says what an interleaving can change.
- CacheRefinement.CacheRefinesMap: handlers are atomic (`TokenDisk.StaleWriteOverlaps` says what their interleaving can do to the file), writes to disk succeed, each handler reads the clock once but for the start of a login, and refreshers return tokens with a readable expiry, as do the records found on disk.
- DaemonServers.DaemonServer.HandleCheck: the texts of messages and actions are not modelled.
- DaemonServers.DaemonServer.HandleGetToken: matching the text of a refresh error is not modelled; the cause it names is an input.
- TokenManagers.TokenManager.SetInitialToken: no other goroutine in between; the interleaved form is the login caller of TokenRuns.
- RefreshTokens.SpentTokenStaysRetired: assumes a provider that rotates on every success and never reissues a token, as section 4.14.2 of RFC 9700 describes.
- FileRuns.InvRun: encoding then decoding a record gives it back, nobody else changes the directory, and CreateTemp does not draw the name of a live writer's temp file that has been cleaned up.
- Migration.TokensConserved: covers the loop over the listed entries; the ownership checks of the legacy directory before it are not modelled.
- ExecArgs.ParseExecArgs: strings are valid UTF-8, and integer parsing is a parameter.
- Sanitizer.Sanitize: strings are characters rather than bytes; the characters it looks for are all ASCII.
