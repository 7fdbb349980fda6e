# The run executor of hostyour-manager, and six smaller algorithms beside it, proved

The manager performs its work as *runs*: recorded sequences of steps, each of which registers how to take
itself back before it changes anything. The executor (`server/executor/`) plans, queues, starts, walks,
cancels, retries, skips, aborts, deletes and resumes runs, holds locks for them, and survives the death of its
process at any point. This project models that machine and proves what its documentation promises of it over
every history: which steps can start, which locks are held, what is undone, and what a crash can change.

The model has four layers.

- `Steps`, `Locks`, `Queue`: the rows of one run, the claims of one plan, one walk of the queue.
- `Runs`: one run and everything that can happen to it, an event at a time (one database transaction, one
  thing a step's body does, one crash or boot). `StepSafety`, `FailClosed`, `Progress`, `Undo`,
  `ReverseOrder`, `Retries` and `Aborts` prove what holds of every history of events. `Promises` says of each
  request and turn what it makes of the rows and the status, and what follows for every history.
- `System`: all runs, the lock table and the process, an act at a time. By `RunsLiveTheirTraces` what holds of
  all histories of one run holds of each run of the whole system. The way back is `Alone`: every history of one
  run that no shutdown meets is lived by a run of the system, those that show a promise broken among them.
  `LockSafety`, `LockRelease`, `WholeSystem` and `NoDeadlock` prove what needs all runs. `Dispatching` says what
  one look at the queue does to the runs and the locks, in their own terms.
- `Execution.Executor`: the class of the source, rewriting its rows, locks and memory in loops and branches.
  Its ghost field `history` is the acts performed so far, and its invariant is that the state is what that
  history leads to. Each method's contract names exactly the acts it appends, so all of the above holds of
  every sequence of calls, and says beside that, of the rows, the locks and the memory, what the call did.
  `Acts` spells out what each act does.

Beside it stand the journal of a domain move (`DomainJournal`), the registry retention with the release
grammar and Date.UTC (`Retention`, `Release`, `Calendar`), the search for a website's name (`WebsiteName`),
the Secret sync order (`SyncOrder`), the plugin order (`PluginOrder`) and the redactor (`Redaction`).
`Common` and `Text` hold shared vocabulary.

Conventions. A run's id is its rank in the order the queue's tie-break sorts ids in. Clocks, typed secrets,
the definition's own refusals and the database's order of ids are parameters. A step's name is a constructor,
`Work` or `Cleanup`, where the source prefixes a compensation's row with `cleanup:`. JavaScript numbers are
integers, exact in the source below 2^53. A step's body is any sequence of registering, checkpointing and
changing things outside, cut off anywhere; `world` is what stands changed outside.

Where the code keeps less than its comments say, a lemma gives the case for every input of its kind, and
another says exactly when the promise is kept:

- an abort marks `attest-target` skipped, and a retry that names a later step then starts that step with the
  precondition unanswered (`AbortThenRetryStartsUnattested`, `RetryStaysClosedIff`);
- once compensations are scheduled, a retry that names a planned step lets that step do its work again, and the
  run can end as cleaned up with that work standing (`RetryLeavesAnEffect`, `RetryAfterAbortIff`);
- two steps that register one compensation name before the first abort make that abort and every later one
  fail, and what they changed is never taken back (`SharedNameStrands`, `TwoNamesStrand`, `AbortRefusedIff`);
- an abort made again after a step registered a new name can run an earlier step's compensation before a later
  step's (`LaterStepUndoneLast`, `AbortOrderIff`);
- discard is guarded by the run table alone, which admits a running run, and the execution of one goes on
  (`GoesOn`, `DiscardHoldsIff`, `RunningDiscardHoldsIff`);
- a run that is over keeps its locks, which the comment above `finishRun` lets go, if the process died as it was
  cleaned up or settled or as a recovery had taken them again, and they bar every run they collide with until
  somebody touches it (`KeptLockBars`, `DeathAtTheSettling`, `DeathAtTheRecovery`, `DeathAtTheEndIff`);
- a moved field that is also a name which a change is anchored to cannot be reversed, nor moved again
  (`NamedRedirectMoves`, `RoundTripIff`);
- a secret that begins or ends with the mask character or holds a whole mask, and no token or key block, can be
  written by the masking of another and stand in the redacted text (`UncleanSecretComesBack`, `StaysOutIff`);
- a fine-grained token with one of the other tokens in it is cut by that one's mask, and what stands before it
  can be left in the text (`CutPatIsLeft`, `PatIsMaskedWholeIff`);
- stamps of the years 0 to 99 sort behind those of the years 100 to 1899 (`CenturyTurnsOrder`, `UtcOrder`).

## Model

| member | source | states |
|---|---|---|
| Locks.ConflictsIffCollision | server/executor/locks.ts:39-47 | the three-way answer is non-empty exactly when some taken and some asked claim are equal or one of them is global |
| Locks.ConflictsAreCollisions | server/executor/locks.ts:39-47 | everything reported is taken and collides with something asked |
| Locks.ConflictsAreExactly | server/executor/locks.ts:39-47 | what is reported, to the entry: every taken global claim if there is one, else everything taken that collides with something asked |
| Locks.CollidesIff | server/executor/locks.ts:19-21 | manager:self and all:* collide with every claim, and any other two only if they are the same |
| Locks.PlanClaimsAre | server/executor/queue.ts:18-20 | a plan claims its own locks and one server per host it owns, by its targets or, without any, by its target, and nothing else |
| Locks.DedupeClaims | server/executor/locks.ts:23-34 | keeps the first of equal claims: no claim twice, none lost, none added |
| Locks.DedupeKeepsOrder | server/executor/locks.ts:23-34 | the kept claims stand in the order of their first occurrences |
| Queue.WalkQueue | server/executor/queue.ts:24-49 | what each queued run waits for, and what is taken at the end of the line |
| Queue.StartWaiting | server/executor/queue.ts:78-94 | starts exactly the runs that wait for nothing, in line order, and inserts exactly their claims |
| Queue.DispatchIsFair | server/executor/queue.ts:24-27 | a started run collides with no held lock and with no earlier run that has its secrets, started or not |
| Queue.DispatchIsMaximal | server/executor/queue.ts:24-27 | a run left waiting with its secrets collides with a lock held after the dispatch or with an earlier run left waiting |
| Queue.SecondDispatchStartsNothing | server/executor/queue.ts:72-77 | a second walk right after the first starts nothing |
| Queue.WaitsForEarlierOnly | server/executor/queue.ts:36-47 | every waits-for edge leads to a lock holder or to a strictly earlier place in line, over a real collision |
| Queue.OnlyStartsLeave | server/executor/queue.ts:78-94 | a dispatch splits the line into started and left without losing or doubling a run |
| Queue.SecretlessKeepPlaces | server/executor/queue.ts:24-27 | the runs that wait for a password all stay in line over a dispatch and keep their relative order |
| Queue.FreeAtEndStartsAnywhere | server/executor/queue.ts:68-71 | a run with no conflict at the end of the line is started wherever its place turns out to be |
| Queue.DispatchKeepsLocksSafe | server/executor/queue.ts:72-94 | a dispatch keeps the lock table free of collisions and of double rows |
| Steps.ResetLater | server/executor/step-recovery.ts:48-55 | every row from the retried ordinal on that is not ok becomes pending and keeps its checkpoint; no other row moves |
| Steps.RegisteredCleanupNames | server/executor/cleanup.ts:42-52 | the nested loops collect the names last step first, each step's own order kept |
| Steps.RegisteredOrder | server/executor/cleanup.ts:7-12 | where each registered name stands: a later step's before an earlier step's, within a step as registered |
| Steps.RegisteredIsComplete | server/executor/cleanup.ts:45-52 | every place of the list is some step's registered name: none is lost or invented |
| Steps.ScheduleCleanupSteps | server/executor/cleanup.ts:71-97 | the scheduling loop abandons the unfinished rows, re-arms and appends compensation rows, and is refused exactly when a name without a row is registered twice |
| Steps.FirstAbortOrder | server/executor/cleanup.ts:7-16 | after a first abort the only pending rows are one per registered name, in that order behind the last ordinal |
| Steps.RepeatedAbortOrder | server/executor/cleanup.ts:68-70 | an abort over the same names inserts no row, moves none, and re-arms exactly the registered compensations |
| Aborts.AbortOrderIff | server/executor/cleanup.ts:7-12 | after any abort the compensations stand in the order of the registered names exactly when the rows that were there do and no new name comes before one that has a row |
| Aborts.LaterStepUndoneLast | server/executor/cleanup.ts:66-95 | for every plan of two steps or more, a history that registers first whose repeated abort runs the earlier step's compensation next, before the later step's |
| Aborts.SharedNameStrands | server/executor/cleanup.ts:66-95 | for every plan of two steps or more, a history that registers first in which two steps register one name and both changes stand when the run fails |
| Aborts.TwoNamesStrand | server/executor/cleanup.ts:66-95 | from there every abort with cleanup is refused in every later history, and what stands under that name is never taken back |
| Aborts.AbortRefusedIff | server/executor/cleanup.ts:66-95 | in every reachable state an abort with something registered is refused exactly when two steps registered a name that no row takes back |
| Runs.AfterKeepsOk | server/executor/executor.ts:56-60 | every event, crash and boot included, keeps a run consistent: the rows' shape, at most one row running, memory and status agreeing |
| StepSafety.WalkIsNeverRefused | server/executor/executor.ts:424 | the row the walk starts is never one the step table forbids to start |
| StepSafety.EveryChangeIsLegal | server/executor/transitions.ts:24-49 | every change of a row's status, in every consistent run and by every event, is one the step table allows |
| StepSafety.OkComesFromRunning | server/executor/transitions.ts:26-27 | no event makes a row ok that was not running |
| StepSafety.OneStepAtATime | server/executor/executor.ts:285 | in every history at most one row is running, and none when an execution begins |
| StepSafety.SucceededIsFinal | server/executor/transitions.ts:17 | a succeeded run has every step ok or skipped and no cleanup row, and stays so whatever happens after |
| StepSafety.AbortedNeverSucceeds | server/executor/executor.ts:383 | a run with a cleanup row never ends succeeded, in any later history |
| StepSafety.NoStepAfterCancel | server/executor/executor.ts:386-399 | after a cancel signal no further step starts until somebody fires the run again, and the run ends cancelled, never failed or paused, or succeeded if no other step remained |
| Promises.NoStepAfterCancelling | server/executor/executor.ts:222-226 | a cancel of a run in flight, between two steps or inside one: in every history no further step starts until somebody fires the run again, and it ends cancelled, or succeeded if nothing but the step in flight was left |
| Promises.NothingWithoutApprove | server/executor/recover.ts:19-26 | in every history without an approve, whatever is retried, skipped, discarded or aborted, no step of the plan starts, nothing executes the run and nothing is changed outside |
| Promises.TurnIsWalked | server/executor/executor.ts:381-463 | one turn of the walk on every run: ended with every row done, ended when cancelled, left running for the next process when this one stops, failed for want of an implementation, else the first unfinished row started and logged |
| Promises.TargetIff | server/executor/recover.ts:28-40 | the row a retry starts from: the first of that name unless ok or running, else the first failed one, or of a cancelled run the first failed or pending |
| Promises.AbortSetsToUnwind | server/executor/cleanup.ts:66-97 | what an abort makes of every row: ok stays, the rest is given up, registered compensations are pending, each once, new ones behind |
| Promises.BootResumes | server/executor/executor.ts:282-286 | the death of a process and the next boot leave every row as it stood but the one that was running, and the run is executed again |
| Promises.DeadBootIsHarmless | server/executor/executor.ts:282-286 | a boot that dies after putting rows back changes nothing for the next one |
| StepSafety.SecretsEndWithTheRun | server/executor/executor.ts:472-479 | in every history a run holds typed secrets only while it is queued or being executed: every end, pause, discard, delete and crash wipes them |
| StepSafety.DiscardHoldsIff | server/executor/executor.ts:164-170 | a discard the table lets through holds until somebody takes the run up again, with no step started and the status kept, exactly when the run's execution heeds it |
| StepSafety.RunningDiscardHoldsIff | server/executor/executor.ts:164-170 | for a running run that no cancel has reached the discard holds exactly at the last turn of a cleanup run |
| StepSafety.GoesOn | server/executor/executor.ts:164-170 | what a running run's execution does after a discard it does not heed: a step starts or the cancelled status is overwritten |
| FailClosed.NoAbortFailsClosed | server/executor/step-recovery.ts:29-34 | without an abort, no step after the precondition of a mutating run has started unless the precondition is ok |
| FailClosed.OnlyAbortDisarms | server/executor/step-recovery.ts:60-86 | only an abort passes the precondition over, and only one that found it not ok |
| FailClosed.RetryStaysClosedIff | server/executor/step-recovery.ts:29-34 | no continuation of a retry, through crashes and boots, starts a planned step behind a precondition that is not ok exactly when the precondition was not passed over, or the retry starts from it, or it starts from a compensation with every planned step finished |
| FailClosed.AbortThenRetryStartsUnattested | server/executor/step-recovery.ts:29-34 | for every mutating plan of two steps or more, a history with an abort in which the second step starts with the precondition skipped |
| Progress.CrashTransparency | server/executor/executor.ts:294-298 | without skip and abort the step starts never go back, collapse to a prefix of the plan, and to all of it for a succeeded run, whatever crashes, boots and retries lie between |
| Progress.OkNeverRestarts | server/executor/transitions.ts:27-32 | unless an abort is scheduled, an ok row stays ok and its start is never logged again |
| Undo.NamesAreNeverLost | server/executor/context.ts:231-246 | no checkpoint, retry, restart or abort loses a registered compensation's name |
| Undo.AbortStartsUnwinding | server/executor/cleanup.ts:7-16 | a scheduled abort leaves only compensations to run, one for every registered name |
| ReverseOrder.UnwindsInReverse | server/executor/cleanup.ts:7-12 | after a first abort the started compensations never go back and collapse to the first so many of the names in order, to all of them once the cleanup ended, whatever crashes, boots, failures and retries lie between |
| Undo.UndoIsExact | server/executor/cleanup.ts:36-97 | when a cleanup run has ended, exactly the effects whose compensation nobody had registered remain, for any abort and whatever crashes, boots, failures and retries of compensations lie between |
| Undo.UndoIsComplete | README.md:13-16 | if every step registers before it mutates, nothing of the run is left when its cleanup run has ended |
| Undo.NothingToUndo | server/executor/step-recovery.ts:144-154 | an abort that finds nothing registered, of a run that registers first, finds nothing changed outside |
| Retries.RetryAfterAbortIff | server/executor/step-recovery.ts:43-55 | after any abort, wherever its unwinding has got to, a retry leaves nothing but what nobody had registered, in every continuation that registers first and ends cleaned up, exactly when it starts from a compensation's row |
| Retries.RetryLeavesAnEffect | server/executor/step-recovery.ts:43-55 | for every unwinding run and every planned step a retry may start from, a continuation that registers first and ends cleaned up with that step's effect standing |
| System.RunsLiveTheirTraces | server/executor/executor.ts:56-60 | each run of the system is in the state its own events lead to, whatever happens to the others |
| Alone.EveryHistoryIsLived | server/executor/executor.ts:56-60 | the converse: every state a run's own history leads to, crashes and boots included, but for a shutdown and a start without its secrets, is that of a run in a reachable state of the system |
| Alone.SteadyHistoryIsLived | server/executor/executor.ts:56-60 | so it is for every history without a death or a shutdown, as those of `LaterStepUndoneLast`, `SharedNameStrands` and `AbortThenRetryStartsUnattested` are |
| LockSafety.ApplyKeepsOk | server/executor/locks.ts:11-13 | every act of the system keeps every invariant of runs, locks and process |
| LockSafety.LockSafety | server/executor/locks.ts:11-13 | in every reachable state no two locks of different runs collide, a run under way or stopped in the middle holds every claim of its plan, planned and queued runs hold none |
| LockSafety.MutualExclusion | server/executor/locks.ts:36-47 | two runs whose plans collide are never running together |
| LockSafety.RecoveryNeverBusy | server/executor/locks.ts:50-56 | a run stopped in the middle has nothing left to acquire when it is recovered |
| LockSafety.NobodyStranded | server/executor/executor.ts:247-254 | while the process is up and not shutting down, every approved or running run is being executed |
| LockRelease.ReleasedStaysFree | server/executor/executor.ts:467-468 | a run that let its locks go holds none in any later history until a recovery asks for them |
| LockRelease.DeathAtTheEndIff | server/executor/locks.ts:86-100 | where the process dies between a run's end and its release, the next boot leaves it each of its locks exactly when it was a cleanup run |
| LockRelease.DeathAtTheSettling | server/executor/step-recovery.ts:144-152 | where the process dies after an abort settled the run, with nothing registered, and before the release, the next boot leaves the run every lock it held |
| LockRelease.DeathAtTheRecovery | server/executor/step-recovery.ts:47-56 | where the process dies between a recovery's acquire and its first row, the next boot leaves a run that is over every claim of its plan |
| LockRelease.KeptLockBars | server/executor/locks.ts:86-100 | a lock of a cancelled run stays through every history that does not touch the run, and no run whose claims collide with it is under way |
| NoDeadlock.NobodyWaitsForEver | server/executor/queue.ts:36-47 | no deadlock: from every reachable state of a running process, every history in which nobody gets ahead of a queued run that has its secrets starts it, once as many looks at the queue as there are such runs up to it in line found no lock held, in whatever order and way the holders ended and whoever joins behind it |
| NoDeadlock.FreeLooksCanBeHad | server/executor/queue.ts:36-47 | from every such state any number of such looks is to be had, without overtaking anybody, by ending the holders and taking them away |
| WholeSystem.EveryRunIsTransparent | server/executor/executor.ts:294-298 | crash transparency of every run of every history of the system |
| WholeSystem.EveryRunFailsClosed | server/executor/guards.ts:8-16 | every mutating run nobody aborted fails closed, in every history of the system |
| WholeSystem.EveryRunIsUndone | README.md:13-16 | undo completeness of every run, whatever the other runs, the queue and the process did between |
| WholeSystem.LineAfterDispatch | server/executor/queue.ts:24-34 | after a dispatch the queue read from the rows is what the walk left, in the same order |
| WholeSystem.DispatchTwice | server/executor/queue.ts:72-77 | a second dispatch right after the first changes nothing in the whole system |
| WholeSystem.FreeApproveStarts | server/executor/executor.ts:126-145 | an approve asked to start only if free, once let through, has started its run |
| Dispatching.DispatchEffects | server/executor/queue.ts:24-94 | in every state of a running process one look at the queue starts only runs in line with all they need typed, gives each all its claims and nobody else any, overtakes no earlier colliding run and no lock, and leaves in line only what collides with a lock or an earlier one left; nothing while stopping |
| Dispatching.StartHasSecrets | server/executor/queue.ts:39-42 | a dispatch starts no run without the secrets its plan requires |
| Dispatching.EndIsFreeIff | server/executor/queue.ts:68-71 | a plan is free to start at the end of the line exactly when it collides with no lock and no run in line that has its secrets |
| Execution.ReadQueue | server/executor/queue.ts:30-35 | the queued runs by approve time, then id |
| Execution.FireStarted | server/executor/queue.ts:82-91 | the loop over the started runs marks exactly those approved and fires them |
| Execution.TakeMissing | server/executor/locks.ts:58-66 | the transaction takes all that is missing or nothing, by whether some claim really collides |
| Execution.NextRow | server/executor/executor.ts:384-385 | the first row the walk does not pass over |
| Execution.ReconcileLocks | server/executor/locks.ts:86-103 | the boot's loop keeps exactly the locks whose run may hold one |
| Execution.ResumeRuns | server/executor/executor.ts:282-286 | the boot's two loops put crashed rows back to pending and fire every run under way, and touch no other |
| Execution.TakeTurn | server/executor/executor.ts:381-463 | one turn of the loop of execute: what it writes and how it ends |
| Execution.Executor.Propose | server/executor/executor.ts:92-117 | a planned run, neither started nor deleted, with one pending row per step in the order of the plan; every other run as it was |
| Execution.Executor.DispatchQueue | server/executor/queue-dispatch.ts:33-47 | what one look at the queue promises (`Dispatched`), done in loops on the rows; a queued run without its secrets is unchanged |
| Execution.Executor.AcquireLocks | server/executor/locks.ts:49-66 | takes every claim still missing or none, failing exactly on a collision with another run's lock, never for a run that stopped in the middle |
| Execution.Executor.ReleaseLocks | server/executor/locks.ts:73-75 | the run's locks go, every other stays |
| Execution.Executor.CheckApprove | server/executor/executor.ts:132-144 | an approve goes through exactly for an approvable run, and each refusal names its own case |
| Execution.Executor.Approve | server/executor/executor.ts:128-162 | goes through exactly for a planned run, or a queued one that lost its secrets, with all of them typed and accepted; the run then stands in line with its secrets, one dispatch is made, and it is started when it was asked to be free |
| Execution.Executor.Discard | server/executor/executor.ts:164-176 | goes through exactly for a planned or queued run; the run is then cancelled without secrets or execution, every row as it was, and a queued one's place is dispatched |
| Execution.Executor.DeleteRun | server/executor/executor.ts:178-220 | refused exactly for a missing or an in-flight run; else the run is deleted, its secrets and its locks go and the queue is dispatched; a second delete does nothing |
| Execution.Executor.Cancel | server/executor/executor.ts:222-241 | queued: discarded; in flight, inside a step or between two: signalled, nothing else changed; paused by a shutdown: ended; else nothing |
| Execution.Executor.Begin | server/executor/executor.ts:335-362 | marks the run running and started with its walk at the beginning, or fails it and dispatches |
| Execution.Executor.WalkOn | server/executor/executor.ts:381-463 | from one await to the next: one turn as `Walked` says; a run whose every row is done holds no lock any more, and whatever ended is followed by a dispatch; neither while a step runs or the run is paused |
| Execution.Executor.RegisterCleanup | server/executor/context.ts:241-246 | the name is in the checkpoint of the step in flight when the call returns, once and behind those there, and nothing else changed |
| Execution.Executor.Checkpoint | server/executor/context.ts:231-235 | the step's row holds the data and nothing else changed, or the checkpoint is refused when it carries a registered secret |
| Execution.Executor.FinishStep | server/executor/executor.ts:427-456 | ok marks the row and goes on, a compensation having taken back all of its name; a failure marks it, ends the run failed or cancelled without secrets, and dispatches |
| Execution.Executor.CheckRetry | server/executor/step-recovery.ts:41-46 | a retry goes through exactly for a failed run, or a cancelled one that had started, with a row to start from; each refusal names its own case, and a plan set aside before it began is refused as not recoverable |
| Execution.Executor.RetryFromStep | server/executor/step-recovery.ts:35-58 | goes through exactly for such a run with no lock in the way; then the run holds every claim of its plan, every row from the target on that is not ok is pending, and it is fired; refused it changes nothing, and a run that stopped in the middle is never refused for its locks |
| Execution.Executor.CheckSkip | server/executor/step-recovery.ts:87-101 | a skip goes through exactly for the failed step of a failed or started cancelled run, with a reason, and is refused as the precondition exactly when that step is a mutating run's attest-target |
| Execution.Executor.SkipStep | server/executor/step-recovery.ts:87-110 | goes through exactly so, with no lock in the way; the one row is then skipped, every other as it was, and the run is fired with every claim of its plan |
| Execution.Executor.AbortWithCleanup | server/executor/step-recovery.ts:138-161 | settles with nothing registered, every row that is not ok given up and the locks let go, else takes the locks and sets the rows to unwind; each refusal is given exactly, the busy lock and the clashing name included, and leaves every run as it was |
| Execution.Executor.StopForRestart | server/executor/executor.ts:294-305 | from here no run starts another step |
| Execution.Executor.EndOfProcess | server/executor/executor.ts:294-298 | every row, status and lock stays, and of each run the memory alone goes |
| Execution.Executor.BootUp | server/executor/executor.ts:242-292 | orphaned locks go, every run under way is executed again with its running row put back, every other is as it was, and the queue is dispatched |
| Execution.Executor.IsSafe | server/executor/executor.ts:56-60 | after any sequence of calls every invariant of the whole system holds |
| DomainJournal.ApplyDomainChanges | shared/domain-move.ts:61-76 | the loop applies the changes, or the reversed ones, one by one and refuses at the first that does not stand |
| DomainJournal.AppliesIff | shared/domain-move.ts:61-76 | a journal applies exactly where every anchor holds and every field holds the old or the new value, and then writes every field |
| DomainJournal.OnlyFieldsChange | shared/domain-move.ts:61-76 | the changed fields hold the new values, and no other path of the tree differs |
| DomainJournal.ApplyIsIdempotent | shared/domain-move.ts:61-76 | applied again, a journal changes nothing |
| DomainJournal.ReverseRestoresIff | shared/domain-move.ts:62-76 | applied and reversed, it gives the tree back exactly when no field held the new value before |
| DomainJournal.DomainChangesRecord | shared/domain-move.ts:38-59 | what the walk records: public fields as they stand, each once, with the names around them and a value they move to |
| DomainJournal.DomainChangesFind | shared/domain-move.ts:38-59 | the walk misses nothing: every public field below the given keys whose value moves is recorded with the names around it |
| DomainJournal.PublicPathIff | shared/domain-move.ts:42-45 | a field is public exactly when its key has one of eight words in it in any case, or it is below ownDomainRedirects, or it is the value beside a name with such a word |
| DomainJournal.JournalRoundTrip | shared/domain-move.ts:38-76 | a computed journal none of whose fields is one of its anchors applies to every tree that agrees on its fields and anchors, is idempotent, and its reversal restores that tree |
| DomainJournal.RoundTripIff | shared/domain-move.ts:51-76 | a computed journal is applied and reversed to the tree it was computed for, and applied twice, exactly when none of its fields is one of its anchors |
| DomainJournal.RedirectsKeepAnchors | shared/domain-move.ts:38-59 | so it is for every tree with no object below ownDomainRedirects |
| DomainJournal.NamedRedirectMoves | shared/domain-move.ts:38-59 | and it is not for any tree with a name below ownDomainRedirects that moves |
| DomainJournal.MovesBackIff | shared/domain-move.ts:10-19 | a moved host comes back exactly when it was under the old domain or is under neither |
| DomainJournal.MoveDomainIs | shared/domain-move.ts:10-19 | the domain itself goes to the new one, a host below it to the same place below the new one, any other stays, the wildcard mark kept; refused exactly for a name that is not public or too long |
| Retention.NewerChains | shared/registry-retention.ts:108-122 | the comparator is transitive |
| Retention.PotIff | shared/registry-retention.ts:35-48 | a tag belongs to the stable pot exactly when it is the text of a stable release, with seven hex digits of a commit behind it or without; a release has its own stamp, any other text none |
| Retention.TimeIs | shared/registry-retention.ts:93-106 | a release is timed by its own stamp whatever the caller says, any other tag by the caller's fourteen digits, else its push time, else nothing |
| Retention.NewerIff | shared/registry-retention.ts:108-122 | the later time first, any time before none, and of one time the greater text |
| Retention.CompareIsTotal | shared/registry-retention.ts:108-122 | the comparator is antisymmetric, and equal only for one tag at one time |
| Retention.SortedIsUnique | shared/registry-retention.ts:154-155 | sorted lists of the same names and times agree on both at every place, whatever algorithm sorts |
| Retention.PlanRetention | shared/registry-retention.ts:124-166 | keep and delete split the tags in input order, for every list; kept is what is pinned or whose name has an entry with fewer newer ones in its pot than the pot keeps |
| Retention.KeptIff | shared/registry-retention.ts:124-166 | a tag is kept exactly when it is pinned or an entry of its name has fewer newer ones of its kind than the plan keeps of that kind, of stable releases so many, of all the rest so many |
| Retention.CountIsExact | shared/registry-retention.ts:5-9 | by count a pot without repeated names keeps exactly its limit, or all it has |
| Retention.NothingNewerGoes | shared/registry-retention.ts:5-12 | what is deleted is not pinned and sorts before nothing its pot keeps by count |
| Retention.PlanIsIdempotent | shared/registry-retention.ts:124-166 | run on what it kept, the plan deletes nothing |
| Retention.StampIsThirdField | shared/tenant.ts:100-103 | the stamp the two orders compare is the third field of the image tag |
| Retention.OlderReleaseSortsBehind | shared/tenant.ts:97-103 | for image tags with real dates from the year 100 on, the older release is the one the retention puts behind |
| Calendar.EpochIsMonotone | shared/registry-retention.ts:82-91 | from the year 100 on the epoch orders real moments exactly as their fourteen digits do |
| Calendar.SecondsTick | shared/registry-retention.ts:82-91 | from the year 100 on a second later, through minutes, hours, days, leap days, months and years, is a thousand more |
| Calendar.Origin | shared/registry-retention.ts:82-91 | the count starts with 1970 |
| Calendar.FieldsAre | shared/registry-retention.ts:86-89 | the fourteen digits are read as year, month, day, hour, minute and second |
| Calendar.UtcOrder | shared/registry-retention.ts:82-91 | Date.UTC orders real moments as their fields do, across leap years and month lengths, with the two-digit years in their century |
| Calendar.CenturyTurnsOrder | shared/registry-retention.ts:82-91 | every moment of the years below 100 lies behind every one of the years from 100 to 1899 |
| Release.ComposedIsParsed | shared/release.ts:36-46 | a composed tag is parsed back into its parts |
| Release.ParsedIsComposed | shared/release.ts:36-46 | a parsed tag is the one its parts compose, so the grammar is read one way |
| Release.ParseIff | shared/release.ts:24-46 | a tag is parsed into exactly the version, channel and stamp it is the text of, and into nothing where it is the text of none |
| Release.VersionIff | shared/release.ts:68-71 | a version is two numbers without leading zeros and a third position that is one too or has three digits |
| Release.NextReleaseVersion | shared/release.ts:48-65 | the next version is one patch above the highest released, above every released one, in the grammar and with three digits of patch; refused exactly at a fourth digit |
| Release.BestIsUnique | shared/release.ts:48-65 | there is one highest released version, so the next one is determined |
| WebsiteName.WebsiteAppName | shared/tenant.ts:41-51 | the unbounded loop stops within two tries more than there are taken names, at the first numbered name that is an app name and free; a free site id that is an app name is its own answer |
| WebsiteName.NamesRunOut | shared/tenant.ts:41-51 | the pigeonhole: the search cannot outlast the taken names |
| WebsiteName.NumberedNameIsAppName | shared/tenant.ts:60-65 | every numbered form of a valid site id is an app name of at most 30 characters |
| WebsiteName.LongestStem | shared/tenant.ts:60-65 | a numbered form is the longest front of the site id without a dash at its end that fits thirty characters together with the number, and the number |
| WebsiteName.FoundIsRecognised | shared/tenant.ts:53-58 | a name the search gives is recognised as the site's |
| WebsiteName.RecognisedIsFound | shared/tenant.ts:53-58 | every recognised name is the one the search gives for some taken names |
| SyncOrder.ReadSyncOrder | shared/secret-sync-order.ts:120-143 | the first use of a written Secret that stands too early, and how many uses were judged up to it, or that none does |
| SyncOrder.ReadsAre | shared/secret-sync-order.ts:72-100 | a document reads a Secret exactly when it is of one of seven kinds, has a pod at that kind's path, and the pod names the Secret by one of seven ways: pull secret, env or envFrom of a container or an init container, secret volume, projected volume |
| SyncOrder.WrittenIff | shared/secret-sync-order.ts:60-70 | the Secret a document has written: a claim's given name, else its own with the service; an external secret's target, else its own name; none for any other document |
| SyncOrder.WaveIff | shared/secret-sync-order.ts:47-53 | the wave is the whole number of the annotation, as a number or as digits with or without a sign, and 0 without one |
| SyncOrder.HooksAre | shared/secret-sync-order.ts:55-58 | a list of hook phases with blanks between its commas is read phase by phase: Skip, PreSync and the three that run last |
| SyncOrder.NoBreachIsSound | shared/secret-sync-order.ts:7-17 | without a breach, in every phased sync every pod starts after each written Secret it names is there |
| SyncOrder.BreachIsReal | shared/secret-sync-order.ts:7-17 | with one, there is a sync in which that pod starts before the Secret is there |
| SyncOrder.NoBreachIffPodsWait | shared/secret-sync-order.ts:7-17 | the check decides the question both ways |
| PluginOrder.InDependencyOrder | server/boot/plugin-set.ts:16-35 | an order in which each item follows what it requires, of all items once each; refused exactly for a name nobody has or a real cycle |
| PluginOrder.Stuck | server/boot/plugin-set.ts:26-27 | where nothing is ready, some items really require each other |
| PluginOrder.OrderHasNoCycle | server/boot/plugin-set.ts:16-35 | items that could be ordered have no cycle |
| Redaction.Redactor.Register | server/security/redact.ts:10-18 | a value of four characters or more joins its scope, a shorter one nothing |
| Redaction.Redactor.Unregister | server/security/redact.ts:20-22 | the scope's secrets go, every other scope's stay |
| Redaction.Redactor.Redact | server/security/redact.ts:24-40 | whatever the order of the passes, no clean registered secret, nothing that holds a GitHub token or a key block, no GitHub token and no private key block is left; a text that holds none of all these comes back unchanged |
| Redaction.KeyIsMaskedWhole | server/security/redact.ts:26-38 | a private key block, opening line, body and closing line, becomes one mask, and what follows is redacted as if it stood alone |
| Redaction.TokenIsMaskedWhole | server/security/redact.ts:27-38 | a GitHub token of any length becomes one mask |
| Redaction.PatIsMaskedWholeIff | server/security/redact.ts:27-38 | a fine-grained token becomes one mask exactly when none of the other tokens stands in it |
| Redaction.CutPatIsLeft | server/security/redact.ts:27-38 | of every fine-grained token that goes on with another token before its twentieth character, what stands before that one is left in the text |
| Redaction.SecretIsMaskedWhole | server/security/redact.ts:32-36 | a registered secret becomes one mask where it first stands; what is before it stays, and what follows is looked at on its own |
| Redaction.RestIsLeft | server/security/redact.ts:31-40 | a text without a registered secret is redacted by the patterns alone, and one that holds no token or key block either is left as it is |
| Redaction.TokenIsMatched | server/security/redact.ts:27 | the token pattern matches every shortest token wherever it stands |
| Redaction.PatIsMatched | server/security/redact.ts:28 | the fine-grained token pattern matches every shortest one wherever it stands |
| Redaction.RedactionIsComplete | server/security/redact.ts:31-40 | no pass brings back a clean secret or a token that an earlier one masked |
| Redaction.StaysOutIff | server/security/redact.ts:31-40 | a registered secret is absent from every redacted text, whatever else is registered, exactly when it is clean (no mask character at its ends, no whole mask inside) or holds a token or a key block |
| Redaction.NoKeyIsLeft | server/security/redact.ts:25-26 | no opening key line with a closing one behind it is left |
| Redaction.UncleanSecretComesBack | server/security/redact.ts:31-40 | for every secret that is not clean and holds no token or key block, and any foreign one registered behind it, a text whose redaction holds the first |

## Left out

- Streaming planners and the `planning` status: a run of that kind has no rows and no locks until it is planned.
- The awaits inside `abortWithCleanup`, `approve` and `cancel` between reading a run and writing it: each is one stretch here.
- Database faults: a transaction either lands or the process dies before it.
- A step body's own actions (SSH, Kubernetes, Vault): any sequence of registrations, checkpoints and changes outside.
- Compensation rows register nothing and change nothing but what they take back, as the contract of a cleanup says; one that ends ok has taken everything of its name back.
- Implementations are missing for compensation rows only: execute compares the planned names with the definition's before it walks.
- The definition's mutating flag is frozen in the plan, and its own refusals (`assertApprovable`, `assertAbortable`) are parameters.
- Audit rows, the event log except its step-start lines, event sequence numbers, the SSE bus, warnings about failed holders, terminal hooks.
- The columns a status change carries beside the status (error texts, skip reasons, times).
- Execution.Executor.Discard: asks its callers not to discard a running run, as the method's comment says; `DiscardHoldsIff` says what happens otherwise, for the one execution a run has here (a retry of the discarded run while that one is in flight would start a second).
- Execution.Executor.Cancel: asks that the run is not between its fire and its begin, which are one synchronous stretch in the source.
- Execution.TakeTurn: looks for the next row from the first one at each turn where the source's loop goes on from where it is; the rows before it are finished.
- Undo.UndoIsComplete: says nothing of histories in which an operator skips a compensation or a retry names a planned step; `RetryAfterAbortIff` says exactly what such a retry costs.
- ReverseOrder.UnwindsInReverse: a first abort; `AbortOrderIff` says when a repeated one keeps the order.
- NoDeadlock.NobodyWaitsForEver: a holder that is never ended keeps its locks, and then nothing is said; nor of a run that another with an earlier place is handed its secrets before.
- Alone.EveryHistoryIsLived: a history that a shutdown meets needs the acts of the restart between its events, and is left out.
- Progress.CrashTransparency: says nothing of histories with a skip or an abort.
- DomainJournal.JournalRoundTrip: takes how an address moves as a given function of its text; URL parsing inside `movePublicAddress` is not modelled, nor are inherited keys.
- DomainJournal.MovesBackIff: `moveDomain` is modelled on its own.
- Retention.PlanRetention: Date.parse of a push time is given.
- Release.NextReleaseVersion: numbers are exact, also above 2^53.
- Calendar.EpochIsMonotone: moments that do not exist (a thirteenth month, a thirtieth of February) run over in Date.UTC and are not ordered by it.
- WebsiteName.WebsiteAppName: the taken names are fewer than 2^53, which no Set reaches.
- SyncOrder.NoBreachIsSound: writers are not hooks; a hook of several phases runs in its earliest.
- SyncOrder.ReadsAre: says which Secrets a pod names, not the text of a read's field path nor the order of the reads within a pod.
- SyncOrder.BreachIsReal: one document writes the Secret.
- PluginOrder.InDependencyOrder: the permutation and the cycle are stated for distinct names, which activatePlugins makes sure of; the rest of activatePlugins collects messages.
- Plan hashing, probes, HTTP routes, schedules, self-checks, credential storage, the web.
