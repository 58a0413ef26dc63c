# Bekci, modelled and proved in Dafny

Bekci is a monitoring server: checks run on a schedule, results are saved, rules turn results into
verdicts, and changes of verdict become alerts. This project models that pipeline, the relational store
around it and the two rate limiters of the API, and proves what they guarantee.

Verify everything with `dafny verify dfyconfig.toml`.

## How the model is built

Methods of the program that change state step by step are Dafny methods over class fields or over a
transaction's copy of the tables, and each is proved equal to a specification function; the theorems are
lemmas about those functions, over whole runs where the claim is about runs, and tell what the functions
leave by the submitted data and literal constants. Concurrency is a state
machine: every SQL statement, lock and channel operation is one atomic step, since the connection pool
holds a single connection (`internal/store/store.go:23`), and the theorems hold for every interleaving.

| file | what it models |
|---|---|
| Schema.dfy | the tables, their foreign keys, cascading deletes |
| Results.dfy | saving and purging results, the current-state cache, daily rollups, uptime, the running average |
| Verdict.dfy, FailWindow.dfy, RuleMeaning.dfy | from conditions and results to a rule's verdict; windowed conditions and when they detect; conditions in terms of all results ever saved |
| RuleStates.dfy, EngineProtocol.dfy, MutexNeeded.dfy | the rule-state compare-and-swap; concurrent evaluators; why the mutex is there |
| Scheduler.dfy, SchedulerProtocol.dfy, Intervals.dfy, TwoChains.dfy | the timer maps and their reconciliation; timer callbacks in flight; the intervals checks run at; a run that doubles a check's timers |
| Alerter.dfy, AlertLaws.dfy | cooldown and re-alert gates, what each dispatch logs; kinds, recipients and when an alert must be logged |
| Targets.dfy, Ownership.dfy, TargetDetail.dfy, Lifecycle.dfy, TargetRows.dfy, TargetStore.dfy | targets with their checks, hidden rule and conditions: creation, smart-diff update, deletion, read-back, pause history; every row column by column |
| Backup.dfy, Recovery.dfy | configuration export and restore; backups of what target operations leave |
| TokenLimiter.dfy, LoginLimiter.dfy | the per-token request limiter and the failed-login limiter |

Ids are numbers; the random identifiers of the program are drawn from a supply `base` that no stored or
submitted id reaches. Clocks, check outcomes and delivery outcomes are parameters. What a condition says
of one result (field extraction and comparison) is an arbitrary predicate.

## Where the code does less than its comments or its reader might expect

- The per-token limiter's comment promises that no 60 seconds admit more than the limit. The fixed
  windows admit up to 2 * limit - 1; the promise holds exactly for limit 1 (`TokenLimiter.PromisedCapHoldsIff`).
- `retryAfter` is rounded down, so waiting that long is enough only when a whole number of seconds, or
  less than one, was left (`TokenLimiter.RetryAfterSufficesIff`). With limit 1 and requests at 0 s and
  0.5 s, the second is told 59 and is still refused at 59.5 s (`TokenLimiter.PatientIsRefused`).
- A windowed condition whose fail count times interval exceeds the 1800-second cap is stored but cannot
  trigger on a check that runs on schedule once (fail count - 1) * interval exceeds 1800
  (`FailWindow.DetectsOnScheduleIff`, `FailWindow.NeverDetects`). Seven failures every 301 s is such a
  condition (`FailWindow.FailingUnnoticed`).
- A reload that gives a check a new timer while its timer callback runs, because its interval changed or
  because it was dropped and is active again, leaves the check with two timer chains, and a check never has
  two without such a reload (`SchedulerProtocol.OneChainPerCheck`). `TwoChains.TwoTimersForOneCheck` is a
  run from the start that ends so. A reload that merely drops the check starts no second chain: the map
  loses the callback's timer, and the callback schedules the check once more
  (`SchedulerProtocol.NoTimerIsLost`).
- A target's link to its rule is no foreign key (`internal/store/store.go:89`), so a backup may name a rule
  it does not hold; it restores, and after that no update with conditions succeeds on the target
  (`Recovery.DanglingLinkRestores`).
- A backup does not carry notes, contacts, project and location of targets, and restoring gives a
  condition without group operator the operator AND, so re-exporting reproduces the conditions exactly
  when none lacked it (`Backup.RestoreReproduces`, `Backup.ReExportConditionsIff`). What target operations
  write never lacks it (`Recovery.EveryRunStaysFilled`).

## Model

| member | source | states |
|---|---|---|
| Results.ResultStore.SaveResult | internal/store/results.go:33-87 | the raw row, the current-state row and the daily rollup change together, or, when the check does not exist, not at all |
| Results.ResultStore.PurgeOldResults | internal/store/results.go:271-290 | raw rows older than the retention and rollups older than 90 days go, everything else stays; the count of purged raw rows |
| Results.ResultStore.GetUptimePercent | internal/store/results.go:217-228 | the loop over rollup rows computes the exact ratio, or -1 without data |
| Results.ResultStore.GetBatchLastResultAndUptime | internal/store/results.go:241-267 | the one-pass grouped query gives every check with a current row the same values as the per-check queries |
| Results.RollupsCountEverything | internal/store/results.go:72-84 | in every run of saves and purges, rollup sums over any span within retention count every result ever saved in it |
| Results.RawIsKept | internal/store/results.go:42-47 | in every run, the raw rows of a check are exactly the results saved for it that no later purge cut off, in order and multiplicity |
| Results.WithoutPurgesAllIsKept | internal/store/results.go:42-47 | without purges, all results ever saved for the check |
| Results.UptimeIsExact | internal/store/results.go:217-228 | for at most 90 days, uptime from rollups is the percentage of ups among all results saved for those days, whatever was purged, and -1 without any |
| Results.LongerSpansForget | internal/store/results.go:282-285 | for every longer span a run where it is -1 although a result was saved, and was up |
| Results.TotalIsUpPlusDown | internal/store/results.go:62-80 | in every run each rollup's total is its ups plus its downs, and positive |
| Results.CurrentIsLastSaved | internal/store/results.go:48-60 | the current-state row of a check is its last saved result, in every run with purges |
| Results.CurrentIsNewest | internal/store/results.go:199-214 | if a check's results are saved in time order, its current-state row is the newest result ever saved |
| Results.RollupOfDay | internal/store/results.go:72-81 | within retention, a rollup holds the running average and the exact maximum of all results of its day |
| Results.AverageDrift | internal/store/results.go:79 | the truncated running average lies between the minimum and the mean and at most (n-1)/2 below the mean |
| Results.DriftIsTight | internal/store/results.go:79 | the responses 0, 1, ..., n-1 attain that bound: the stored average stays 0 |
| Verdict.EvaluateCondition | internal/engine/engine.go:163-192 | a windowed condition holds iff its fail-count newest results in the window exist and match; otherwise the last result decides |
| Verdict.GroupConditions | internal/engine/engine.go:75-80 | the groups partition the conditions, each with the operator of its last condition |
| Verdict.EvaluateGroups | internal/engine/engine.go:82-117 | in every order of the groups the result is "some group holds", with results saved between reads allowed |
| Verdict.TriggeredIff | internal/engine/engine.go:75-117 | a rule is triggered iff in some group, as the operator of its last condition says, one condition holds or all do |
| RuleMeaning.LastResultDecides | internal/engine/engine.go:185-191 | in every run, a condition without a window holds iff its check has a result and the last one saved matches |
| RuleMeaning.LastResultsInWindowDecide | internal/engine/engine.go:164-183 | in every run whose purges leave the window alone, a windowed condition holds iff the last fail-count results saved exist, match and lie in the window |
| RuleMeaning.UnreportedIsHealthy | internal/engine/engine.go:185-189 | a rule none of whose checks has a result is not triggered, whatever its groups and operators |
| Verdict.DecidedIsTriggered | internal/engine/engine.go:82-112 | short-circuiting is sound: no value of the unread conditions could change the verdict |
| FailWindow.Normalize | internal/api/target_handlers.go:14-31 | the stored window: as asked for a single failure; otherwise at least what was asked and fail count * interval, one of the two, capped at 1800 |
| FailWindow.TriggersIff | internal/engine/engine.go:164-183 | exactly when a windowed condition triggers: its newest results match and the oldest needed one is inside the window |
| FailWindow.DetectsWithinSlack | internal/api/target_handlers.go:14-31 | if fail count * interval fits 1800, a check failing with slack d and evaluated within e is detected whenever e + (n-1)d is at most the interval |
| FailWindow.NeverDetects | internal/api/target_handlers.go:14-31 | if the results cannot fit the capped window, the condition never triggers |
| FailWindow.DetectsOnScheduleIff | internal/api/target_handlers.go:27-29 | a check failing exactly on schedule is detected iff (fail count - 1) * interval is at most 1800 |
| FailWindow.FailingUnnoticed | internal/api/target_handlers.go:14-31 | fail count 7 every 301 s: after seven or any more failures on schedule, at any later time, the condition does not hold |
| RuleStates.RuleStore.UpdateRuleStateCAS | internal/store/rules.go:144-163 | swaps iff the stored state (or, without a row, any expected one) is the expected one; the whole table after each outcome |
| RuleStates.RuleStore.TouchRuleEvaluated | internal/store/rules.go:165-173 | records the time of the evaluation in the rule's row, or gives it a healthy one, without changing any rule's state |
| RuleStates.Engine.EvaluateRule | internal/engine/engine.go:52-160 | an undisturbed evaluation stores the verdict and dispatches one alert iff that changed the state |
| EngineProtocol.ChangesAlternate | internal/store/rules.go:144-163 | in every interleaving, even without the mutex or with failing statements, each rule's transitions form a chain from the stored state, every one dispatched once or owed, at most ten dispatches in flight |
| EngineProtocol.OneAlertPerChange | internal/engine/engine.go:144-156 | when all is quiet, dispatched alerts equal state changes one for one |
| EngineProtocol.Convergence | internal/engine/engine.go:52-160 | with the mutex, once all evaluations finished the stored state is the verdict over the final results, conditions read after the last of them was saved |
| EngineProtocol.ConvergenceOfSingleResultRules | internal/engine/engine.go:185-191 | for rules without windows, at any later time: the stored state is the verdict over the last results |
| EngineProtocol.NoDeadlock | internal/engine/engine.go:54-62 | in every reachable state that is not quiet an evaluator can move, or ten dispatches are in flight, or only dispatches are left |
| EngineProtocol.EvaluationsFinish | internal/engine/engine.go:37-50 | after the last save only a bounded number of steps remain, so every evaluation finishes and every owed alert goes out |
| MutexNeeded.WithoutMutexTheStoredStateIsWrong | internal/engine/engine.go:53-62 | without the mutex some run ends, all evaluations finished, unhealthy while the last result is up |
| Scheduler.Scheduler.StopTimer | internal/scheduler/scheduler.go:180-187 | a pending timer is stopped, one whose callback runs is only forgotten |
| Scheduler.Scheduler.ScheduleCheck | internal/scheduler/scheduler.go:208-228 | a new pending timer at the interval, never below ten seconds, and a mutex for the check |
| Scheduler.Scheduler.FindMutex | internal/scheduler/scheduler.go:252-259 | a check has one mutex for good, made on first demand; nothing else changes |
| Scheduler.Scheduler.Reschedule | internal/scheduler/scheduler.go:236-244 | the callback's timer is over and the check gets a new pending one at the callback's interval, whatever the map said |
| Scheduler.Scheduler.DropInactive | internal/scheduler/scheduler.go:179-187 | exactly the timers of inactive checks are stopped and forgotten |
| Scheduler.Scheduler.PlaceCheck | internal/scheduler/scheduler.go:190-205 | new checks are scheduled, re-timed ones rescheduled, unchanged ones left alone |
| Scheduler.Scheduler.LoadChecks | internal/scheduler/scheduler.go:163-206 | from every reachable map state: exactly the active checks, their intervals, a mutex each, unchanged checks keep their timer, stopped timers were pending |
| Scheduler.ReloadReconciles | internal/scheduler/scheduler.go:163-206 | the same of the specification of a reload, entry by entry and timer by timer |
| Intervals.CallbackRenews | internal/scheduler/scheduler.go:230-245 | in every run, a callback ends by starting one pending timer of its own check at its own timer's interval, and nothing else changes |
| Intervals.EveryIntervalWasGiven | internal/scheduler/scheduler.go:163-245 | in every run, every timer runs at an interval a load gave its check, or at 10 seconds where that was less |
| Intervals.ActiveChecksRunAsConfigured | internal/scheduler/scheduler.go:163-245 | if no reload gave a check a new timer while its callback ran, every check of the last reload has a live timer, and it runs at max(10, the configured seconds) |
| SchedulerProtocol.RequestsRunInOrder | internal/scheduler/scheduler.go:154-161 | in every run, requests that found fewer than 100 waiting are started in order, each once |
| SchedulerProtocol.NoCheckDropsOut | internal/scheduler/scheduler.go:163-245 | before Stop, each active check has a pending timer or an unfinished callback that will reschedule it |
| SchedulerProtocol.RunsAreBounded | internal/scheduler/scheduler.go:247-263 | at most one run of a check past its lock, at most 200 runs hold a slot, at most 100 requests wait |
| SchedulerProtocol.CurrentRowIsNewest | internal/scheduler/scheduler.go:252-339 | per-check exclusion makes saves of a check time-ordered, so its current-state row is the newest result ever saved |
| SchedulerProtocol.NoDeadlock | internal/scheduler/scheduler.go:247-263 | an unfinished run can move, or 200 others hold the slots and one of those can |
| SchedulerProtocol.LoadKeepsOneLiveIff | internal/scheduler/scheduler.go:179-205 | a reload leaves every check with one live timer iff it gives no check a new one while its callback runs |
| SchedulerProtocol.RetimingDoubles | internal/scheduler/scheduler.go:190-205 | a reload that does leaves that check with two: the callback's and a pending one |
| SchedulerProtocol.OneChainPerCheck | internal/scheduler/scheduler.go:163-245 | in every run, no check ever has two live timers iff no reload gave a check a new one while its callback ran |
| SchedulerProtocol.LoadKeepsAllTrackedIff | internal/scheduler/scheduler.go:179-205 | a reload keeps every live timer on the map iff no running callback's check is dropped or re-timed |
| SchedulerProtocol.NoTimerIsLost | internal/scheduler/scheduler.go:163-245 | in every run, every live timer is always on the map iff no reload dropped or re-timed a check whose callback ran |
| TwoChains.TwoTimersForOneCheck | internal/scheduler/scheduler.go:190-245 | from an empty scheduler: load at 10 s, fire, load at 20 s, callback to its end; the check then has two pending timers and the map knows one |
| Alerter.AlertService.Dispatch | internal/alerter/alerter.go:25-219 | what a dispatch logs, to whom and when, given cooldown, channels and recipients |
| Alerter.AlertService.CheckRealerts | internal/alerter/alerter.go:222-385 | what one round over the firing rules logs |
| AlertLaws.WhatIsLogged | internal/alerter/alerter.go:77-219 | in every run an event logs nothing or one entry per destination in order: firing for a change to unhealthy, recovery for one to healthy, realert for a reminder |
| AlertLaws.EveryEntryHasItsEvent | internal/alerter/alerter.go:77-80 | in every run, every entry stems from an event of its rule and kind |
| AlertLaws.DispatchLogsIff | internal/alerter/alerter.go:25-75 | in every run, a dispatch logs iff alerting is set up, somebody is to be alerted and the rule's firing and recovery entries are all at least the cooldown old (1800 s if unset) |
| AlertLaws.ReminderLogsIff | internal/alerter/alerter.go:222-260 | in every run, a reminder logs iff re-alerts are on, somebody is to be alerted and the rule has problem entries, all at least the period old |
| AlertLaws.WhoIsAlerted | internal/alerter/alerter.go:92-219 | each recipient is alerted once by mail and once by Signal, as far as set up and as they can be reached |
| AlertLaws.NobodyElseIsAlerted | internal/alerter/alerter.go:92-219 | the webhook is called once if set up, and nobody who is no recipient |
| AlertLaws.SentInOrder | internal/alerter/alerter.go:109-175 | mails and Signal messages go out in the order of the recipients |
| AlertLaws.RoundIsReminders | internal/alerter/alerter.go:222-385 | a round of CheckRealerts is the reminders of its rules, one after the other |
| Alerter.TransitionsAreSpaced | internal/alerter/alerter.go:43-54 | in every sequential run two logged dispatches of a rule are at least the cooldown apart, 1800 s if unset |
| Alerter.FlappingBound | internal/alerter/alerter.go:43-54 | so T seconds hold at most T/cooldown + 1 of them, however the rule flaps |
| Alerter.RealertsWait | internal/alerter/alerter.go:243-247 | a re-alert comes at least the re-alert period after every problem alert of the rule |
| Alerter.RealertsNeverDelay | internal/store/alerts.go:131-147 | with or without re-alerts a run logs the same transition alerts at the same times |
| TargetRows.UpdatedTarget | internal/store/targets.go:294-335 | after an update the target row has the form's columns with literal defaults, keeps pause and creation time, and no other target changed |
| TargetRows.UpdateTouchesNothingElse | internal/store/targets.go:273-459 | users, settings, recipients, pauses, alerts, audit log, sessions and tokens stay |
| TargetRows.UpdatedRule | internal/store/targets.go:344-375 | with conditions, the target's rule is enabled, critical and has the form's operator and name; a new one starts healthy, an old one keeps its state; no other rule changed |
| TargetRows.UpdatedWithoutRule | internal/store/targets.go:329-342 | without, exactly the linked rule and its state go |
| TargetRows.UpdatedCheckShows | internal/store/targets.go:403-429 | the check of each condition, by its last mention, has the condition's columns, is enabled, and keeps its type and creation time if it was there |
| TargetRows.UpdatedChecksAre | internal/store/targets.go:377-429 | the target's checks after an update are those of its conditions, all enabled; other targets' checks are as they were |
| TargetRows.UpdatedRowShows | internal/store/targets.go:431-456 | each submitted condition has its row with literal defaults |
| TargetRows.UpdateFailsIff | internal/store/targets.go:273-459 | an update fails iff the target is unknown, another has the name, or, with conditions, the operator, a check or the linked rule is no good |
| TargetRows.CreatedTarget | internal/store/targets.go:156-184 | the row of a new target, column by column; no other target changed |
| TargetRows.CreatedRecipients | internal/store/targets.go:186-191 | its creator is its first recipient, and nobody else becomes one |
| TargetRows.CreationTouchesNothingElse | internal/store/targets.go:149-268 | users, settings, pauses, results, alerts, audit log, sessions and tokens stay |
| TargetRows.CreatedRule | internal/store/targets.go:201-213 | with conditions, one new rule, enabled, critical, with the form's operator, in state healthy |
| TargetRows.CreatedCheckShows | internal/store/targets.go:226-231 | each condition has a new, enabled check with its columns |
| TargetRows.CreatedRowShows | internal/store/targets.go:233-257 | and its row with literal defaults |
| TargetRows.CreateFailsIff | internal/store/targets.go:149-268 | creation fails iff the name is taken, the creator unknown, or, with conditions, the operator or a type is none of the schema's |
| TargetRows.DeletedRows | internal/store/targets.go:122-143 | the target, its rule with state and its checks go, all others stay |
| TargetRows.DeletedLinks | internal/store/targets.go:122-143 | of conditions, recipients, tags and pauses exactly those of the target go |
| TargetRows.DeletedResults | internal/store/targets.go:122-143 | the results of its checks go, those of other checks stay |
| TargetRows.PauseRoundTrip | internal/store/targets.go:674-709 | a pause and the unpause after it leave the store as it was but for one history row with the times of the two calls |
| TargetRows.UnpauseCloses | internal/store/targets.go:693-709 | an unpause ends the target's open pauses at the time of the call and changes nothing else |
| TargetRows.RowDetailIsComplete | internal/store/targets.go:574-599 | the detail shows exactly the condition rows of the target's rule on the target's checks, column by column |
| TargetRows.RowDetailShows | internal/store/targets.go:574-599 | each once, by group and sort order |
| TargetRows.PlainDetailShows | internal/store/targets.go:601-618 | a target without condition rows shows each check once, as a plain down-check |
| Targets.ChecksWritten | internal/store/targets.go:403-429 | the upsert loop loses, moves or retypes no check, edits only mentioned checks of the target, and inserts only its own |
| Targets.ConditionsWritten | internal/store/targets.go:431-456 | it leaves other conditions alone and gives each submitted condition its row |
| Targets.FinalChecks | internal/store/targets.go:404-429 | with distinct check ids each submitted condition determines its check's final row |
| TargetStore.UpsertConditions | internal/store/targets.go:403-456 | the loop succeeds iff every mentioned check is the target's own, every new one of a known type and the rule there, and then writes exactly those rows |
| TargetStore.DropUnmentioned | internal/store/targets.go:377-396 | deleting one by one removes exactly the target's unmentioned checks with everything that cascades |
| TargetStore.DiffInTransaction | internal/store/targets.go:377-456 | the smart diff as a whole: exactly when it fails, and otherwise every row it leaves |
| TargetStore.Store.CreateTargetWithConditions | internal/store/targets.go:149-268 | exactly when creation fails (name taken, unknown creator, operator or type), with the store unchanged; otherwise the whole new store |
| TargetStore.Store.UpdateTargetWithConditions | internal/store/targets.go:273-459 | exactly when the update fails, a foreign check id or a linked rule that is not there included, with the store unchanged; otherwise the whole new store |
| TargetStore.Store.DeleteTarget | internal/store/targets.go:122-143 | the target, its rule and everything that cascades go; an unknown target changes nothing |
| TargetStore.Store.PauseTarget | internal/store/targets.go:674-690 | refused when unknown or paused; otherwise the target and one new history row carry the time |
| TargetStore.Store.UnpauseTarget | internal/store/targets.go:693-709 | refused when unknown or not paused; otherwise the open history row is closed |
| TargetStore.Store.GetTargetDetail | internal/store/targets.go:565-631 | the conditions of the target's rule, each once, by group and sort order; plain checks when there are none |
| TargetDetail.CreatedComesBack | internal/store/targets.go:220-257 | the detail after a creation shows the submitted conditions, defaults filled in, stably sorted by group |
| TargetDetail.UpdatedComesBack | internal/store/targets.go:403-456 | so does the detail after an update with distinct check ids; kept checks show the type they had |
| TargetDetail.WritingBackIsFixpoint | internal/store/targets.go:565-618 | in a store whose conditions name rules and checks there are, writing a filled detail with distinct checks back succeeds and the next detail is the same |
| TargetDetail.UpdateThenWriteBack | internal/store/targets.go:273-459 | that is the case after every update with distinct check ids |
| TargetDetail.ComesBackFit | internal/store/targets.go:233-257 | what comes back of conditions with distinct checks, after a creation too, has distinct checks and every default filled in, so writing it back is such a fixpoint |
| TargetDetail.UpdateKeepsResults | internal/store/targets.go:385-396 | an update keeps all raw results, the current row and the rollups of every check it keeps, none of those it drops, and touches no other target's |
| TargetDetail.FallbackIsEmpty | internal/store/targets.go:601-618 | where every check has a condition, the fallback to plain checks shows nothing |
| Ownership.CreateKeepsConsistent | internal/store/targets.go:149-268 | creation keeps all foreign keys and gives every rule one owner, every condition's check the owner of its rule |
| Ownership.UpdateKeepsConsistent | internal/store/targets.go:329-456 | so does every update, with or without conditions |
| Ownership.DeleteKeepsConsistent | internal/store/targets.go:122-143 | deletion orphans no rule, state, condition, check, recipient or pause row |
| Lifecycle.EveryRunKeepsTheStore | internal/store/targets.go:149-709 | over all runs of create, update, delete, pause and unpause: no orphan, one owner per rule; a target is paused iff it has an open history row, which starts when it was paused; pauses never overlap |
| Lifecycle.AtMostOneOpen | internal/store/targets.go:674-709 | hence at most one open row per target |
| Lifecycle.EveryRunUsesItsChecks | internal/store/targets.go:385-456 | over all those runs no check is ever without a condition |
| Lifecycle.PauseTakesChecksOff | internal/store/checks.go:97-125 | a pause takes exactly the target's checks out of the active set, the unpause puts exactly those back |
| Backup.ExportBackup | internal/store/backup.go:97-319 | every configuration table listed once, row by row, in the order of its query |
| Backup.ExportIsOrdered | internal/store/backup.go:97-319 | users, rules and checks oldest first, conditions by rule, group and sort order |
| Backup.NamesAreOrdered | internal/store/backup.go:170-215 | targets by name, at the first letter that differs |
| Backup.Wipe | internal/store/backup.go:332-352 | in its order the wipe meets no foreign key at any statement and leaves only tag options and tokens |
| Backup.UsersFirstFailsIff | internal/store/backup.go:333-347 | wiping users first would fail iff an alert was acknowledged |
| Backup.InsertRows | internal/store/backup.go:356-509 | an insert loop succeeds iff keys are distinct, every row passes its constraints and no two clash; then it loads exactly the rows; what it passed through, row by row |
| Backup.CoherentIff | internal/store/store.go:39-200 | row by row, what a backup must look like: no id or name twice, only values of the schema, every row referred to is there |
| Backup.Store.RestoreBackup | internal/store/backup.go:322-512 | succeeds iff the data is coherent, otherwise changes nothing; the whole restored store; no foreign key dangles after any statement of it |
| Backup.InsertAll | internal/store/backup.go:354-509 | the loops as a whole succeed iff the data is coherent; each began when those before it were done, and every table passed through exactly its backup's rows, each referring to complete tables |
| Backup.EveryMomentKeepsKeys | internal/store/backup.go:354-509 | so at every moment the loops pass through, after any number of rows of any data, no foreign key dangles |
| Backup.ExportIsCoherent | internal/store/backup.go:97-319 | the export of any store that meets its constraints can be restored |
| Backup.RestoreReproduces | internal/store/backup.go:322-512 | restoring it anywhere reproduces every exported table and column, wipes monitoring data, keeps tag options and tokens |
| Backup.ReExportIsSame | internal/store/backup.go:97-319 | exporting again gives the same rows of every table but the conditions |
| Backup.ReExportConditionsIff | internal/store/backup.go:467-472 | and the same conditions iff none lacked its group operator |
| Recovery.EveryRunKeepsConstraints | internal/store/store.go:77-155 | over all runs of target operations names stay unique and rules and check types within the schema's CHECKs |
| Recovery.EveryRunCanBeRestored | internal/store/backup.go:97-512 | whatever such a run leaves, restoring its export succeeds |
| Recovery.RestoredStoreIsSound | internal/store/backup.go:322-512 | restored into any store, it has no orphan, one owner per rule and an intact pause history |
| Recovery.RestoredDetail | internal/store/targets.go:565-618 | and every target reads back the same, if no condition lacked its group operator |
| Recovery.EveryRunStaysFilled | internal/store/targets.go:233-257 | over all runs of target operations, from a store where none lacks it, no condition ever does |
| Recovery.EveryRunReadsBack | internal/store/targets.go:565-618 | so after any such run every target reads back the same from a restored backup |
| Recovery.EveryRunReExports | internal/store/backup.go:97-512 | and the restored store exports the same conditions |
| Recovery.DanglingLinkRestores | internal/store/backup.go:400-512 | a backup whose target names an absent rule is coherent and restores; then every update of that target with conditions fails |
| TokenLimiter.V1RateLimiter.Allow | internal/api/v1_rate_limit.go:47-70 | one decision and the new windows; a limit of zero or less admits without a trace |
| TokenLimiter.V1RateLimiter.PurgeStale | internal/api/v1_rate_limit.go:85-94 | exactly the windows older than five minutes go |
| TokenLimiter.UnlimitedPasses | internal/api/v1_rate_limit.go:47-50 | in every run, a limit of zero or less lets the request pass and leaves no trace |
| TokenLimiter.RefusedMeansUsedUp | internal/api/v1_rate_limit.go:55-69 | in every run, a refusal means that at least the limit was admitted within sixty seconds, which began less than sixty seconds ago |
| TokenLimiter.PurgingIsUnobservable | internal/api/v1_rate_limit.go:72-94 | inserting or removing purges anywhere in a run changes no answer |
| TokenLimiter.MinuteBound | internal/api/v1_rate_limit.go:55-69 | with a constant limit L any half-open minute admits at most 2L - 1 requests of a token |
| TokenLimiter.BoundIsTight | internal/api/v1_rate_limit.go:55-69 | a run attains it, for every limit |
| TokenLimiter.PromisedCapHoldsIff | internal/api/v1_rate_limit.go:15-18 | the promised cap of L in any minute holds iff L is 1 |
| TokenLimiter.RetryAfterSufficesIff | internal/api/v1_rate_limit.go:60-67 | exactly when waiting the advertised seconds is enough |
| TokenLimiter.PatientIsRefused | internal/api/v1_rate_limit.go:60-67 | a run in which it is not: limit 1, requests at 0 s and 0.5 s, told 59, refused at 59.5 s |
| LoginLimiter.Limiter.Allow | internal/api/ratelimit.go:42-65 | the answer and the records after an attempt |
| LoginLimiter.Limiter.RecordFailure | internal/api/ratelimit.go:68-91 | the records after a failure, lock included |
| LoginLimiter.Limiter.ResetSuccess | internal/api/ratelimit.go:94-98 | a success clears exactly the key's record |
| LoginLimiter.Limiter.CleanUp | internal/api/ratelimit.go:108-119 | exactly the stale records go |
| LoginLimiter.SuccessForgives | internal/api/ratelimit.go:94-98 | after a success the key has no record and its next attempt is allowed; other keys are untouched |
| LoginLimiter.RefusedMeansFive | internal/api/ratelimit.go:42-91 | in every run, sequential or not, a refusal means five failures within five minutes, which began less than twenty minutes ago |
| LoginLimiter.CleanupIsUnobservable | internal/api/ratelimit.go:101-121 | cleanups anywhere in a run, of any attempts, change no answer |
| LoginLimiter.FiveMinuteBound | internal/api/ratelimit.go:68-91 | with sequential failing attempts any closed five minutes hold at most 8 failures and the count never passes 5 |
| LoginLimiter.BoundIsTight | internal/api/ratelimit.go:68-91 | a run attains 8 |
| LoginLimiter.FifthFailureLocks | internal/api/ratelimit.go:53-56 | after the fifth failure of a window nothing that happens in the next 15 minutes lets an attempt through or changes the record |
| LoginLimiter.LockEnds | internal/api/ratelimit.go:53-62 | the first attempt after that is allowed |

## Left out

- Network checkers, mail, Signal and webhook sending, fail2ban and system health: a check run yields an arbitrary result, a send an arbitrary outcome that is logged either way.
- Field extraction and comparison of one result with one condition: an arbitrary predicate per condition.
- JSON, encryption, password and token hashing, sessions, routing, middleware, audit logging and settings validation.
- Time zones, text timestamps, sub-second rounding and `ROUND`: points in time are integers, days are numbers, percentages exact ratios.
- Scheduler behaviour after `Stop`, the settings cache and the jitter of a first run.
- Crashes between statements that no transaction joins, such as the two of `DeleteTarget`.
- Updates that mention a check twice, in the read-back theorems only: `UpdateTargetWithConditions` itself and ownership are proved for them too.
- Concurrent login attempts for one key, in the failure bound only.
- Results of one check with equal times: the model's window query lists the later saved one first.
- Free-form tags (the model's creations and updates leave the tags of targets alone), categories, backup files, the last-admin guard, the check of a backup's version, and schema migrations.
- Replacing a target's recipients, and purging alert history, sessions and audit logs on their schedules.
- GetDailyUptime, GetRecentResults and the list queries of the frontend.
- TargetStore.Store.GetTargetDetail: the order of plain checks by name, the rule state, recipients and tags of the answer are not modelled.
- Alerter.AlertService.Dispatch: message texts and the webhook's status settings are not modelled, and settings, targets and recipients do not change during a run.
- Backup.ExportBackup: the version stamps and creation time of the file are not modelled.
- EngineProtocol.Convergence: rules and conditions are fixed during the run and statements do not fail, as the claim needs.
