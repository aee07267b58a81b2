# Verified models of the property-management platform

A Dafny project that models the parts of the platform with real state, loops or arithmetic, and
proves what they keep over every input, every run or every interleaving. `dafny verify
dfyconfig.toml` checks all of it.

| file | models |
|---|---|
| `BracketScan.dfy`, `ResponseParser.dfy`, `ResponseFindings.dfy`, `JsonTexts.dfy` | the scanner that cuts JSON values out of a model's answer (`parse_response`), a reference definition of bracket balance outside string literals, and a printer of RFC 8259 objects and arrays |
| `PoolAgent.dfy`, `PoolHash.dfy` | the sandbox pool agent: main, poll, drain-watch, heartbeat and metrics coroutines, SIGTERM and the pool manager over one shared Redis state, one atomic call or await per step |
| `TierRunner.dfy`, `TierTrace.dfy` | the tier runner: any number of job tasks behind a semaphore, interleaved at every await, with workspaces, result keys, published messages and pip installs |
| `Requirements.dfy` | the `# Requirements:` header of a trainer |
| `Money.dfy`, `LateFees.dfy`, `Compounding.dfy` | the late-fee sweep in whole cents, any sequence of sweeps, and the compounding error |
| `DeductionLedger.dfy`, `ConcurrentLedger.dfy`, `LedgerPairs.dfy`, `LedgerAdds.dfy` | deposit deductions and the append-only ledger; the same requests interleaved at every database call; two requests, and any number of adds, at the same time |
| `Decimal.dfy`, `Base64.dfy`, `Paging.dfy` | decimal numerals, base64 (section 4 of RFC 4648) and cursor paging |
| `AccountingSummary.dfy`, `Vacancy.dfy` | the accounting folds and the vacancy snapshot |
| `AssetLifecycle.dfy`, `UnitStatus.dfy`, `References.dfy`, `Months.dfy` | asset operations, compare-and-set of a unit's status, number allocators, month arithmetic |
| `Options.dfy` | the option datatype |

Code that changes state in place is a class or a method with loops, and its contract equates the
new state with a function of the old one; the properties are proved about that function.
Coroutines are a transition relation; a run is a sequence of events, and a lemma over all event
sequences is a statement about all interleavings.

Amounts are whole cents and rates are exact fractions; Python's `round` is rounding half to even
of the exact quotient. Clocks, subprocess outcomes, pip, failing calls and query results are
parameters or events.

## Where the code does less than its design says

Each of these is a proved lemma with the exact condition or a concrete run.

- An integer of more than 4300 digits, or nesting that is too deep, in any of the values cut out of
  a model's answer makes `parse_response` raise and lose every finding, since only a
  JSONDecodeError is caught (`ResponseParser.ParseResponse`, with an answer in
  `JsonTexts.LongIntegerLosesFindings`).
- A drain request made while a job runs is erased when the agent goes idle. It is honoured exactly
  if the watcher has read the status but not yet the job id by then, and then finds no job id
  (`PoolAgent.DrainDuringJobHonouredIff`); otherwise it is forgotten for good
  (`PoolAgent.StaysForgotten`, with runs of both kinds). A request made while no job is claimed, to
  a watcher that has started and whose reads do not raise, is honoured exactly if the watcher gets
  its one to four steps before the request is overwritten, or all but the last and then finds no
  job id (`PoolAgent.DrainWhileFreeHonouredIff`).
- If a call inside `_run_job` raises after the job has left the idle set, the agent stays out of
  it until a later job is through (`PoolAgent.RaiseAbandonsJob`), and the job has a stored status
  exactly if it got past storing it (`PoolAgent.StatusIffPastStore`).
- The manager can put a busy container back into the idle set; that is the only way a container
  with a running job can be in it (`PoolAgent.IdleWhileBusy`, `IdleWhileBusyIffPutBack`).
- A tier job that loses no Redis, disk or pip call still loses its result, and does so exactly if
  its payload, a package name, a stdout line or `result.json` makes the runner raise: a missing or
  unusable job id, a source that is no text, overrides that cannot be merged, a NUL in a package
  name, a line that is too long, cannot be decoded or is JSON but no object, an artifact path that
  cannot be probed or read, a result that is JSON but no object, plots that cannot be listed
  (`TierRunner.DeliveredExactlyOnCleanInput`, with a run in `LineLosesResult`).
- A published trainer line with its own `event` of `done` or `error` ends a subscriber's stream
  early, and nothing else does (`TierRunner.StreamReachesTheEnd`, with a run in `StreamStopsEarly`).
- A job id that contains a colon does not survive the agent's payload format
  (`PoolAgent.PayloadRoundTrip`).
- Deduction requests that read the balance in each other's window lose entries: two requests for
  different deductions, and any number of adds, keep their books exactly if no entry is inserted
  between another request's read and insert (`LedgerPairs.TwoRequestsConserveIff`,
  `LedgerAdds.AddsConserveIff`, with a run in `LedgerPairs.LostDebit`).
- Two deletes of the same deduction that both find it before either saves credit it twice, unless
  both read the balance before either inserts its entry, when the second entry overwrites the
  first (`LedgerPairs.TwoRequestsConserveIff`, with a run in `LedgerPairs.CreditedTwice`).
- The ledger's last balance follows a request exactly if its time is new and, for a deletion, the
  lease still exists (`DeductionLedger.AddNeedsTheClock`, `DeleteConservesIffLeasePresent`).
- Without an org document every reference number is the same
  (`References.ReferencesDistinctIffOrgExists`); concurrent requests share a work-order number
  unless one was created in between (`References.WorkOrderNumbersDistinctIffCreatedBetween`).
- An asset created as `checked_out` has no open checkout record until it is checked in, disposed
  of or written off (`AssetLifecycle.LifecycleOfRun`).
- The month keys of the trend sort as strings exactly if all six years have as many digits
  (`Months.WindowSortedIff`).

## Model

| member | source | states |
|---|---|---|
| `BracketScan.DepthIsBalance` | scripts/code_scan.py:168-188 | the scanner's `depth`, `in_str` and `escape` variables, started in any state, count exactly the opening minus closing brackets of one kind that lie outside string literals, where literals are defined independently by their closing quote |
| `BracketScan.ExtractIsTheScan` | scripts/code_scan.py:161-192 | for every text, the extractor's list is the one and only list in which each segment starts at the first opening bracket after the previous segment, is the shortest balanced text from there, and after which no bracket that balances is left |
| `BracketScan.ScanInOrder` | scripts/code_scan.py:161-192 | the segments are disjoint, in increasing order, each the shortest balanced one from its bracket, with no opening bracket in the gaps; an opening bracket that never balances ends the scan |
| `ResponseParser.ReadValue` | scripts/code_scan.py:166-192 | the inner loop ends at the shortest prefix whose own brackets balance, or reports that no prefix balances |
| `ResponseParser.Collector.Ingest` | scripts/code_scan.py:150-159 | recursive ingestion of nested lists appends the findings of all dictionaries reachable through lists in document order, and the last summary among them replaces the old one |
| `ResponseParser.ParseResponse` | scripts/code_scan.py:146-194 | both nested loops terminate on every text; the scan raises if and only if decoding one of the extracted texts raises something else than a JSONDecodeError; otherwise the result is that of flattening the values of exactly the extracted texts that decode, and the others are skipped whole |
| `ResponseParser.TakenIs` | scripts/code_scan.py:161-192 | collecting from texts one after the other, until one raises, raises if and only if some text does, and otherwise adds the findings and the last summary of all their values |
| `ResponseFindings.FindingsSelect` | scripts/code_scan.py:155-158 | every dictionary is selected on its own and in its place: it is a finding if and only if it has a severity or a title, and no summary other than null, false, 0, "", [] or {} |
| `ResponseFindings.ScannedFindings` | scripts/code_scan.py:150-159 | the findings of a scan are exactly the dictionaries, reached through lists in a decoded value, that have a severity or a title and no summary that is not blank |
| `ResponseFindings.SummaryIsLast` | scripts/code_scan.py:155-157 | the summary is the last dictionary with a summary that is not blank, and stays what it was if there is none |
| `ResponseFindings.LeavesFlatten` | scripts/code_scan.py:150-154 | a list stands for its items in its own place, a dictionary for itself, anything else for nothing |
| `ResponseParser.CollectOneMore` | scripts/code_scan.py:150-159 | findings and last summary of a list of values compose value by value |
| `JsonTexts.JsonNeutral` | scripts/code_scan.py:168-188 | reading any JSON text, whatever brackets, quotes and backslashes its strings hold, leaves the automaton where it was and never below its depth |
| `JsonTexts.CompositeCloses` | scripts/code_scan.py:168-188 | counting only the opening bracket's kind first returns to zero at the last character of a printed object or array |
| `JsonTexts.ScannerRoundTrip` | scripts/code_scan.py:161-192 | from any objects and arrays printed one after another, separated by any text without opening brackets, exactly those texts are cut out, in order |
| `JsonTexts.PrintedAnswerYields` | scripts/code_scan.py:146-194 | with a decoder that inverts the printer, the printed values themselves come back in order and nothing raises, so `ParseResponse` returns their flattened findings and last summary |
| `JsonTexts.LongIntegerLosesFindings` | scripts/code_scan.py:184-187 | an answer with a finding that is returned, and the same answer with an integer over the digit limit behind it, on which the scan raises |
| `PoolAgent.PayloadRoundTrip` | apps/ml/sandbox/agent.py:195-201 | an `id:mode` payload parses back to that id and mode if and only if the id holds no colon |
| `PoolAgent.JobConservation` | apps/ml/sandbox/agent.py:186-209 | in every reachable state, raising or not: the jobs pushed are the jobs handled, then at most one in hand, then the queue, in push order |
| `PoolAgent.OneStatusPerJob` | apps/ml/sandbox/agent.py:103-165 | if nothing raised, the n-th pushed job has exactly the n-th signal and the n-th status; they carry its id, agree, and are `1`/`done` if and only if its subprocess returned 0 in time |
| `PoolAgent.IdleWhileBusyIffPutBack` | apps/ml/sandbox/agent.py:52-64 | from leaving to rejoining the idle set, and so while its job's subprocess runs, the container is in the idle set if and only if the manager has put it back there |
| `PoolAgent.IdleWhileBusy` | apps/ml/app/services/pool_manager.py:143-156 | the exception does occur: a run in which the manager's `sadd` puts a container with a running job into the idle set |
| `PoolAgent.AtMostOneMoreJob` | apps/ml/sandbox/agent.py:186-202 | at most one job is started after the shutdown flag is set, and after it none can be |
| `PoolAgent.CleanShutdown` | apps/ml/sandbox/agent.py:309-325 | the `finally` block runs only with no job in hand; once it is through, the container is in either set if and only if the manager has since put it there, and is `dead` unless the manager has since written the status |
| `PoolAgent.RunKeepsInv` | apps/ml/sandbox/agent.py:103-325 | every step of every coroutine, of the manager and of SIGTERM keeps the invariant behind the results above |
| `PoolHash.BusyWhileWorking` | apps/ml/sandbox/agent.py:103-106 | in every run, from being marked busy to being marked idle, the hash says busy and names the job, unless the manager has since written the status |
| `PoolHash.IdleAtRest` | apps/ml/sandbox/agent.py:52-64 | a gathering agent whose last job that was marked busy has been marked idle again says idle and names no job, unless the manager has since written the status |
| `PoolHash.InIdleSetUnlessRemoved` | apps/ml/sandbox/agent.py:52-64 | before a job has left the idle set and after the last one has rejoined it, the container is in the idle set if and only if the manager has not taken it out since |
| `PoolHash.RegisteredUnlessRemoved` | apps/ml/sandbox/agent.py:67-82 | from registering on, the container is in the registry unless taken out, and its hash says warming until it says idle |
| `PoolHash.BusyAfterRaise` | apps/ml/sandbox/agent.py:205-209 | after a raise in between, the hash stays busy |
| `PoolHash.LoopsRunUntilShutdown` | apps/ml/sandbox/agent.py:186-254 | until the flag is set all four loops run; only the poll loop can end before, if its own error handler fails |
| `PoolHash.LoopsEndAtNextCheck` | apps/ml/sandbox/agent.py:186-301 | SIGTERM sets the flag, and with the flag set every loop ends at its next check |
| `PoolAgent.DrainHonouredIff` | apps/ml/sandbox/agent.py:239-254 | over all runs, a request that is erased at some point (or never) makes the agent shut down if and only if the watcher went through its reads while the request stood and no job was claimed, or had read the status when it was erased and then finds no job id |
| `PoolAgent.DrainDuringJobHonouredIff` | apps/ml/sandbox/agent.py:164-165 | a request made during a job is honoured if and only if, when the agent marks itself idle, the watcher is between its two reads, and its second read then finds no job id |
| `PoolAgent.DrainWhileFreeHonouredIff` | apps/ml/sandbox/agent.py:242-254 | a request made while no job is claimed is honoured if and only if the watcher gets the one to four steps it needs before the status is overwritten, or all but the last, which then still finds no job id |
| `PoolAgent.StaysForgotten` | apps/ml/sandbox/agent.py:239-254 | once a request is erased and the watcher is not between its reads, no run without SIGTERM or a new request ever sets the shutdown flag |
| `PoolAgent.DrainDuringJobIsLost` | apps/ml/sandbox/agent.py:164-165 | a concrete run: a request during a job, then six steps without any failure, after which the agent is idle and available; no continuation without a new request shuts it down |
| `PoolAgent.DrainDuringJobIsHonoured` | apps/ml/sandbox/agent.py:239-254 | the same request, with the watcher's reads before and after the end of the job, does shut the agent down |
| `PoolAgent.RecordsOfEveryRun` | apps/ml/sandbox/agent.py:155-161 | whatever raised, the k-th stored status is that of the k-th job that got past storing it and there is no other; the same for published signals |
| `PoolAgent.StatusIffPastStore` | apps/ml/sandbox/agent.py:155-165 | in every reachable state a job id has a stored status if and only if a job of that id got past storing it |
| `PoolAgent.RaiseAbandonsJob` | apps/ml/sandbox/agent.py:205-209 | after a call has raised between leaving and rejoining the idle set, and without the manager's adding it, the container stays out of the idle set until a later job rejoins, and is in it right then |
| `TierRunner.PermitConservation` | apps/ml/sandbox/tier_runner.py:215-252 | in every interleaving, free permits plus tasks past the semaphore equal the limit, raising tasks included |
| `TierRunner.DeliveredExactlyOnCleanInput` | apps/ml/sandbox/tier_runner.py:246-444 | a finished task that lost no Redis, disk or pip call has stored its result once, with one terminal message as the last publication, if and only if its payload fields, package names, the stdout lines read and the result file were all of the kinds that raise nothing; otherwise it raised |
| `TierRunner.EndsAtBadLine` | apps/ml/sandbox/tier_runner.py:337-375 | in every run a task ends at a line if and only if some line that it read was too long, could not be decoded, was JSON but no object, or named an artifact that cannot be probed or read |
| `TierTrace.TaskSawTheEvents` | apps/ml/sandbox/tier_runner.py:322-398 | in every run, whether a task spawned and timed out, the lines it read and the result it found are what the environment did |
| `TierTrace.LinesArePublished` | apps/ml/sandbox/tier_runner.py:340-375 | in every run, what a task has published for its lines is, in order, one log line per text or object line and one artifact per readable file, less those whose publish failed |
| `TierTrace.WhichEnd` | apps/ml/sandbox/tier_runner.py:385-444 | a completed task that lost no call ends with `done` and has found a result if and only if its runner was spawned and did not time out, and else ends with `error` |
| `TierTrace.InstalledBeforeSpawn` | apps/ml/sandbox/tier_runner.py:290-293 | whenever a runner is spawned, the packages that its trainer declares are installed, or its own pip command has failed |
| `TierTrace.InstallIsLogged` | apps/ml/sandbox/tier_runner.py:179-210 | a completed task that lost no call has published two log messages if pip ran and none otherwise |
| `TierTrace.DeliveredUnlessCallFails` | apps/ml/sandbox/tier_runner.py:246-444 | without a failing call, other than perhaps the spawn, a finished task has delivered if and only if its input was clean |
| `TierTrace.FailEndsTask` | apps/ml/sandbox/tier_runner.py:252-444 | a failing disk or Redis call, other than a publish, ends the task as raised, with what it has sent so far, and frees its permit |
| `TierRunner.PlainTextIsDelivered` | apps/ml/sandbox/tier_runner.py:372-375 | a run in either mode with a plain text line, which is published as a log line and loses nothing |
| `TierRunner.LineLosesResult` | apps/ml/sandbox/tier_runner.py:337-375 | in either mode and for every kind of harmful line, a run in which nothing fails and the result is lost |
| `TierRunner.StreamReachesTheEnd` | apps/ml/sandbox/tier_runner.py:365-375 | a subscriber that stops at the first `done` or `error` event streams all of a delivered job's messages if and only if no line that was read and published carried such an event of its own |
| `TierRunner.StreamStopsEarly` | apps/ml/sandbox/tier_runner.py:365-375 | a run in either mode that delivers its result while the subscriber sees only the runner's own `done` line |
| `TierRunner.StreamedUpTo` | apps/ml/app/services/split_sandbox_service.py:123-146 | streaming up to the first final event returns a stream that ends with one whole if and only if no message before the last is final |
| `TierRunner.WorkspaceSurvival` | apps/ml/sandbox/tier_runner.py:253-257 | the workspace that a finished task has made is still on disk if and only if the task raised, or the mode is real and it got past spawn and timeout; a completed task has made one |
| `TierRunner.InstalledProvenance` | apps/ml/sandbox/tier_runner.py:167-210 | in every interleaving of installs, the packages believed installed only grow and are exactly those named in pip commands that exited with success |
| `TierRunner.NotInstalledSplits` | apps/ml/sandbox/tier_runner.py:173-175 | a pip command names exactly the wanted packages that are not yet installed |
| `Requirements.ParseRequirements` | apps/ml/sandbox/tier_runner.py:106-164 | the first header line's names, or else the class attribute's, without later duplicates |
| `Requirements.WithoutRepeats` | apps/ml/sandbox/tier_runner.py:157-164 | the seen-set loop computes the deduplication |
| `Requirements.DedupElements` | apps/ml/sandbox/tier_runner.py:157-164 | deduplication keeps exactly the elements |
| `Requirements.DedupOrder` | apps/ml/sandbox/tier_runner.py:157-164 | the kept names stand in the strict order of their first occurrences, hence without repetition |
| `Requirements.HeaderMatches` | apps/ml/sandbox/tier_runner.py:125-127 | the printed header survives `strip` and the pattern captures exactly the joined names |
| `Requirements.SplitJoined` | apps/ml/sandbox/tier_runner.py:127-127 | splitting at commas and trimming undoes joining with commas and blanks |
| `Requirements.HeaderRoundTrip` | apps/ml/sandbox/tier_runner.py:106-164 | a printed header of non-empty, trimmed, comma-free one-line names, with any text on the lines after it, parses back to the deduplicated names |
| `Requirements.HeaderLineMatches` | apps/ml/sandbox/tier_runner.py:125-125 | a hash, spaces, "requirement" with a small or capital r, perhaps an s, spaces, a colon, spaces and names is a header, and the names are captured |
| `Requirements.HeaderLineParts` | apps/ml/sandbox/tier_runner.py:125-125 | conversely, every line that the pattern matches is of that form |
| `Requirements.HeaderAmongLines` | apps/ml/sandbox/tier_runner.py:118-128 | a header is found behind blank lines and other comments |
| `Requirements.CodeEndsTheSearch` | apps/ml/sandbox/tier_runner.py:118-128 | a header below the first line of code is not found |
| `Requirements.AttributeWhen` | apps/ml/sandbox/tier_runner.py:130-155 | the class attribute counts if and only if the header names nothing |
| `Requirements.PartsGiveNames` | apps/ml/sandbox/tier_runner.py:127-127 | every part between commas that is not blank gives its trimmed name, in its place |
| `Requirements.LineBreaks` | apps/ml/sandbox/tier_runner.py:119-119 | lines end at a line feed, a carriage return or both, and the last one need not |
| `Money.RoundingError` | apps/backend/app/services/late_fee_service.py:53-54 | rounding to the cent is off by at most half a cent, and at exactly half a cent goes to the even one |
| `LateFees.InvoiceStore.FindOverdue` | apps/backend/app/services/late_fee_service.py:23-27 | the query returns exactly the overdue invoices of the org, each once and in order |
| `LateFees.InvoiceStore.ApplyLateFees` | apps/backend/app/services/late_fee_service.py:29-106 | every invoice ends as its own guards decide, whatever happens to the others; skipped invoices and failed saves are unchanged; applied + skipped = overdue; applied and the total equal the stored increases |
| `LateFees.ChargedWhen` | apps/backend/app/services/late_fee_service.py:23-60 | a sweep changes an invoice if and only if it is of the org, overdue and not deleted, its property has an enabled setting, due day plus grace days has come (without a due day, there is no grace), there is room under the cap, the fee is more than half a cent, and the save succeeds |
| `LateFees.ChargedHowMuch` | apps/backend/app/services/late_fee_service.py:52-77 | a charged invoice has the fee added once to total, balance, fee amount and lines, and one to its count; the fee is exactly the fixed one, or the percentage of the balance up to half a cent |
| `LateFees.Replaced` | apps/backend/app/services/late_fee_service.py:71-80 | saving one invoice changes the store's sums by exactly its own change |
| `LateFees.SweepsKeepBooks` | apps/backend/app/services/late_fee_service.py:71-77 | over any sweeps each invoice keeps total minus balance; `late_fees_applied` and `late_fee_amount` grow by exactly the number and sum of the `late_fee` lines, and old lines stay |
| `LateFees.CapRespected` | apps/backend/app/services/late_fee_service.py:47-50 | under a fixed positive cap, no invoice's count exceeds the larger of its initial value and the cap |
| `Compounding.GeometricSum` | apps/backend/app/services/late_fee_service.py:52-58 | the accumulated error coefficient is (r^k - 1)/(r - 1), division-free |
| `Compounding.OneApplication` | apps/backend/app/services/late_fee_service.py:52-74 | one percentage fee multiplies the balance by 1 + p/100 up to half a cent |
| `Compounding.CompoundedBalance` | apps/backend/app/services/late_fee_service.py:52-74 | by induction over any sweeps, k of which charged the invoice, the balance stays within the geometric error and rose at least one cent per charge |
| `Compounding.CompoundingBound` | apps/backend/app/services/late_fee_service.py:52-74 | after k charges at a positive percentage, the balance differs from b0 r^k by at most half of (r^k - 1)/(r - 1) cents and rose at least one cent per charge |
| `DeductionLedger.LeaseLedger.ReadLastBalance` | apps/backend/app/repositories/ledger_repository.py:25-31 | the running balance of the newest entry of the lease, or 0 |
| `DeductionLedger.BalanceIsNewest` | apps/backend/app/repositories/ledger_repository.py:25-31 | the last balance is zero for a lease without entries, and else the running balance of its newest entry |
| `DeductionLedger.LeaseLedger.AddDeduction` | apps/backend/app/services/deduction_service.py:36-81 | the whole new state of an add, and nothing changes for a missing lease |
| `DeductionLedger.LeaseLedger.ListDeductions` | apps/backend/app/services/deduction_service.py:84-90 | exactly the active deductions of the lease, newest first, with their sum |
| `DeductionLedger.LeaseLedger.DeleteDeduction` | apps/backend/app/services/deduction_service.py:93-120 | the whole new state of a delete, and nothing changes for an unknown or deleted deduction |
| `DeductionLedger.AddNeedsTheClock` | apps/backend/app/repositories/ledger_repository.py:25-31 | with unequal times, the last balance drops by the deduction if and only if the request is later than the newest entry |
| `ConcurrentLedger.DriftOfRun` | apps/backend/app/services/deduction_service.py:36-120 | over every interleaving of requests, last balance plus active deductions moves by exactly the sum of the single drifts: of inserts, by how far the balance they read is from the last one; of saves, by what was already deleted or never credited |
| `ConcurrentLedger.ConservedWithoutOverlap` | apps/backend/app/services/deduction_service.py:36-120 | if no entry of a lease is inserted between another request's read and insert, and no deduction is saved during another delete of it, balance plus active deductions is kept in every interleaving |
| `LedgerPairs.TwoRequestsConserveIff` | apps/backend/app/services/deduction_service.py:36-120 | two requests of a lease, in every interleaving until both are over, keep balance plus active deductions if and only if: for different deductions, there is no moment when both have read the balance and neither has inserted its entry; for two deletes of the same one, there is such a moment or one of them is refused |
| `LedgerPairs.DifferentConserveIff` | apps/backend/app/services/deduction_service.py:54-120 | the first half, for adds and for deletes that may name a deduction that is gone or that the other request is still adding |
| `LedgerPairs.SameConserveIff` | apps/backend/app/services/deduction_service.py:93-120 | the second half: two deletes of one deduction |
| `LedgerPairs.LostDebit` | apps/backend/app/services/deduction_service.py:54-70 | from any books, a run of two adds that records both deductions but loses the first one's debit |
| `LedgerPairs.CreditedTwice` | apps/backend/app/services/deduction_service.py:97-120 | from any books, a run of two deletes of one deduction after which its amount has been credited twice |
| `LedgerAdds.AddsConserveIff` | apps/backend/app/services/deduction_service.py:54-70 | any number of adds to one lease, in every interleaving until all are over, keep balance plus active deductions if and only if no entry is inserted between another one's read and insert; otherwise the balance is too high |
| `ConcurrentLedger.AddAlone` | apps/backend/app/services/deduction_service.py:36-70 | an add whose steps are not interrupted is the sequential add |
| `ConcurrentLedger.DeleteAlone` | apps/backend/app/services/deduction_service.py:93-120 | a delete whose steps are not interrupted is the sequential delete |
| `DeductionLedger.DeleteConservesIffLeasePresent` | apps/backend/app/services/deduction_service.py:101-120 | deleting keeps last balance plus active deductions if and only if the lease still exists |
| `DeductionLedger.DeleteTwice` | apps/backend/app/repositories/deduction_repository.py:13-18 | a second delete of the same deduction changes nothing |
| `DeductionLedger.DeleteChangesWhen` | apps/backend/app/services/deduction_service.py:97-120 | a delete changes the books if and only if the deduction exists, is of the org and is active |
| `DeductionLedger.DeleteChangesWhat` | apps/backend/app/services/deduction_service.py:101-120 | it flags that deduction only, and credits its amount on top of the last balance if the lease exists |
| `DeductionLedger.AddChanges` | apps/backend/app/services/deduction_service.py:36-70 | an add changes the books exactly for a known lease, by one active deduction and its debit |
| `DeductionLedger.JournalOfRun` | apps/backend/app/services/deduction_service.py:36-120 | over any clocked run the old journal stays as a prefix, every new running balance is the signed prefix sum of its lease, and the active deductions of a present lease change by the opposite of that sum |
| `DeductionLedger.LedgerConservation` | apps/backend/app/services/deduction_service.py:36-120 | on a lease that stays present, last balance plus listed total is the same after any run as before |
| `Base64.DecodeEncode` | apps/backend/app/services/accounting_service.py:184-191 | base64 decoding inverts encoding on every byte sequence |
| `Decimal.ValueOfText` | apps/backend/app/services/accounting_service.py:184-191 | reading a decimal numeral inverts printing it |
| `Paging.CursorRoundTrip` | apps/backend/app/services/accounting_service.py:181-191 | the opaque cursor of an offset decodes to that offset |
| `Paging.BadCursorStartsOver` | apps/backend/app/services/accounting_service.py:181-186 | a missing, empty or unreadable cursor gives the first page |
| `Paging.CrawlReturnsEverything` | apps/backend/app/services/accounting_service.py:180-198 | following `next_cursor` from no cursor until `has_more` is false returns the whole list exactly once, in max(1, ceil(n / size)) calls |
| `Paging.CrawlItems` | apps/backend/app/services/accounting_service.py:335-346 | from any cursor inside the list, a crawl returns exactly the rest of the list |
| `AccountingSummary.GroupByStatus` | apps/backend/app/services/accounting_service.py:55-59 | the dict has exactly the statuses of non-void invoices, each with its invoiced sum |
| `AccountingSummary.GroupByProperty` | apps/backend/app/services/accounting_service.py:61-71 | one row per property of a non-void invoice, in order of first occurrence, with its three sums |
| `AccountingSummary.GetAccountingSummary` | apps/backend/app/services/accounting_service.py:50-91 | the response consists of the flat totals and of both breakdowns |
| `AccountingSummary.GroupsPartition` | apps/backend/app/services/accounting_service.py:55-71 | group sums over distinct keys that cover all non-void invoices add up to the flat sum |
| `AccountingSummary.AggregationAgrees` | apps/backend/app/services/accounting_service.py:50-91 | in every response, rows and statuses add up to total_invoiced, rows to total_collected, and the rows' outstanding exceeds total_outstanding by exactly the balance left on paid invoices |
| `AccountingSummary.OneMoreInvoice` | apps/backend/app/services/accounting_service.py:50-82 | one more invoice raises the totals by its own total and paid amount, and its balance unless it is paid, its property row by all three and its status by its total; a void one raises nothing, and nothing else changes |
| `AccountingSummary.EmptyResponse` | apps/backend/app/services/accounting_service.py:50-82 | without invoices every amount and the rate are zero |
| `AccountingSummary.BooksBalance` | apps/backend/app/services/accounting_service.py:50-53 | if total is paid plus balance on every counted invoice, total_invoiced is total_collected plus total_outstanding plus what is left on paid invoices |
| `AccountingSummary.RateIsShare` | apps/backend/app/services/accounting_service.py:53-53 | the rate times what was invoiced is what was collected, and zero if nothing was invoiced |
| `AccountingSummary.RowsAre` | apps/backend/app/services/accounting_service.py:61-82 | there is exactly one row for each property of an invoice that is not void |
| `AccountingSummary.RowNames` | apps/backend/app/services/accounting_service.py:74-82 | each row is named by its property, or by the id if that is not found |
| `Vacancy.LastLeaseIsLatest` | apps/backend/app/services/accounting_service.py:289-314 | the lease that a vacant unit is measured by is one of its past leases, none was vacated later, and every earlier one in the list was vacated strictly earlier |
| `Vacancy.LostRentError` | apps/backend/app/services/accounting_service.py:318-319 | the lost rent is rent times days over 30 up to half a cent, zeros included |
| `Vacancy.VacantSince` | apps/backend/app/services/accounting_service.py:310-316 | a unit has been vacant since the latest vacating of its past leases, or since its creation if it has none, and for no days before that |
| `Vacancy.VacatedOnIs` | apps/backend/app/services/accounting_service.py:289-294 | a past lease was vacated at its end, else when it was terminated, else on 1 January 2000 |
| `Vacancy.RentOfDetail` | apps/backend/app/services/accounting_service.py:318-318 | the rent is that of a lease vacated last, or if that is zero or missing the base rent, or zero |
| `Vacancy.VacantUnitsAre` | apps/backend/app/services/accounting_service.py:277-330 | there is a detail for exactly the units that no active lease names |
| `Vacancy.PlaceIs` | apps/backend/app/services/accounting_service.py:322-327 | labels and property names, with what stands in for missing ones |
| `Vacancy.VacancyRateError` | apps/backend/app/services/accounting_service.py:287-287 | the rate is the vacant share up to half of a hundredth of a percent |
| `Vacancy.GetVacancyLive` | apps/backend/app/services/accounting_service.py:277-357 | occupied + vacant = total, the rate and the estimate are those of the vacant units, and the page is cut from the sorted details, which carry labels and property names |
| `Vacancy.SortIsStable` | apps/backend/app/services/accounting_service.py:332-333 | the sort is by days vacant, longest first, keeps the order of equal days and the multiset within each day count, and the lost-rent sum |
| `Vacancy.PagesAddUp` | apps/backend/app/services/accounting_service.py:332-357 | the lost rent of the items of all cursor pages adds up to the estimate in every response |
| `AssetLifecycle.MarkReturned` | apps/backend/app/services/asset_service.py:331-339 | the reversed loop closes the last open checkout record and no other |
| `AssetLifecycle.AssetService.CreateAsset` | apps/backend/app/services/asset_service.py:105-171 | one new asset without histories, with one audit entry and the looked-up property name |
| `AssetLifecycle.AssetService.CheckoutAsset` | apps/backend/app/services/asset_service.py:303-323 | the new status, checkout record and audit entry of a checkout; refused unless active |
| `AssetLifecycle.AssetService.CheckinAsset` | apps/backend/app/services/asset_service.py:326-349 | the whole new state of a check-in |
| `AssetLifecycle.AssetService.TransferAsset` | apps/backend/app/services/asset_service.py:265-300 | the whole new state of a transfer, with the looked-up property name |
| `AssetLifecycle.AssetService.DisposeAsset` | apps/backend/app/services/asset_service.py:400-414 | the whole new state of a disposal |
| `AssetLifecycle.AssetService.WriteOffAsset` | apps/backend/app/services/asset_service.py:417-431 | the whole new state of a write-off |
| `AssetLifecycle.AssetService.AddValuation` | apps/backend/app/services/asset_service.py:378-397 | the whole new state after a valuation |
| `AssetLifecycle.AssetService.AddMaintenanceRecord` | apps/backend/app/services/asset_service.py:352-375 | the whole new state after a maintenance record |
| `AssetLifecycle.ApplyKeepsCheckouts` | apps/backend/app/services/asset_service.py:303-431 | every operation keeps: at most one open checkout, it is the last, none if active, one if checked out |
| `AssetLifecycle.LifecycleOfRun` | apps/backend/app/services/asset_service.py:303-431 | after any operations on a fresh asset the checkout rule above holds if and only if the asset was not created as checked out, or has since been checked in, disposed of or written off |
| `AssetLifecycle.TransfersOfRun` | apps/backend/app/services/asset_service.py:265-300 | in every run from a fresh asset each transfer starts where the one before ended, and the asset is where the last one ended |
| `AssetLifecycle.AuditOfRun` | apps/backend/app/services/asset_service.py:265-431 | the audit trail grows by exactly one entry, naming the operation, per accepted operation |
| `AssetLifecycle.RefusedWhen` | apps/backend/app/services/asset_service.py:303-308 | an operation changes nothing if and only if it is a checkout of an asset that is not active |
| `AssetLifecycle.StatusAfter` | apps/backend/app/services/asset_service.py:265-431 | the status that each operation leaves |
| `AssetLifecycle.FieldsAfter` | apps/backend/app/services/asset_service.py:265-431 | value, next service, condition, place and ending change with their own operations only, and how |
| `AssetLifecycle.RecordsAfter` | apps/backend/app/services/asset_service.py:265-397 | each history grows by the operation's own record and by no other |
| `AssetLifecycle.AuditAfter` | apps/backend/app/services/asset_service.py:265-431 | the audit entry that each operation adds |
| `AssetLifecycle.FreshIs` | apps/backend/app/services/asset_service.py:127-170 | a new asset is worth its cost, is where and as it was asked for, and has no history |
| `AssetLifecycle.ClosesLastOpen` | apps/backend/app/services/asset_service.py:331-339 | a check-in closes the last open checkout, with time, condition and joined notes, and leaves the others |
| `AssetLifecycle.NamesOfPlaces` | apps/backend/app/services/asset_service.py:270-275 | a transfer keeps a given property name and looks up a missing one; a creation always looks it up |
| `UnitStatus.UnitStore.AtomicStatusTransition` | apps/backend/app/repositories/unit_repository.py:76-98 | the unit changes, and is returned, if and only if org, expected status and not-deleted match |
| `UnitStatus.TransitionWhen` | apps/backend/app/repositories/unit_repository.py:76-98 | a call sets status and time of a unit if and only if it is its org's, has the expected status and is not deleted, and else changes nothing |
| `UnitStatus.SuccessesChain` | apps/backend/app/repositories/unit_repository.py:76-98 | in any interleaving the successful calls on a unit chain: each expected what the one before set, and the last one's status is the unit's |
| `UnitStatus.ReservedTwiceMeansVacatedBetween` | apps/backend/app/repositories/unit_repository.py:76-98 | between two successful vacant-to-reserved calls, a successful call set the unit back to vacant |
| `UnitStatus.AtMostOneReservation` | apps/backend/app/repositories/unit_repository.py:76-98 | in any interleaving without a successful call back to vacant, at most one vacant-to-reserved call succeeds |
| `UnitStatus.OneReserverWins` | apps/backend/app/repositories/unit_repository.py:76-98 | of any number of reservers, among any other steps, at most one succeeds, and one does if and only if the unit was theirs, vacant and not deleted and the first of them came before its deletion |
| `References.OrgCounters.NextReferenceNumber` | apps/backend/app/repositories/invoice_repository.py:142-151 | the counter rises by one and is the number; without the org document nothing is stored and the number is 1 |
| `References.ReferenceInjective` | apps/backend/app/repositories/invoice_repository.py:150-151 | under one prefix, equal references mean equal counters, also past six digits |
| `References.ReferencesDistinctIffOrgExists` | apps/backend/app/repositories/invoice_repository.py:142-151 | in any interleaving, two calls of one org under one prefix get different references if and only if the org exists |
| `References.IssuedNumber` | apps/backend/app/repositories/invoice_repository.py:142-151 | in any interleaving, the k-th call of an existing org gets its counter plus k, after prefix and hyphen, in at least six digits |
| `References.MissingOrgNumber` | apps/backend/app/repositories/invoice_repository.py:150-151 | without the org document every call gets number one |
| `References.WorkOrders.NextWorkOrderNumber` | apps/backend/app/repositories/framework_repository.py:249-251 | the number of the org's stored orders plus one, zero-padded |
| `References.WorkOrders.CreateWorkOrder` | apps/backend/app/services/framework_service.py:518-545 | one request running alone appends one order with the next number, and nothing if the framework is not found |
| `References.SequentialNumbers` | apps/backend/app/repositories/framework_repository.py:249-251 | requests one after the other give each org the numbers 1, 2, ... without a gap |
| `References.SequentialValues` | apps/backend/app/repositories/framework_repository.py:249-251 | the n-th order of an org, counted from one, is WO- and n in at least five digits |
| `References.WorkOrderNumbersDistinctIffCreatedBetween` | apps/backend/app/repositories/framework_repository.py:207-251 | in any interleaving, two numbers asked by one org differ if and only if one of its orders was created in between |
| `Months.SubtractMonths` | apps/backend/app/services/dashboard_service.py:314-320 | the loop terminates; a month from 1 to 12 that lies exactly so many months back, or the ValueError exactly if the year or the month leaves its range |
| `Months.SubtractTwice` | apps/backend/app/services/dashboard_service.py:314-320 | subtracting a and then b months is subtracting a + b, errors included |
| `Months.KeysSortByDate` | apps/backend/app/services/dashboard_service.py:262-264 | among years of the same number of digits, the `YYYY-MM` keys are ordered as strings exactly as the months are in time, and are equal only for equal months |
| `Months.WindowSortedIff` | apps/backend/app/services/dashboard_service.py:260-264 | the six keys of the window sort as strings in date order if and only if its years have the same number of digits |
| `Months.LastSixMonths` | apps/backend/app/services/dashboard_service.py:260-264 | six consecutive month keys, oldest first, ending at today's month |
| `Months.SumByMonth` | apps/backend/app/services/dashboard_service.py:266-286 | the aggregation has rows for some of the asked months only, and each month's row, or zeros, is what its matching invoices add up to |
| `Months.OneMoreInvoice` | apps/backend/app/services/dashboard_service.py:266-286 | one more invoice raises its own month by its total and paid amount, unless it is void, sandbox, deleted or of another org, and no other month |
| `Months.KeyIs` | apps/backend/app/services/dashboard_service.py:264-264 | a key is the year, a hyphen and the month in two digits |
| `Months.BuildCollectionTrend` | apps/backend/app/services/dashboard_service.py:259-296 | one entry per month of the window, with what its invoices add up to and its rate |
| `Months.RateError` | apps/backend/app/services/dashboard_service.py:293-293 | the rate is the collected share in percent up to half a tenth, also for negative sums |

## Left out

- ResponseParser.ParseResponse: `json.loads` is an arbitrary finite map from texts to values and errors, the error of walking a value that is nested too deeply included; its own grammar is not modelled. The inner loop is a method of its own.
- JsonTexts.ScannerRoundTrip: a number or literal name may be any text without quotes and brackets, which includes every text the standard allows there; that the decoder accepts the printed text is a hypothesis.
- PoolAgent.RunKeepsInv: the manager's own rules (`apps/ml/app/services/pool_manager.py`) are left out: it may write status, job id and both sets at any time. Its deletion of the queue when it tears a container down, after killing it, is not modelled.
- PoolAgent.JobConservation: task cancellation, a raising `communicate()` and the values of heartbeats and metrics are not modelled; a failing call is taken to have had no effect.
- TierRunner.WorkspaceSurvival: stated for a job id that no other task of the run shares, since two tasks would share one directory; ids are taken as names of independent directories, so an empty id, which stands for the whole workspace root, and ids that are paths below another one are left out.
- TierRunner.DeliveredExactlyOnCleanInput: stated for tasks that lost no Redis, disk or pip call; a package name with a lone surrogate, or names longer than a command line may be, count as a failed pip call. Environment variables, configuration contents, S3, model storage and message contents beyond their kind are left out; so is a queue item on which `json.loads` raises something else than a JSONDecodeError, which stops the main loop.
- Requirements.ParseRequirements: the strings that the syntax-tree walk finds in a class attribute are a parameter.
- LateFees.InvoiceStore.ApplyLateFees: binary floating point is replaced by exact cents, so a fixed fee with a fraction of a cent is not expressible; edits of an invoice between the query and its save are not modelled.
- DeductionLedger.LeaseLedger.AddDeduction: of entries with equal times the first inserted counts as the newest, which the database leaves open; descriptive fields are left out.
- LedgerPairs.TwoRequestsConserveIff: stated for a lease that is not deleted meanwhile; the general sum of `ConcurrentLedger.DriftOfRun` covers that as well.
- Paging.CursorRoundTrip: cursors that the server never issues but Python would still read (foreign characters, signs, blanks) count as unreadable, offset 0.
- Vacancy.GetVacancyLive: lost rent is rounded from the exact quotient; the statistics of `get_tenant_behavior` are left out, its paging is the same.
- AssetLifecycle.LifecycleOfRun: `update_asset` writes the status without a guard and is not an operation of the run.
- AssetLifecycle.AssetService.CreateAsset: the descriptive fields that are copied from the request, and the unit and assignee names, are left out; so are the actor, text and time of audit entries, and ids and creation times of records.
- UnitStatus.SuccessesChain: `UnitRepository.update` and other whole-document saves, which can write back a status that is out of date, are not steps of the run.
- References.SequentialNumbers: updates of work orders and hard deletes are not modelled; the ticket, inventory and asset counters have the same shape as the invoice counter.
- User interface, routing, authentication, e-mail, message queues, search, file storage, model training and the remaining services: input and output without a property beyond one call.
