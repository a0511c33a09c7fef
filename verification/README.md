# A verified model of the egglog benchmark harness

This project states and proves, in Dafny 4.11, what the harness around the egglog
engines has to get right: who may launch native work and when closing is complete,
which event ledgers are genuine, which cached observations may be reused and what a
collection leaves behind, how wall time is partitioned and compared, what happens to
egglog programs when the harness rewrites their text, which files a pinned tree hash
admits, and how a memory limit travels to a native engine.

`dafny verify dfyconfig.toml` checks everything. Each module is one file.

| modules | part of the harness |
|---|---|
| LeaseModel, LeaseInvariants, LeaseHistory, LeaseOrders, LeaseReports, LeaseTaking, LeaseFinish, LeaseGuard, LeaseTraffic, LeaseSupervisor, LeaseReturn | the launch lease protocol between guard, source parents and supervisors |
| ExportLedger, ExportLedgerProofs | the export ledger validator, against a recursive printer |
| Observations, ReportCache, Collector | the observation cache, the retry policy, planning and collecting |
| Fieller, PhaseSums, Timing, RulesetRows | ratio intervals and the additive timing partition, over the reals |
| EgglogText, EgglogGrammar, HardboiledReplay, SelectionChecks, DeadRules | reading egglog text, against a grammar; inserting checks, omitting dead rules |
| Substitution, ConstructorBlocks, Recording, RecordingContexts, RecordingSplices | normalizing a native recording: let inlining, declaration order, temporaries left behind |
| TokenEdits, GlobalNames, ChurchroadGlobals, ChurchroadRename, ChurchroadSession, ChurchroadOpenPart | renaming globals across the parts of a session |
| GitTree, GitGenuine, Decimal, MemoryFlag | the pinned tree check, in Git's own terms; the memory-limit option |
| Prelude, TextOrder | options and results; strings in code-point order |

## How the model reads the source

Objects and loops stay objects and loops. The guard is the class
`LeaseGuard.RacketGroups` with its connections, launches and groups as fields, and each
of its methods is tied to one action of the state machine in `LeaseModel`; the report
cache is the class `ReportCache.ReportStore`. Scanning and splicing code is methods with
loops, each proved equal to a specification function about which the properties are then
proved. Pure calculations are functions.

The specification functions are themselves pinned from outside: exactly when each protocol
line is taken and what it then changes (`LeaseTaking`), the whole effect of an exchange's
end (`LeaseFinish`), the tokens and commands of a text by position (`EgglogGrammar`), the
state of the recording loop from the lines alone (`RecordingContexts`), the listings of a
genuine Git tree (`GitGenuine`), and the newest rows, the recorded outcome of a child and
each timing mean written out on their inputs.

The process table, the kernel's peer PIDs, the clock, message arrival, end of file and
failing sends are inputs of each step and otherwise arbitrary. Nonces are assumed fresh
and peer PIDs true. A child process is an arbitrary function from the number of completed
observations to an exit. The report codec is any pair of functions that round-trips on
current records, and a hash is any function: the tree results say that two accepted
listings, or the bytes acquired for them, agree or exhibit a collision among their own texts. Statistics use `real`; a square root is a
nonnegative number with the right square.

## Where the code falls short of the obvious claim

- A fork report is accepted if and only if it is the first one for its reservation, no registration
  of the reservation has been answered, and a forked PID is the registered one
  (`LeaseReports.RunReportTaken`). A closing exchange answers every registration, so a report that
  comes after it makes the next closing exchange raise (`LeaseGuard.RacketGroups.Exchange`, `Close`)
  although nothing is left running on that account; a run that does this is given
  (`LeaseReports.LateReportRun`).
- Planning looks at the first cell of a cache key, `label_has_enough_rows` at every cell.
  Without exclusions they agree on every store if and only if no key is requested under a larger
  memory bound than its first one (`Collector.AgreeOnEveryStore`); one bound per key is a special
  case, and one implication always holds (`Collector.EnoughIsPlanned`).
- Dropping the final extractions of a recording is a substring removal after the check for
  temporaries. A normalized recording holds a temporary if and only if at one of the removals the
  two sides of the extraction join into one (`RecordingSplices.TemporaryRemainsIff`); a recording
  that does this is given (`RecordingSplices.SplicedTemporary`). It never happens when the
  extractions are whole lines (`Recording.NoTemporaryRemains`).
- Occupied names are collected from one concatenated text, so an open comment at the end of a part
  hides the first line of the program. In a session whose look-alike tokens occur in its program, the
  aliases are fresh if and only if no alias of a part with an open comment is a token found only in
  the line it hides (`ChurchroadSession.SessionIsFresh`); a session that goes wrong this way is given
  (`ChurchroadOpenPart.OpenPartIsStale`). Within one program freshness holds always.
- A renamed program reads as the renamed commands if and only if its lets bind atoms, which the code
  does not check (`ChurchroadGlobals.RenamedTextReads`).
- Tree names are not checked for zero bytes. For every hash there are two listings accepted for one
  pin, one with such a name, that name different files (`GitTree.NulListings`), so the uniqueness
  results are for names without them.
- A cached row that claims a memory limit nobody set is the one row worth a retry under its own
  guards (`Observations.EligibleUnderItsOwnGuards`); the collector never writes one.

## Model

| member | source | states |
|---|---|---|
| `LeaseInvariants.StepKeeps` | benchmarks/reproduction/reproduction_misaal_groups.py:101-253 | every message, hang-up, acknowledgment loop, drain and revocation, completed or aborted by an error, keeps the protocol invariant (records agree, one live group per PID, waiting groups have a connected supervisor) and moves launches and groups only forward |
| `LeaseInvariants.RunKeeps` | benchmarks/reproduction/reproduction_misaal_groups.py:101-310 | the invariant holds in every state of every run |
| `LeaseInvariants.RunForward` | benchmarks/reproduction/reproduction_misaal_groups.py:157-251 | between any two points of a run every launch and group status has stayed or moved up a fixed order, none disappears, and nothing sent is unsent |
| `LeaseInvariants.AckSettles` | benchmarks/reproduction/reproduction_misaal_groups.py:226-236 | a complete acknowledgment loop leaves no reported registration waiting, and while stopping none at all |
| `LeaseHistory.GoIsJustified` | benchmarks/reproduction/reproduction_misaal_groups.py:142-236 | in every run each `go` was preceded by its reservation from a peer in the root group, by the parent's report of a successful fork of exactly the kernel-authenticated PID, and by that PID's registration as leader of its own group, and was sent while not stopping |
| `LeaseHistory.StepEvidence` | benchmarks/reproduction/reproduction_misaal_groups.py:101-253 | each action keeps the evidence behind every record and every `go` in the history |
| `LeaseHistory.OneGroupOneGo` | benchmarks/reproduction/reproduction_misaal_groups.py:157-198 | in every run a reservation has at most one group record and at most one `go`, and a PID at most one group that is not retired |
| `LeaseHistory.OneKernelPid` | benchmarks/reproduction/reproduction_misaal_groups.py:102-113 | a connection has one kernel PID throughout a run |
| `LeaseHistory.OneReservation` | benchmarks/reproduction/reproduction_misaal_groups.py:142-156 | a nonce is reserved by one action of one peer, so the evidence for a `go` is about one reservation |
| `LeaseOrders.ReportThenRegister` | benchmarks/reproduction/reproduction_misaal_groups.py:157-198 | report then registration in one exchange reaches the common state in which both are recorded |
| `LeaseOrders.RegisterThenReport` | benchmarks/reproduction/reproduction_misaal_groups.py:157-198 | registration then report reaches the same books |
| `LeaseOrders.BothInLaunches` | benchmarks/reproduction/reproduction_misaal_groups.py:226-251 | once both are recorded, the end of the exchange acknowledges the launch and sends its `go` |
| `LeaseOrders.EitherOrderLaunches` | benchmarks/reproduction/reproduction_misaal_groups.py:157-251 | with the end of one exchange and the next snapshot between the two messages, either order ends in the same acknowledged launch, whatever sends to other peers fail in between |
| `LeaseReports.StepBacks` | benchmarks/reproduction/reproduction_misaal_groups.py:157-251 | every action keeps that a launch is reserved, or reported and not yet answered, failed or drained, unless a group was registered for it |
| `LeaseReports.RunReportTaken` | benchmarks/reproduction/reproduction_misaal_groups.py:157-172 | in every state of every run a fork report is taken if and only if it is the first, no registration of the reservation has been answered, a forked PID is the registered one and a failed fork has no registration |
| `LeaseReports.LateReportRun` | benchmarks/reproduction/reproduction_misaal_groups.py:226-236 | a run: reserve, register, a completed closing exchange that refuses, revocation; the fork report read then is an error |
| `LeaseTaking.RunDoneTaken` | benchmarks/reproduction/reproduction_misaal_groups.py:199-207 | in every state of every run a `done` of a leader is taken if and only if its group is acknowledged, the process rows of the group that are no zombies are exactly its own PID and the line has a return code; the group is then releasing and exactly one `release` is sent, otherwise no record changes |
| `LeaseTaking.RunReserveTaken` | benchmarks/reproduction/reproduction_misaal_groups.py:142-156 | in every state of every run a `reserve` is granted if and only if the guard is not stopping, the watched root is in the process table and the peer is in its group; the launch is then recorded under an unused nonce, which is sent; a stopping guard says `stop`; nothing else changes |
| `LeaseTaking.RunRegisterTaken` | benchmarks/reproduction/reproduction_misaal_groups.py:173-198 | in every state of every run a `register` is taken if and only if its reservation exists, is unregistered, neither failed nor drained, was reported for no other PID, the line names the peer's own PID and the contract and is complete, the peer leads its own group and no group of its PID is in use; a waiting group is then appended and the launch has the PID |
| `LeaseTaking.RunReportEffect` | benchmarks/reproduction/reproduction_misaal_groups.py:157-172 | a fork report that is taken settles its launch as reported with that child, or failed, and `recorded` is sent; one that is not changes no record |
| `LeaseTaking.RunUnexpected` | benchmarks/reproduction/reproduction_misaal_groups.py:208-209 | a line the peer may not send in its role is an error that changes no record |
| `LeaseTaking.RunInputMeans` | benchmarks/reproduction/reproduction_misaal_groups.py:102-137 | an accepted peer has its kernel PID, no role and nothing to say; a reading appends its lines and remembers an end of file for good; only a peer without a role is dropped with lines unread; no record changes |
| `LeaseFinish.RunFinishMeans` | benchmarks/reproduction/reproduction_misaal_groups.py:226-253 | in every state of every run the end of an exchange succeeds if and only if every peer it has to answer can be sent to and no draining group still has a member at its deadline; then each waiting group that is reported (or any, while stopping) is answered, each empty draining group has left, each reported child that nobody registered for and no process uses is drained, and no other group or launch changes |
| `LeaseFinish.RepliesMean` | benchmarks/reproduction/reproduction_misaal_groups.py:228-236 | exactly the leaders of groups that are due are answered, once each, in the order they connected, with `stop` or `go` |
| `LeaseFinish.RunHangupMeans` | benchmarks/reproduction/reproduction_misaal_groups.py:210-225 | a hang-up removes the connection; a group it led drains with one second to go while a process of it lives and has left for good otherwise, and its launch follows |
| `LeaseFinish.RevokeMeans` | benchmarks/reproduction/reproduction_misaal_groups.py:281-285 | revoking marks exactly the groups of connected leaders, drops those connections and changes nothing else |
| `LeaseTraffic.RunAccounts` | benchmarks/reproduction/reproduction_misaal_groups.py:117-141 | in every state of every run the lines handled of a connection are the first ones read from it, in order and once each, and the others are in its inbox |
| `LeaseGuard.StoppingIsQuiet` | benchmarks/reproduction/reproduction_misaal_groups.py:142-147 | an action of a stopping exchange adds no launch and sends no `go` |
| `LeaseGuard.RacketGroups.Exchange` | benchmarks/reproduction/reproduction_misaal_groups.py:101-253 | it accepts every arrival and reads every connection once, in order; an exchange that succeeds has taken every message, dropped every peer at end of file and settled every reported registration; it fails only on unreadable input or at a line or finishing step that fails, keeping what was done; records only move forward, a stopping one reserves and permits nothing, and one that reads a fork report for an answered registration raises |
| `LeaseGuard.RacketGroups.TakeReserve` | benchmarks/reproduction/reproduction_misaal_groups.py:142-156 | the method does to the fields what the state machine's reservation does, which `LeaseTaking.RunReserveTaken` spells out; the launch is recorded before its nonce is sent |
| `LeaseGuard.RacketGroups.TakeReport` | benchmarks/reproduction/reproduction_misaal_groups.py:157-172 | the method does to the fields what the state machine's fork report does, which `LeaseTaking.RunReportEffect` spells out |
| `LeaseGuard.RacketGroups.TakeRegister` | benchmarks/reproduction/reproduction_misaal_groups.py:173-198 | the loop over the groups and the checks before it do to the fields what the state machine's registration does, which `LeaseTaking.RunRegisterTaken` spells out |
| `LeaseGuard.RacketGroups.TakeDone` | benchmarks/reproduction/reproduction_misaal_groups.py:199-207 | the method does to the fields what the state machine's completion does, which `LeaseTaking.RunDoneTaken` spells out |
| `LeaseGuard.RacketGroups.HangUp` | benchmarks/reproduction/reproduction_misaal_groups.py:210-225 | a supervisor at end of file starts to drain or has drained; its launch follows |
| `LeaseGuard.RacketGroups.FinishExchange` | benchmarks/reproduction/reproduction_misaal_groups.py:226-253 | the acknowledgment, drain and retirement loops do what the state machine's finishing action does |
| `LeaseGuard.RacketGroups.Monitor` | benchmarks/reproduction/reproduction_misaal_groups.py:255-266 | the root is bound once, a closed or differently rooted guard changes nothing, records only move forward, and otherwise it fails only if its exchange does |
| `LeaseGuard.RacketGroups.RevokeLeases` | benchmarks/reproduction/reproduction_misaal_groups.py:281-285 | every leased connection is dropped and its group revoked |
| `LeaseGuard.RacketGroups.Close` | benchmarks/reproduction/reproduction_misaal_groups.py:268-310 | whatever happens no launch is added and no `go` sent after closing began; success means every launch reported a failed fork or has a PID, every launch with a PID is drained or has no live member in its group in the last snapshot, and no round met a fork report for an answered registration; failure means an exchange failed, or after the last round a launch may still be forked or has a live member |
| `LeaseSupervisor.PlaySound` | benchmarks/reproduction/reproduction_misaal_groups.py:350-398 | in every play of guard and supervisor, over the bytes actually exchanged, Racket runs only under a consumed `go` and `done` follows the reaping |
| `LeaseSupervisor.NormalReturn` | benchmarks/reproduction/reproduction_misaal_groups.py:199-207 | a supervisor returns normally only after a justified `go`, a started and reaped Racket, and a `done` taken while it was alone in its group |
| `LeaseSupervisor.NoLaunchWithoutGo` | benchmarks/reproduction/reproduction_misaal_groups.py:375-393 | Racket is started only under a `go` on its own connection and completion is reported only after reaping |
| `LeaseSupervisor.EndIsFinal` | benchmarks/reproduction/reproduction_misaal_groups.py:387-396 | killing its own group and returning normally exclude each other, and either is final |
| `LeaseReturn.ReadMeans` | benchmarks/reproduction/reproduction_misaal_groups.py:376-390 | every read of every play: a waiting supervisor is cleared exactly by the three bytes of a `go`, one that reported completion returns exactly on the eight bytes of a `release`, any other read makes it kill its group |
| `LeaseReturn.StartMeans` | benchmarks/reproduction/reproduction_misaal_groups.py:378-381 | Racket starts exactly if the guard has said nothing after its `go` |
| `LeaseReturn.AcknowledgedReturns` | benchmarks/reproduction/reproduction_misaal_groups.py:375-393 | every play in which the supervisor waits and its registration is acknowledged goes on to a normal return when Racket exits and leaves nobody behind: `go` read, started, reaped, `done` taken, `release` read |
| `ExportLedgerProofs.AcceptsIffPrinted` | benchmarks/reproduction/misaal_reproduction.py:90-263 | a ledger is accepted if and only if it is the numbered printout of some nonempty named forest of modules and the receipts are, in order, those of its children |
| `ExportLedgerProofs.AcceptedIsPrinted` | benchmarks/reproduction/misaal_reproduction.py:90-263 | an accepted ledger is the printout of a forest that is constructed |
| `ExportLedgerProofs.PrintedIsAccepted` | benchmarks/reproduction/misaal_reproduction.py:90-263 | every printout is accepted, whatever its shape, and leaves the final state of its forest |
| `ExportLedgerProofs.ForestIsUnique` | benchmarks/reproduction/misaal_reproduction.py:90-263 | a ledger determines its forest |
| `ExportLedgerProofs.GrowSound` | benchmarks/reproduction/misaal_reproduction.py:118-236 | each accepted row extends the partial forest, which still prints exactly the rows read |
| `ExportLedgerProofs.FeedModule` | benchmarks/reproduction/misaal_reproduction.py:118-236 | the recogniser reads any printed module in full, at any depth and any counter values |
| `ExportLedgerProofs.CountRoots` | benchmarks/reproduction/misaal_reproduction.py:237-263 | a printout has twice its modules, functions and children plus its roots as rows |
| `ExportLedgerProofs.SummaryFits` | benchmarks/reproduction/misaal_reproduction.py:252-263 | the counts reported for an accepted ledger are those of its forest, and account for every row |
| `ExportLedgerProofs.ValidateExportEvents` | benchmarks/reproduction/misaal_reproduction.py:90-263 | the row loop with its stack, open function and child, pending root and counters returns a summary exactly for the accepted ledgers |
| `Observations.SelectRecords` | benchmarking/reports/store.py:138-161 | for distinct row numbers, as many rows as asked for or as stand, in chronological order, none of them a timeout below the asked one or a memory stop under a lower or lifted limit, and every standing row left out is earlier than every row returned; an error for fewer than one round |
| `Observations.SelectIgnoresOrder` | benchmarking/reports/store.py:138-161 | the selection depends on which rows there are, not on the order they are stored in |
| `Observations.RaisingGuardsShrinks` | benchmarking/reports/store.py:141-147 | raising or removing a guard only shrinks what is eligible and never drops a success |
| `Observations.EligibleUnderItsOwnGuards` | benchmarking/reports/store.py:152-159 | a row is eligible under the guards it was recorded with if and only if it does not claim a memory limit that was not set |
| `ReportCache.ReportStore.Index` | benchmarking/reports/store.py:352-359 | both dictionaries stay equal to filtered scans of the physical rows |
| `ReportCache.ReportStore.Append` | benchmarking/reports/store.py:259-267 | a current record is written and indexed, any other changes nothing |
| `ReportCache.ReportStore.Load` | benchmarking/reports/store.py:227-239 | a report loads exactly when all its lines parse, into a store with exactly those lines |
| `ReportCache.ReportStore.LatestRecords` | benchmarking/reports/store.py:338-343 | a lookup returns the newest standing rows among the rows of that key |
| `ReportCache.ReportStore.GroupedReport` | benchmarking/reports/store.py:269-310 | the snapshot holds for every key exactly its rows, in chronological order |
| `ReportCache.LinesDetermineStore` | benchmarking/reports/store.py:227-267 | rebuilding from the written lines gives the same rows and the same indexes |
| `ReportCache.SnapshotAgrees` | benchmarking/reports/store.py:197-222 | the snapshot selects the same rows as the store for every key, number of rounds and pair of guards |
| `Collector.PlanCollection` | benchmarking/collection.py:196-247 | the planning loop computes the plan: one run per key, from its first cell that is not excluded, with its deficit |
| `Collector.PlanOrder` | benchmarking/collection.py:196-247 | forced or not, the runs are those of the first included cells of all keys, in the order of those cells, with the full number of rounds or the deficit |
| `Collector.CellMeans` | benchmarking/reports/store.py:377-400 | by a cell's newest standing rows: it needs the rest of its rounds while all of them succeeded and nothing otherwise; a reviewed exclusion holds it back, a deferral does unless its rounds are complete and succeeded |
| `Collector.LabelHasEnoughRows` | benchmarking/collection.py:469-495 | true exactly when no cell that counts is short of rows |
| `Collector.EnoughIsPlanned` | benchmarking/collection.py:469-495 | enough rows implies an empty plan, and is equivalent to it when each key is planned under its most generous bound, in particular with one memory bound per key |
| `Collector.AgreeOnEveryStore` | benchmarking/collection.py:196-247 | without exclusions the label test and the plan agree on every store if and only if no key's later bound is larger than its first |
| `Collector.RisingBoundDisagrees` | benchmarking/collection.py:469-495 | for every list with a larger later bound, a store whose plan is empty and whose label has not enough rows |
| `Collector.FreshIsEligible` | benchmarking/processes.py:138-157 | an outcome is never worth a retry under the guards it ran with |
| `Collector.ObservationIsFaithful` | benchmarking/processes.py:99-157 | the record of an exit is a success exactly for an unexpired exit 0, timed out exactly for an expired one, memory-limited exactly for exit 86 under an applied limit, each with clean cleanup; its start, payload, timeout and limit are the run's, its summary the child's for a timed success; collection stops exactly after a failed cleanup, an unexplained kill or a failed limit setup |
| `Collector.CollectRows` | benchmarking/collection.py:786-909 | every appended record is the faithful record of its child's exit, for a planned run, in fair rounds; on a normal return every run made all its observations or stopped at its first failure, and completed equals total equals the rows appended; it stops early exactly at a child whose exit allows no further launch or cannot be recorded |
| `Collector.BooksVisit` | benchmarking/collection.py:751-766 | each observation keeps total minus completed equal to the sum of the estimator's remaining counts |
| `Collector.FairSnoc` | benchmarking/collection.py:832-846 | no run starts a round before every unstopped run that needs the round before has done it |
| `Collector.RunSettles` | benchmarking/collection.py:196-247 | a finished run leaves its key without a deficit, whatever mix of outcomes it had |
| `Collector.DeficitIsExact` | benchmarking/collection.py:230-235 | each success of a run lowers its deficit by exactly one |
| `Collector.ReplanIsEmpty` | benchmarking/collection.py:786-909 | after a collection that returns, planning the same cells again finds nothing missing |
| `Collector.CollectMissing` | benchmarking/collection.py:269-312 | planning and collecting on a store ends, on success, with an empty plan for that store |
| `Fieller.RadicandNonNegative` | benchmarking/reports/analysis.py:259-264 | with nonnegative variances and a positive leading term the negative-radicand branch is dead |
| `Fieller.IntervalIsSolutionSet` | benchmarking/reports/analysis.py:259-269 | the interval is exactly the set of ratios whose squared deviation is within the critical multiple of its variance |
| `Fieller.PointInInterval` | benchmarking/reports/analysis.py:253-269 | the point ratio lies in the interval |
| `Fieller.ClassesAreTests` | benchmarking/reports/analysis.py:272-281 | unclear means a ratio of one is not rejected; lower and higher mean it is, with the candidate below or above the baseline |
| `Fieller.UnitInvariance` | benchmarking/reports/analysis.py:253-269 | a common change of unit changes neither point nor bounds |
| `Fieller.SwapIsReciprocal` | benchmarking/reports/analysis.py:253-281 | exchanging the endpoints gives the reciprocal bounds and exchanges lower with higher |
| `Fieller.LowerBoundSign` | benchmarking/reports/analysis.py:259-268 | the interval lies above zero exactly when the exchanged ratio has an interval |
| `Fieller.EstimateIsFieller` | benchmarking/reports/analysis.py:239-281 | for two measured endpoints the estimate has an interval exactly when the leading term is positive, and then all of the above holds of what is returned |
| `Fieller.EstimateCases` | benchmarking/reports/analysis.py:239-258 | for all endpoints: an error exactly for repeated samples without variance or critical value; a point, always candidate over baseline, exactly for two issue-free means with a positive baseline; no interval below two samples |
| `Fieller.EstimateIssues` | benchmarking/reports/analysis.py:246-257 | which issue is reported where there is no interval |
| `PhaseSums.ListChanges` | benchmarking/reports/analysis.py:469-503 | a group lists the nonzero entries of its table, each once and by name |
| `PhaseSums.ListingKeepsSum` | benchmarking/reports/analysis.py:469-503 | leaving out unchanged rulesets loses nothing, phase by phase |
| `Timing.TimingMean` | benchmarking/reports/analysis.py:412-466 | the accumulation over rows computes the means and the residual, or the error for a missing summary |
| `Timing.MeansFromRecords` | benchmarking/reports/analysis.py:417-452 | each mean, and each phase of each ruleset of each mechanism, is that quantity of the successful records added up and divided by the number of rows |
| `Timing.RowsAttributed` | benchmarking/reports/analysis.py:417-441 | grouping by mechanism and ruleset name neither loses nor invents recorded time |
| `Timing.ResidualIsUnattributed` | benchmarking/reports/analysis.py:442-466 | the residual is the wall time minus the mean of everything the records attribute |
| `Timing.RulesetGroupDelta` | benchmarking/reports/analysis.py:469-486 | a mechanism's group lists exactly its changed rulesets, with the native rebuild in the equality group |
| `Timing.GroupTotal` | benchmarking/reports/analysis.py:469-486 | a group's phases are the difference of its mechanism's sums at the two endpoints |
| `Timing.FileBreakdown` | benchmarking/reports/analysis.py:361-394 | one file's breakdown from its two means and wall estimates |
| `Timing.FilePartition` | benchmarking/reports/analysis.py:349-394 | without an issue the six mechanism changes add up to the file's wall-time change |
| `Timing.RecordsPartition` | benchmarking/reports/analysis.py:349-466 | the same from the records themselves, whatever rulesets either endpoint has |
| `Timing.SumRulesetGroups` | benchmarking/reports/analysis.py:489-503 | the suite's group lists the nonzero sums by ruleset name |
| `Timing.GroupSumPhases` | benchmarking/reports/analysis.py:489-503 | phase by phase it is the sum of the files' groups |
| `Timing.SuiteBreakdown` | benchmarking/reports/analysis.py:396-409 | the suite row from the file rows, with the first issue |
| `RulesetRows.ReportPartition` | benchmarking/reports/analysis.py:349-409 | from the records, without an issue, the suite's six changes add up to the change of all wall times, and for every file the displayed rows with its other changes add up to that file's |
| `RulesetRows.BuildRows` | benchmarking/reports/presentation.py:505-575 | the appended rows: parent, top five and exact rest for the program, all rulesets and the native rebuild for equality |
| `RulesetRows.ProgramTable` | benchmarking/reports/presentation.py:478-545 | the program rows one by one: the parent, the five largest changes by absolute total then name, and one exact rest if there are more |
| `RulesetRows.EqualityTable` | benchmarking/reports/presentation.py:479-575 | the equality rows one by one: the parent, every change in the same order, and the native rebuild exactly if it changed |
| `RulesetRows.ParentsAreSums` | benchmarking/reports/presentation.py:505-575 | each parent row is, phase by phase and in its count, the sum of the rows under it |
| `RulesetRows.ShownAreLargest` | benchmarking/reports/presentation.py:478-479 | no ruleset in the rest changed more than one that is shown |
| `EgglogText.EgglogForms` | benchmarks/reproduction/hardboiled_replay.py:80-110 | the token loop returns the balanced top-level forms with their offsets, or the error |
| `EgglogGrammar.LexIff` | benchmarks/reproduction/hardboiled_replay.py:87-92 | the reader finds tokens if and only if they are, by position, the parentheses, comments, quotations and whole atoms of the text with only white space between them |
| `EgglogGrammar.FormsIff` | benchmarks/reproduction/hardboiled_replay.py:80-110 | reading succeeds exactly when the tokens that are no comments are a concatenation of balanced commands of at least three tokens, and returns those with the offsets of their first and last tokens |
| `EgglogText.ConcatForms` | benchmarks/reproduction/hardboiled_replay.py:80-110 | reading two texts one after the other gives the forms of both, the second moved to its place |
| `EgglogText.CutAfter` | benchmarks/reproduction/hardboiled_replay.py:80-110 | a text may be cut right after any form: both sides read as their own forms |
| `EgglogText.CutBefore` | benchmarks/reproduction/hardboiled_replay.py:80-110 | and right before any form |
| `HardboiledReplay.InsertAfter` | benchmarks/reproduction/hardboiled_replay.py:199-206 | text inserted at a form's end adds its own forms there and changes no other |
| `HardboiledReplay.EraseForm` | benchmarks/reproduction/hardboiled_replay.py:140-147 | replacing a form by text without forms removes exactly that command |
| `HardboiledReplay.CheckForms` | benchmarks/reproduction/hardboiled_replay.py:195-203 | the inserted check text is one command: the equality of the root and the selected expression |
| `SelectionChecks.CheckObservedSelections` | benchmarks/reproduction/hardboiled_replay.py:181-207 | succeeds exactly for matching extractions and closed selections; the result reads as the original commands with, after each extraction, the check of its own selection |
| `SelectionChecks.UnweaveWeave` | benchmarks/reproduction/hardboiled_replay.py:181-207 | deleting the inserted checks gives back the original commands |
| `SelectionChecks.NativeCheckContract` | benchmarks/reproduction/hardboiled_replay.py:45-77 | succeeds exactly when there are roots and every check is one check command present at its position, in order, and then records each with everything before it |
| `SelectionChecks.WovenMarks` | benchmarks/reproduction/misaal_reproduction.py:733-752 | in the edited program the command after each extraction is its check |
| `SelectionChecks.MaterializeInvocation` | benchmarks/reproduction/misaal_reproduction.py:733-752 | whenever the insertion succeeds, the contract at the positions after the extractions succeeds too |
| `DeadRules.OmitUnexecutedHigherOrderRules` | benchmarks/reproduction/hardboiled_replay.py:133-147 | succeeds exactly when there is no higher-order rule or the closed case holds; the result reads as the original commands without exactly the higher-order ones |
| `DeadRules.OmissibleMeans` | benchmarks/reproduction/hardboiled_replay.py:133-147 | the closed case written out: exactly one command schedules, includes, combines or changes scope, it is the original twenty-fold schedule, and every higher-order command is a rule of the canonicalize ruleset |
| `DeadRules.OmissionPreservesMeaning` | benchmarks/reproduction/hardboiled_replay.py:20-42 | in every engine whose schedules fire only the rulesets they name, when no other command that stays looks at the canonicalize rules, the final database and all outputs are unchanged |
| `Substitution.SubstituteAtoms` | benchmarks/reproduction/record_speq.py:305-333 | the index-driven scan replaces every complete atom and nothing else |
| `Substitution.SubstituteAtom` | benchmarks/reproduction/record_speq.py:327-332 | a maximal run of characters other than white space, parentheses and quotes is replaced exactly if it is one of the names |
| `Substitution.SubstituteQuotation` | benchmarks/reproduction/record_speq.py:311-318 | a quotation stays as it is, whatever it contains |
| `Substitution.ReadSubstitute` | benchmarks/reproduction/record_speq.py:305-333 | reading the substituted text is replacing names in what was read |
| `Substitution.SubstitutionPreservesMeaning` | benchmarks/reproduction/record_speq.py:305-333 | under every interpretation the substituted text denotes outside what the text denotes where the names stand for their terms |
| `ConstructorBlocks.SortConstructorBlocks` | benchmarks/reproduction/record_speq.py:336-348 | the loop sorts each run of adjacent constructor declarations |
| `ConstructorBlocks.SortingKeepsOutline` | benchmarks/reproduction/record_speq.py:336-348 | sorting only permutes within a run: every other line stays, and so does the multiset before it |
| `ConstructorBlocks.SortingIsCanonical` | benchmarks/reproduction/record_speq.py:337-348 | two recordings come out the same if and only if they differ only inside such runs |
| `ConstructorBlocks.SortedRuns` | benchmarks/reproduction/record_speq.py:336-348 | neighbouring declarations of the result are in code-point order |
| `Recording.SlugIsPlain` | benchmarks/reproduction/record_speq.py:351-353 | a slug consists of lower-case letters, digits and dashes, so renamed rulesets are single atoms |
| `RecordingContexts.SlugJoinsRuns` | benchmarks/reproduction/record_speq.py:351-353 | a slug is the maximal runs of lower-case letters and digits of the lowered name, joined by single dashes |
| `RecordingContexts.TemporaryLetIff` | benchmarks/reproduction/record_speq.py:384-389 | a line is taken for a temporary let of a name and an expression exactly if it has that form |
| `RecordingContexts.ContextNames` | benchmarks/reproduction/record_speq.py:369-380 | at every line the renamed rulesets are `parseIR.transform` and `parseIR.expand`, each with the slug of the open context's workload, and none outside a context |
| `RecordingContexts.ContextLets` | benchmarks/reproduction/record_speq.py:364-391 | the temporaries in force are exactly those bound since the context was opened or closed |
| `RecordingContexts.LetValue` | benchmarks/reproduction/record_speq.py:383-391 | each stands for its last expression, inlined as it was where the let stood |
| `RecordingContexts.OutputSnoc` | benchmarks/reproduction/record_speq.py:363-387 | each line writes its own part: a heading before a context, nothing for a let, the inlined text for the rest |
| `Recording.InliningPreservesMeaning` | benchmarks/reproduction/record_speq.py:356-391 | under every interpretation the written lines denote, line for line, what the retained lines denoted under the lets and ruleset names of their context |
| `Recording.NormalizeRecording` | benchmarks/reproduction/record_speq.py:356-398 | the line loop, the final checks and the removals compute the normalized text or the error |
| `RecordingContexts.TakeAllIff` | benchmarks/reproduction/record_speq.py:366-368 | the loop fails exactly when there are more contexts than workloads |
| `RecordingContexts.NormalizedIff` | benchmarks/reproduction/record_speq.py:392-398 | a recording is normalized if and only if contexts and workloads are as many, temporary lets are no fewer, the sorted text holds no temporary, and the extractions can be removed in turn |
| `RecordingContexts.RemoveOnlyIff` | benchmarks/reproduction/record_speq.py:110-115 | a text that cannot overlap itself is removed if and only if it occurs exactly once, and then only it is gone |
| `RecordingSplices.TemporaryRemainsIff` | benchmarks/reproduction/record_speq.py:392-398 | a normalized recording holds a temporary if and only if at one of the removals the two sides of the extraction join into one |
| `RecordingSplices.SplicedTemporary` | benchmarks/reproduction/record_speq.py:356-398 | a recording that normalizes and is left with a temporary |
| `Recording.NoTemporaryRemains` | benchmarks/reproduction/record_speq.py:392-398 | in particular, when the extractions are whole lines the result is the sorted lines without them and holds no temporary |
| `TokenEdits.PatchIsRewrite` | benchmarks/reproduction/suite_capture_eggcc_churchroad.py:137-139 | applying the edits from the last to the first copies every character outside the edited tokens |
| `TokenEdits.RewriteReads` | benchmarks/reproduction/suite_capture_eggcc_churchroad.py:137-139 | the result reads as the same tokens with the edited atoms exchanged |
| `GlobalNames.AfterBinds` | benchmarks/reproduction/suite_capture_eggcc_churchroad.py:105-136 | a name is bound exactly when it was inherited or a let among the commands declares it, and always to its alias |
| `GlobalNames.OnlyReferencesChange` | benchmarks/reproduction/suite_capture_eggcc_churchroad.py:113-134 | a token becomes its alias exactly when it is a let's name or a reference whose let precedes its command, so right-hand sides see only earlier bindings |
| `GlobalNames.ReferencesBecomeAliases` | benchmarks/reproduction/suite_capture_eggcc_churchroad.py:105-137 | for every command not among the eight listed declaration and schedule heads: a token that is no parenthesis, does not follow an opening one, comes before any depth-one token starting with a colon, and whose name an earlier let binds becomes its alias, as does the name a let binds; every other token stays |
| `GlobalNames.DeclarationsStay` | benchmarks/reproduction/suite_capture_eggcc_churchroad.py:116-119 | a command with one of the eight heads is left as it is |
| `GlobalNames.RefusedExactly` | benchmarks/reproduction/suite_capture_eggcc_churchroad.py:101-118 | a command is refused exactly for a scope, a nested let, a rebinding, a colliding alias, or an expression option in a declaration or schedule once something is bound |
| `GlobalNames.ResolutionPreserved` | benchmarks/reproduction/suite_capture_eggcc_churchroad.py:86-91 | read by name alone, every adapted token refers to what the original referred to at its place |
| `GlobalNames.TranslatedConcat` | benchmarks/reproduction/suite_capture_eggcc_churchroad.py:160-166 | renaming parts one after the other with threaded aliases is renaming them together |
| `ChurchroadGlobals.RenamedTextReads` | benchmarks/reproduction/suite_capture_eggcc_churchroad.py:97-140 | the renamed program reads as the renamed commands if and only if the lets bind atoms |
| `ChurchroadRename.FormEdits` | benchmarks/reproduction/suite_capture_eggcc_churchroad.py:99-136 | the edits of one command in token order, refused exactly for scopes, nested lets, rebindings, collisions and declaration options |
| `ChurchroadRename.RenameProgram` | benchmarks/reproduction/suite_capture_eggcc_churchroad.py:97-140 | one program is renamed exactly when all its commands are admitted, and its lets are added to the bindings |
| `ChurchroadSession.OwnAliasesAreFresh` | benchmarks/reproduction/suite_capture_eggcc_churchroad.py:94-112 | no alias made in a program is a token of that program, whatever text follows it |
| `ChurchroadSession.FoundPastLine` | benchmarks/reproduction/suite_capture_eggcc_churchroad.py:95-95 | a part that ends in an open comment hides at most the first line of what follows |
| `ChurchroadSession.RenameChurchroadGlobals` | benchmarks/reproduction/suite_capture_eggcc_churchroad.py:83-141 | source and query are renamed with one set of occupied names, the query with the source's bindings |
| `ChurchroadSession.RenameSession` | benchmarks/reproduction/suite_capture_eggcc_churchroad.py:158-166 | the parts are renamed in order with threaded aliases, or one of them is refused; `ChurchroadSession.SessionTokens` says which tokens change |
| `ChurchroadSession.SessionReads` | benchmarks/reproduction/suite_capture_eggcc_churchroad.py:158-166 | the renamed parts read as the session's commands renamed together |
| `ChurchroadSession.SessionTokens` | benchmarks/reproduction/suite_capture_eggcc_churchroad.py:97-141 | token by token across all parts: a let's name and every reference to a name that an earlier let of the session binds become the alias, every other token is the original one |
| `ChurchroadSession.SessionIsFresh` | benchmarks/reproduction/suite_capture_eggcc_churchroad.py:158-166 | when a session's look-alike tokens occur in its program, no alias is a token of any part if and only if no alias of a part with an open comment is a token found only in the line it hides |
| `ChurchroadOpenPart.OpenPartIsStale` | benchmarks/reproduction/suite_capture_eggcc_churchroad.py:94-112 | a session adapted without complaint in which an alias is already a token, which then refers to the wrong thing |
| `ChurchroadSession.SessionResolves` | benchmarks/reproduction/suite_capture_eggcc_churchroad.py:158-166 | whenever no alias is hidden that way, every token of every renamed part refers to what it referred to in the original session |
| `GitTree.VerifyTree` | benchmarks/reproduction/reproduction_prepare_misaal_racket.py:116-160 | the loops over rows, parents and directories return the blobs exactly for the accepted listings, which are the genuine ones (`GitGenuine.AcceptedIsGenuine`) |
| `GitGenuine.AcceptedIsGenuine` | benchmarks/reproduction/reproduction_prepare_misaal_racket.py:116-160 | a listing is accepted if and only if it is not truncated, its rows are admissible, distinct, within the size bounds and under listed directories, and every directory's identity, and the pin for the root, is the hash of its entries as Git writes them: ordered by name in code-point order, with a slash behind the names of trees |
| `GitGenuine.VerifyPackage` | benchmarks/reproduction/reproduction_prepare_misaal_racket.py:116-160 | the check succeeds exactly on genuine listings and returns exactly their files |
| `GitGenuine.OneListing` | benchmarks/reproduction/reproduction_prepare_misaal_racket.py:148-153 | a directory has one such order |
| `GitGenuine.BlobIsGenuine` | benchmarks/reproduction/reproduction_prepare_misaal_racket.py:172-175 | bytes are accepted for a file exactly if they have its size and Git's blob hash of them is its identity |
| `TextOrder.AtMostIff` | benchmarks/reproduction/reproduction_prepare_misaal_racket.py:151-153 | strings compare by code point at their first difference, a prefix before its extensions |
| `GitTree.BodyInjective` | benchmarks/reproduction/reproduction_prepare_misaal_racket.py:148-159 | a tree's body determines the names, modes and identities of its entries |
| `GitTree.PinDeterminesRow` | benchmarks/reproduction/reproduction_prepare_misaal_racket.py:116-160 | every row of one accepted listing has its equal in any other accepted for the same hash, or some directory of both has two texts with one hash |
| `GitTree.PinDeterminesFiles` | benchmarks/reproduction/reproduction_prepare_misaal_racket.py:116-160 | two listings accepted for the same hash have the same files, modes and blob identities, or some directory of both has two texts with one hash |
| `GitTree.PinDeterminesBytes` | benchmarks/reproduction/reproduction_prepare_misaal_racket.py:172-175 | bytes accepted for one blob identity are one content, or the two blob texts collide |
| `GitTree.AcquisitionsAgree` | benchmarks/reproduction/reproduction_prepare_misaal_racket.py:163-183 | two acquisitions for one pin write the same bytes to the same paths, or their own directory or blob texts collide |
| `GitTree.NulListings` | benchmarks/reproduction/reproduction_prepare_misaal_racket.py:124-159 | under every hash, two listings accepted for one pin with different files: one name holds a zero byte |
| `MemoryFlag.NativeMemoryCommand` | benchmarking/native_memory.py:79-91 | without a limit the command unchanged; with one, the executable, the option, then the arguments unchanged; and the engine reads command and limit back exactly when it can |
| `MemoryFlag.ParseArguments` | benchmark-memory/src/lib.rs:86-123 | the argument loop filters the option up to the first stop, once, and rejects what is no positive 64-bit number |
| `MemoryFlag.ParseIff` | benchmark-memory/src/lib.rs:86-123 | parsing succeeds exactly without the option before the first stop, returning everything and no limit, or with it once, glued or separate, and a positive 64-bit decimal number, returning everything else in order and that number |
| `MemoryFlag.RoundTrip` | benchmark-memory/src/lib.rs:86-123 | parsing the written command gives back command and limit if and only if the command is nonempty, holds no such option before the first stop, and the limit is absent or between one and two to the sixty-fourth |

## Left out

- The egglog engines, the proof encoding, slotted e-graphs and the Lean semantics: not part of this model.
- Sockets, byte framing and JSON decoding of protocol lines: a peer's input is a list of decoded messages; the 64-byte reads of a supervisor are modelled on bytes.
- Peer identity strings, command and script digests carried in protocol records: no decision depends on them.
- The supervisor's refusal to start outside its own group: it raises before anything is connected and is not a step of the model.
- Wall-clock polling in `close`: the rounds are a given nonempty list, so reaching the deadline is the list running out.
- File persistence and atomicity of the guard's and the cache's records.
- Hash functions, codecs and timestamps: arbitrary functions, with the stated assumptions.
- Floating-point rounding and the t quantile: exact reals, with the critical value as a parameter.
- The square root: taken as a given nonnegative root of the radicand.
- The suite ratio and the lowest and highest file rows of the summary: one more call of the ratio estimate and a minimum and maximum.
- Required output checks of a child process: an exit is a status here.
- Grouping of the planned runs by target: the plan is one list in the order of the cells.
- Progress rendering and duration estimates of the collector: only the remaining counts are modelled.
- `str.splitlines` and `str.lower` in the recording: lines and lower-case names are given.
- Comments inside a recorded command: the recorder's own scanner does not know them, and only whole-line comments are told apart.
- `constructors`, the adaptation each source part goes through before renaming, and the placeholder options added after it.
- ChurchroadSession.SessionResolves: asks that lets bind atoms, as the language does; `ChurchroadGlobals.RenamedTextReads` says exactly what happens otherwise.
- LeaseOrders.EitherOrderLaunches: no further message arrives between the two; other peers appear only as failing sends.
- Splitting a tree path at its slashes: a path is the list of its components.
- GitTree.VerifyTree: checks the directories in any order; the order decides only which error is raised.
- Acquisition and build preparers, profiling, figures, HTML and console output, command-line parsing.
- Hexadecimal and UTF-8 decoding of the ledger's names: names and scripts are given as text, with the canonical-form check as their presence.
- Content pins and per-family policy constants.
