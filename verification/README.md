# Verified models of Let's Infer's tooling

This project models the parts of Let's Infer whose correctness is a matter of logic rather than of
foreign calls: the crash-safe load runner, the installer's two-link transaction, the benchmark matrix
orchestrator with its prompt plans, the placement-group planner, the runtime selection store, and the
codecs and numeric rules that published evidence relies on. `dafny verify dfyconfig.toml` checks it.

Conventions shared by all modules:

- SHA-256 is a free datatype constructor over the hashed document, so equal hashes mean equal contents.
- A step that can fail ends as done, failed before taking effect or failed after it, chosen freely. In the
  load runner it may also be cut off by a crash. Ghost counters of such faults let contracts say both what
  holds whatever fails and that nothing is refused when nothing fails.
- Objects whose methods update fields in the source are classes. Loops of the source are loops, proved
  against specification functions or predicates. Exceptions are `None`, `false` or an outcome value.

| file | component |
|---|---|
| LoadPlan, LoadEvidence, LoadRun | `benchmarks/openai_load.py`: expected waves, reconciliation, attempts, crashes, resumes |
| Installer | `installer/src/li_installer_core_manager.rs`, `li_installer.rs`: activation and compensation |
| PromptContract, PromptPlan, PromptWriter, PromptRoundTrip | `prompt_generator.py` and `runtime_matrix.py`: cells, plan writer, plan loader |
| CellSelection, MatrixRun | `runtime_matrix.py`: cell order, isolation groups, process lifecycle |
| Reachability, Placement | `tools/li_runtime_orchestration.py`: connectivity, binding, planning |
| SelectionStore, SemVer | `tools/li_runtime_packs.py`: receipts, pruning, rollback, version precedence |
| Json, Protobuf, ReleaseAudit | printer and reader, wire codec, chunked scan |
| CompactNumber, BenchmarkRecord, Percentile, Interpolation | telemetry rows, record validation, interpolated percentiles |
| Text | decimal numerals, split and join, string order, sorting |

## Model

| member | source | states |
|---|---|---|
| LoadRun.Runner.Session | benchmarks/openai_load.py:1090-1292 | Over any sequence of first runs and resumes, each cut or failed anywhere, every content the disk ever had has rows that name distinct expected waves whose files hold the recorded hash; no wave file is ever rewritten or lost; every new attempt number is above all attempt and failure numbers present before it. |
| LoadRun.Runner.Attempt | benchmarks/openai_load.py:1090-1292 | One invocation: a used directory is refused without resume; a resume is refused only when a failure number no longer fits its four-digit name, and then always unless a step fails first; success means a complete state; a complete run is never changed again; without a fault an attempt fails only on unqualified measurements or an unnameable attempt, and that failure is recorded. |
| LoadRun.CompleteMeansQualified | benchmarks/openai_load.py:1236-1281 | A complete state implies that result, checksum and recorded hash agree, the result names this run and its resume count, every task is complete, every expected wave is on disk and recorded, and any two waves of an equality-requiring task agree pairwise. |
| LoadRun.Runner.Reconcile | benchmarks/openai_load.py:1094-1104 | The three reconciliations accept every reachable state except for an unnameable failure number, lose no evidence, leave a complete run untouched, and change nothing when run again. |
| LoadRun.Runner.ReconcileWaves | benchmarks/openai_load.py:370-432 | On every reachable disk it is accepted, records exactly the orphan files, and is without effect when rows and files already correspond. |
| LoadRun.Runner.ReconcileFailures | benchmarks/openai_load.py:470-518 | Refuses exactly when a failure number has more than four digits; otherwise the history covers exactly the failure files. |
| LoadRun.Runner.ReconcileResults | benchmarks/openai_load.py:435-467 | None of its refusals is reachable; an interrupted result write is finished to a complete state, and without a result nothing changes. |
| LoadRun.Runner.Begin | benchmarks/openai_load.py:1105-1117 | The new attempt number exceeds all earlier ones, so the refusal to overwrite attempt evidence is never reached. |
| LoadRun.Runner.RecordWave | benchmarks/openai_load.py:1171-1188 | File, row in memory, row in state, in that order: whatever fails, memory stays consistent with the disk; success adds exactly this wave, with the measured result, and its row last. |
| LoadRun.Runner.CollectWaves | benchmarks/openai_load.py:1137-1196 | The rows added are those of exactly the declared waves without a file, in the order of the run: by task, warmup before measured, by index; a failed attempt added a first part of them; success marks every task complete and leaves all expected waves on disk and in the saved state. |
| LoadRun.Runner.CollectMissing | benchmarks/openai_load.py:1137-1193 | The loop itself: each missing wave is collected once, in plan order, and none that has a file is collected again. |
| LoadRun.Runner.Finish | benchmarks/openai_load.py:1236-1281 | Publishes only qualified runs, never meets existing result evidence, and without a fault fails exactly for an unqualified task or an unnameable attempt. |
| LoadRun.Runner.Fail | benchmarks/openai_load.py:521-543 | Never overwrites failure evidence; without a fault the failure is in the state, in its own file and in the history; waves, attempts and results are untouched. |
| LoadRun.QualifyTasks | benchmarks/openai_load.py:1236-1244 | All tasks are summarized exactly when all qualify, each with the truthful outputs-equal flag. |
| LoadRun.WaveStep | benchmarks/openai_load.py:1179-1180 | Writing a new expected wave keeps the disk invariant for the saved state and for the state in memory. |
| LoadRun.ResultStep | benchmarks/openai_load.py:1270-1273 | Writing the result keeps the disk invariant when all waves are recorded and qualify. |
| LoadRun.HistoryGrows | benchmarks/openai_matrix.py:128-136 | One atomic write that keeps the invariant and extends the disk extends the whole history. |
| LoadEvidence.ReconcileRows | benchmarks/openai_load.py:370-432 | For any rows and files: accepted exactly when rows are distinct and match their files and every file is an expected well-formed wave; the result keeps the old rows, adds the orphans in path order, and covers exactly the files. |
| LoadEvidence.CheckRows | benchmarks/openai_load.py:397-414 | Accepts exactly distinct, expected, unchanged, well-formed rows. |
| LoadEvidence.ReconcileFailureRows | benchmarks/openai_load.py:470-518 | For any history and files: the exact acceptance condition, and a resulting history that covers exactly the files with orphans in order. |
| LoadEvidence.TaskResults | benchmarks/openai_load.py:968-1004 | Succeeds exactly when every wave of that load task is present, pairwise equal if required, and each phase met its cache requirement; the flag is pairwise equality of at least two waves. |
| LoadEvidence.CompareWithFirst | benchmarks/openai_load.py:985-988 | Comparing every wave with the first decides that any two agree in the output, completion tokens and finish reasons of each fixture. |
| LoadEvidence.PairEqual | benchmarks/openai_matrix.py:1011-1019 | The two dictionaries decide agreement: the same fixtures occur, and the last rows of each fixture have equal output, tokens and finish reasons. |
| LoadEvidence.ValidateDocument | benchmarks/openai_load.py:375-395 | Decides identity, contract and request count of a wave document. |
| LoadEvidence.EnforceCache | benchmarks/openai_load.py:937-965 | Decides the cache requirement over all requests of a phase, including that there is one. |
| LoadEvidence.ReadPhases | benchmarks/openai_load.py:974-984 | Reads exactly the documents of each phase in index order, or fails when one is missing. |
| LoadPlan.BuildExpectedWaves | benchmarks/openai_load.py:204-223 | The nested loops return exactly the declared waves, in the order of the run: task by task, warmup before measured, by index. |
| LoadPlan.ExpectedInOrder | benchmarks/openai_load.py:204-223 | Of any two expected waves the earlier one belongs to an earlier task, or to an earlier phase of one task, or has the smaller index of one phase. |
| LoadPlan.MissingInOrder | benchmarks/openai_load.py:1139-1143 | The waves a resume still collects are exactly the declared ones without a file, in the same order. |
| LoadPlan.ExpectedAreDeclared | benchmarks/openai_load.py:204-223 | A wave is expected exactly when a task declares its phase and index. |
| LoadPlan.PathsDiffer | benchmarks/openai_load.py:212 | Equal evidence paths mean the same task, phase and index, for every index width. |
| LoadPlan.DictionaryIsExact | benchmarks/openai_load.py:397 | The path dictionary loses no expected wave. |
| LoadPlan.WavesOfTask | benchmarks/openai_load.py:974-984 | Filtering the expected waves by task and phase gives exactly that task's waves in order. |
| Installer.Host.InstallThenFailingSetup | installer/src/li_installer.rs:94-139 | Whatever fails on the way: a retired fresh home means both links equal their pre-install values, no link ends anywhere else than there or on the new release, and without a fault a refused install or a safe setup failure restores both links and retires exactly an owned fresh home. |
| Installer.Host.Install | installer/src/li_installer_core_manager.rs:268-405 | Success activates both links with the exact prior values in the receipt; it fails only through a fault or a link that is not a symbolic link; every failure leaves the prior pair or `current` on the new release; a failure without a fault, and one fault other than a home validation between two good links, restores the exact pair and retires exactly an owned fresh home; one fault of any kind leaves the launcher as it was; the home is retired only with both links at their prior values. |
| Installer.Host.ActivateLauncher | installer/src/li_installer_core_manager.rs:510-569 | Success records the prior launcher; a refusal that reports completed rollback left the launcher as it was, and with at most one fault every refusal reports it. |
| Installer.Host.RollbackLauncher | installer/src/li_installer_core_manager.rs:571-603 | Writes only over the installed target, succeeds only with the previous launcher in place, fails only through a fault or a foreign target, and writes nothing when replayed. |
| Installer.Host.RestoreCurrent | installer/src/li_installer_core_manager.rs:1118-1143 | Same for `core/current`. |
| Installer.Host.RollbackActivation | installer/src/li_installer_core_manager.rs:407-436 | Success means both links are back; each link changes only from the installed to the previous value; one failing link rollback does not keep the other one from being rolled back; a replay on the previous pair writes nothing. |
| Installer.Host.RollbackUnderInterference | installer/src/li_installer_core_manager.rs:571-603 | Under any interleaved outside link changes no rollback overwrites anything but what the installer installed. |
| Installer.Host.ResolveSetupFailure | installer/src/li_installer.rs:120-139 | Links are untouched unless the failure class allows reversal; the fresh home is retired only after a successful reversal. |
| Installer.Host.ValidateUnactivatedHome | installer/src/li_installer_core_manager.rs:484-507 | An invalid home before activation is retired only under the receipt's authority. |
| PromptRoundTrip.WriteThenLoad | benchmarks/prompt_generator.py:202-463 | For every accepted contract, token counter and selection: writing and loading succeeds exactly when the selection is non-empty and declared, every count is positive, every request the loader reads has temperature at most 2, and both or neither TTFT cells are selected; then exactly the selected cells are loaded. |
| PromptRoundTrip.WrittenIsAcceptable | benchmarks/runtime_matrix.py:788-1032 | Apart from the TTFT pair, a written plan meets all loader conditions exactly within the temperature limit. |
| PromptRoundTrip.LoadedIsSelected | benchmarks/runtime_matrix.py:895-959 | Loaded cells are exactly the selected ones, each with its context's target, its own prompt rows in slot order and its own request. |
| PromptRoundTrip.TtftLoaded | benchmarks/runtime_matrix.py:988-1009 | The TTFT check passes exactly for both or neither phase, since both phases render one prompt. |
| PromptRoundTrip.BudgetsKept | benchmarks/prompt_generator.py:145-199 | Every loaded cell has the declared domain, concurrency, target tokens and output budget. |
| PromptRoundTrip.RequestsKept | benchmarks/prompt_generator.py:408-419 | Every loaded cell sends the whole request of its own section: short, TTFT or the contract's own. |
| PromptRoundTrip.RowsAreRendered | benchmarks/prompt_generator.py:344-401 | Every row counts its own bytes; short prompts are the domain template, long ones are rendered for their own context, domain and slot, TTFT phases for one shared content. |
| PromptRoundTrip.LongPromptsDiffer | benchmarks/prompt_generator.py:344-385 | Different context, domain or slot of a long workload means different bytes. |
| PromptRoundTrip.AllUsed | benchmarks/runtime_matrix.py:985-987 | Every written fixture is used by the largest selected cell of its context and domain. |
| PromptRoundTrip.WorkloadNamesUnique | benchmarks/prompt_generator.py:344-345 | No fixture name is written twice. |
| PromptRoundTrip.HotPlanRefused | benchmarks/openai_matrix.py:255-261 | A concrete accepted contract at temperature 3 whose written plan is refused. |
| PromptRoundTrip.HalfPairSelectable | benchmarks/runtime_matrix.py:988-994 | A concrete accepted contract lets one TTFT phase be selected alone, which the loader refuses. |
| PromptWriter.Materialize | benchmarks/prompt_generator.py:202-463 | Succeeds exactly for a non-empty declared selection with positive counts, and then writes exactly the specified rows, contexts and files. |
| PromptWriter.WriteDomain | benchmarks/prompt_generator.py:330-406 | One domain: a row per slot up to the largest selected concurrency, and a key per selected cell with its first slots. |
| PromptPlan.LoadPromptPlan | benchmarks/runtime_matrix.py:788-1032 | For any plan and files: accepted exactly when the listed conditions and the TTFT rule hold, with exactly the cells the contexts hold. |
| PromptPlan.LoadContext | benchmarks/runtime_matrix.py:867-959 | One context: exact acceptance condition and exact cells. |
| PromptPlan.LoadRows | benchmarks/runtime_matrix.py:812-855 | Fixture rows are accepted exactly when unique, matching their files, counted, in a known domain and covered by the set digest. |
| PromptPlan.LoadedOnce | benchmarks/runtime_matrix.py:895-959 | The contexts of an accepted plan determine the loaded cells. |
| PromptPlan.FixtureTextsDiffer | benchmarks/prompt_generator.py:344 | Different fixtures never share a name text. |
| PromptPlan.KeyTextsDiffer | benchmarks/prompt_generator.py:402 | Different keys never share a text. |
| PromptContract.GeneratorCells | benchmarks/prompt_generator.py:145-199 | Holds exactly the cells read off the contract: short, TTFT and case cells, each with the target and budget of its own section. |
| PromptContract.RunnerCells | benchmarks/runtime_matrix.py:568-619 | The same for the runner's own enumeration, with as many fixtures as the concurrency. |
| PromptContract.CellsMatchContract | benchmarks/prompt_generator.py:145-199 | Enumerating the workloads is the same as reading the cells off the contract's fields. |
| PromptContract.EnumerationsAgree | benchmarks/runtime_matrix.py:568-619 | Both enumerations give equal cells for every accepted contract. |
| PromptContract.WorkloadsAreValid | benchmarks/li_benchmark_contract.py:88-403 | In every accepted contract the materialization order is the standard context order and each workload is well formed. |
| CellSelection.OrdersAgree | benchmarks/runtime_matrix.py:1035-1088 | Context-first and legacy order succeed together and are duplicate-free permutations of each other. |
| CellSelection.SelectionIs | benchmarks/runtime_matrix.py:1035-1088 | Selection succeeds exactly when every context has cells and everything listed is a cell; it then gives exactly the cells on the chosen axes and in the chosen domain, in the chosen order. |
| CellSelection.ContextFirstOrdered | benchmarks/runtime_matrix.py:1069-1075 | Context-first order is by context, then concurrency, then domain. |
| CellSelection.ConcurrencyFirstOrdered | benchmarks/runtime_matrix.py:1076-1082 | The legacy order is by concurrency, then context, then domain. |
| CellSelection.GroupIsContext | benchmarks/runtime_matrix.py:1645-1648 | Two standard cells share an isolation group exactly when they have one context or are both TTFT phases. |
| CellSelection.ContextFirstIsContiguous | benchmarks/runtime_matrix.py:1035-1088 | Context-first selection makes each isolation group one contiguous block: cells between two of one context, the two TTFT phases counting as one, are of that context too. |
| CellSelection.OneProcessPerGroup | benchmarks/runtime_matrix.py:1645-1663 | In contiguous order each group has exactly one first and one last cell, and is the block between them. |
| CellSelection.StartsCountGroups | benchmarks/runtime_matrix.py:1645-1663 | The number of group starts is the number of groups. |
| CellSelection.SelectedContextsInOrder | benchmarks/runtime_matrix.py:478-504 | Selected contexts come in standard order. |
| CellSelection.NameTests | benchmarks/runtime_matrix.py:492-502 | The prefix, suffix and split tests on cell names read exactly context and concurrency. |
| MatrixRun.Runner.Run | benchmarks/runtime_matrix.py:1855-2123 | In every isolation mode and whatever step fails: each measurement sees exactly one live process, at most one is ever live, none is left unless a stop failed; success measures every cell with the counted launches and exactly the stores of its cells, and two cells are measured by one process exactly when the mode shares it: never alone, always in a fresh matrix, per stretch of one context (TTFT phases together) in context isolation; failure needs a fault, an empty selection or a store clash. |
| MatrixRun.TtftPhasesShareAProcess | benchmarks/runtime_matrix.py:1645-1663 | A context-isolated run of just the two TTFT phases launches one process beside the materializer's, into one store. |
| MatrixRun.SameLaunch | benchmarks/runtime_matrix.py:2025-2040 | No launch lies between two cells exactly when they are to share a process. |
| MatrixRun.Runner.MeasureCell | benchmarks/runtime_matrix.py:1984-2123 | One cell launches exactly when its mode and position ask for it, into its own store. |
| MatrixRun.Runner.Materialize | benchmarks/runtime_matrix.py:1871-1979 | The materializer's process survives only into a shared fresh-matrix run. |
| MatrixRun.SelectedStoresAreFresh | benchmarks/runtime_matrix.py:1994-2014 | For contiguous selections of distinct standard cells no store is asked for twice. |
| Reachability.Reach | tools/li_runtime_orchestration.py:474-510 | The reachability loop terminates with the specified closure. |
| Reachability.ComponentIsConnected | tools/li_runtime_orchestration.py:474-510 | The closure is exactly the nodes joined to the root by a path, and has at most one node more than links inside it. |
| Reachability.ComponentDecides | tools/li_runtime_orchestration.py:474-491 | Reaching all nodes from the first is equivalent to a path between every two nodes. |
| Reachability.JoinsEveryNode | tools/li_runtime_orchestration.py:474-491 | The check decides that a path joins every two nodes. |
| Reachability.JoinedNeedsLinks | tools/li_runtime_orchestration.py:450-491 | Joined groups of n nodes have at least n-1 distinct links. |
| Placement.ValidateGroup | tools/li_runtime_orchestration.py:342-552 | Accepts exactly valid groups: identities, endpoint, startup once each, resources, and a path of links between every two nodes, of RDMA links where interfaces are declared. |
| Placement.ValidateTarget | tools/li_runtime_orchestration.py:738-808 | Accepts exactly valid groups in which a path of links that each meet kind, RDMA, speed and MTU joins every two nodes. |
| Placement.JoinedIsLinked | tools/li_runtime_orchestration.py:766-793 | Reachability over the collected pairs is the existence of paths whose every step is an accepted connection of the group. |
| Placement.CollectMatching | tools/li_runtime_orchestration.py:766-777 | The four conditions of the loop keep exactly the qualifying links. |
| Placement.GroupNeedsLinks | tools/li_runtime_orchestration.py:450-510 | A valid group of n nodes has at least n-1 links, and n-1 links that qualify when it meets a target. |
| Placement.BindEndpointNode | tools/li_runtime_orchestration.py:706-735 | Binds exactly distinct members of the right number that include the main node, and returns the permutation that swaps it into the owner's place. |
| Placement.BuildPlan | tools/li_runtime_orchestration.py:919-1016 | Builds the specified plan exactly when inputs are complete, the owner's member is the main node, and the document is valid. |
| Placement.StartupIsValid | tools/li_runtime_orchestration.py:517-531 | The contract's phases under the bijection from tasks to placements start every placement exactly once. |
| Placement.PlanIdentitiesAreValid | tools/li_runtime_orchestration.py:919-1016 | Every plan has valid identities and startup, placement i on member i, and the owner's placement as its only endpoint. |
| Placement.BoundPlan | tools/li_runtime_orchestration.py:919-1016 | A plan on bound members is valid exactly when resources and links are, with one endpoint on the main node. |
| Placement.PlanOnMain | tools/li_runtime_orchestration.py:706-735 | Binding then building succeeds exactly when members are bindable and the bound plan's resources and links are valid; the plan has one endpoint, on the main node, placements on a permutation of the members with each node's own address, ports, devices and interface, and the contract's phases task by task. |
| Placement.PlanCarriesInputs | tools/li_runtime_orchestration.py:819-1016 | Placement i carries the inputs of member i, and phase k starts the placements of the tasks the contract starts in phase k, in order. |
| SelectionStore.Home.Session | tools/li_runtime_packs.py:1852-2188 | Over any sequence of installs and immediately undone installs across any models, every active receipt's object stays in the store. |
| SelectionStore.InstallKeepsConsistency | tools/li_runtime_packs.py:2067-2142 | An install succeeds, publishes the new view, keeps all other receipts and the replaced receipt's object, and leaves exactly the objects that a receipt or history row names. |
| SelectionStore.RestoreUndoesInstall | tools/li_runtime_packs.py:2145-2188 | A restore right after an install succeeds and puts back exactly the prior receipts if and only if the digest changed, there was none, or the rewrite left the receipt equal; for a changed digest it also republishes the prior view and leaves only objects the prior receipts name. |
| SelectionStore.PruneIsExact | tools/li_runtime_packs.py:2050-2064 | An object stays exactly when it was there and a receipt or a history row carries its digest. |
| SelectionStore.WrittenHistory | tools/li_runtime_packs.py:2079-2113 | Which single history row a write keeps in each case. |
| SelectionStore.RestoreTouchesOnlyItsReplacement | tools/li_runtime_packs.py:2145-2188 | From any state a restore changes files only while the active receipt is the replacement, never another model's receipt, and success leaves the previous digest or no receipt. |
| SelectionStore.SessionsStayConsistent | tools/li_runtime_packs.py:1852-2188 | Consistency over whole sessions, on the specification. |
| SelectionStore.Home.StorePack | tools/li_runtime_packs.py:1852-1882 | Stores an object and changes nothing else. |
| SelectionStore.Home.PruneObjects | tools/li_runtime_packs.py:2050-2064 | Removes exactly the objects no receipt or history row names. |
| SelectionStore.Home.WriteSelection | tools/li_runtime_packs.py:2067-2115 | Writes the receipt with its one-deep history as specified. |
| SelectionStore.Home.CommitSelection | tools/li_runtime_packs.py:2118-2142 | Commits receipt, view and prune as specified. |
| SelectionStore.Home.RestoreSelection | tools/li_runtime_packs.py:2145-2188 | Restores or removes the active receipt as specified, including its refusals. |
| SemVer.KeysFollowPrecedence | tools/li_runtime_packs.py:143-162 | On versions well formed under section 9 of Semantic Versioning 2.0.0 the key order is the precedence of section 11, and ties are exactly versions that differ in build metadata alone. |
| SemVer.CompareKeysIsATotalPreorder | tools/li_runtime_packs.py:2833-2834 | Key comparison is total, antisymmetric up to equal keys, and transitive. |
| SemVer.KeyOfText | tools/li_runtime_packs.py:143-162 | The key of a printed version is that version without build metadata. |
| SemVer.LeadingZerosTie | tools/li_runtime_packs.py:155-160 | Outside section 9, identifiers that differ in leading zeros tie. |
| Json.RenderedTextIsReadBack | installer/src/li_installer_linux_provider.rs:20-63 | A reader for sections 2 to 7 of RFC 8259 reads every rendered document back as exactly the rendered value. |
| Json.ValueRoundTrip | installer/src/li_installer_linux_provider.rs:20-63 | The same for any nested value at any depth, followed by any delimiter. |
| Json.RenderInjective | installer/src/li_installer_linux_provider.rs:20-63 | Different values never render alike. |
| Json.JsonEscape | installer/src/li_installer_linux_provider.rs:186-202 | The escaped text holds no bare quote, lone backslash or control character. |
| Json.StringRoundTrip | installer/src/li_installer_linux_provider.rs:186-202 | Reading an escaped string gives the string. |
| Protobuf.FieldsRoundTrip | benchmarks/watchdog_client.py:33-73 | Parsing the concatenated encodings returns the fields exactly when each fits the format, and is an error otherwise. |
| Protobuf.VarintRoundTrip | benchmarks/watchdog_client.py:22-51 | At any offset decoding inverts encoding exactly below 2^70 and refuses longer values. |
| Protobuf.VarintIsBase128 | benchmarks/watchdog_client.py:22-30 | The encoding is the shortest little-endian base-128 form with continuation bits, as "Base 128 Varints" of the Protocol Buffers encoding specification asks. |
| Protobuf.AcceptedIsPartitioned | benchmarks/watchdog_client.py:54-73 | Every accepted message is exactly a concatenation of the records of its fields. |
| Protobuf.PartitionIsAccepted | benchmarks/watchdog_client.py:54-73 | Every concatenation of records is accepted with the fields they hold. |
| Protobuf.WriteVarint | benchmarks/watchdog_client.py:22-30 | The encoding loop refines the recursive encoding. |
| Protobuf.ReadVarint | benchmarks/watchdog_client.py:41-51 | The bounded decoding loop refines the recursive decoding, errors included. |
| Protobuf.ReadFields | benchmarks/watchdog_client.py:54-73 | The record loop refines the recursive parser, errors included. |
| Protobuf.ZigZagRoundTrip | benchmarks/watchdog_client.py:76-80 | Zigzag decoding inverts the sint32 encoding exactly on the 32-bit range. |
| Protobuf.ZigZagOnto | benchmarks/watchdog_client.py:76-80 | Every 32-bit value decodes, to the number that encodes to it. |
| ReleaseAudit.ContentMatches | tools/release_audit.py:79-99 | For every division into non-empty chunks the streaming scan reports exactly the patterns that stand somewhere in the whole content letter by letter, equal or in the other case. |
| ReleaseAudit.FoldIsCaseOnly | tools/release_audit.py:41-63 | Two terms fold alike exactly when they differ in the case of ASCII letters alone. |
| ReleaseAudit.OverlapSuffices | tools/release_audit.py:79-99 | A tail one shorter than the pattern loses no occurrence. |
| ReleaseAudit.Patterns | tools/release_audit.py:41-63 | Accepts exactly non-empty lists of valid terms and keeps the first spelling of each folded term, sorted. |
| BenchmarkRecord.PublishTelemetry | benchmarks/benchmark_record.py:463-592 | Summarizing and validating samples succeeds exactly for non-empty lists with times increasing from the start and metrics in range. |
| BenchmarkRecord.PublishedTelemetryIsValid | benchmarks/benchmark_record.py:829-941 | The same on the specification: rows and maxima of the summary pass the validator under exactly that condition. |
| BenchmarkRecord.ValidateTelemetry | benchmarks/benchmark_record.py:463-592 | The validator loop decides the row and maximum rules for any timeline. |
| BenchmarkRecord.WatchdogSummary | benchmarks/benchmark_record.py:829-941 | The summary's rows and maxima are those of the samples, with each column's own sentinel. |
| BenchmarkRecord.ColumnsCarryFields | benchmarks/benchmark_record.py:856-894 | Which sample field each of the thirteen printed columns reads back as, in which unit, and when it is empty. |
| BenchmarkRecord.ColumnsOfSamples | benchmarks/benchmark_record.py:463-592 | The validator observes in the printed rows exactly the values of the samples. |
| CompactNumber.CompactRoundTrip | benchmarks/benchmark_record.py:823-826 | Reading a compacted thousandths value returns that value, and no compacted value holds a comma. |
| Percentile.PercentileBoundedAndMonotone | benchmarks/openai_load.py:879-887 | Over the reals each percentile lies between minimum and maximum and grows with the fraction. |
| Percentile.PercentileIgnoresOrder | benchmarks/openai_load.py:879-887 | Percentiles do not depend on input order. |
| Interpolation.PercentileInterpolates | benchmarks/openai_load.py:879-887 | The percentile lies on the line between the two neighbouring order statistics around position (n-1) times the fraction. |
| Interpolation.PercentileAtRank | benchmarks/openai_load.py:879-887 | The fraction k/(n-1) gives the value of rank k. |
| Interpolation.SummaryMeans | benchmarks/openai_load.py:890-900 | Every field of the summary is the extreme, mean or percentile it is named after. |
| Interpolation.PublishedMeans | benchmarks/runtime_matrix.py:1250-1253 | One stream publishes its mean, several the median with the 95th percentile. |
| Percentile.SummaryIsOrdered | benchmarks/openai_load.py:890-900 | min, p50, p90, p95, p99, max ascend and the mean lies between the extremes. |
| Percentile.PublishedRowMeetsRecordRule | benchmarks/runtime_matrix.py:1249-1283 | A published row meets the record's p95 rule for every concurrency and is accepted exactly when its TTFT is positive. |
| Percentile.PositiveTtftIsAccepted | benchmarks/benchmark_record.py:760-766 | With positive TTFTs the published row is always accepted. |

## Left out

- HTTP, TLS, sockets, Docker, systemd, OCI pulls and the dependency manager: foreign calls, present only as steps that may fail.
- SHA-256 and Ed25519 internals: hashing is an injective constructor, signatures are not modelled.
- The telemetry monitor thread, clocks and timing: a monitor fault is one of the steps that may fail.
- Field-by-field schema validators (`load_catalog`, release and engine checks, tokenizer identities): what they enforce is a precondition such as `PromptContract.Accepted`.
- LoadRun.Runner.Session: starts from the first saved state and takes each atomic write as one step, because a leftover temporary file or a crash while the directory is created is not resumable in the source either.
- LoadRun.Runner.Attempt: the files inside an attempt directory and most fields of the result document are not modelled; the numbers of attempts and failures stand for their four-digit names.
- LoadEvidence.TaskResults: the latency summaries of a task are left to the percentile module.
- Installer.Host.Install: the receipt of the setup root is abstract (prepared, owns a fresh home), and copying the release tree is a step that may fail.
- MatrixRun.Runner.Run: an already active placement group and failures outside the guarded blocks, such as a failing progress write, are not modelled; the source does not compensate them.
- PromptWriter.Materialize: prompt texts are represented by what determines them (template kind, content id, domain, slot, size), and the token counter is a pure function.
- PromptPlan.LoadPromptPlan: suite, model and tokenizer identities and the sealed single-stream baseline are not modelled; names are structured, with lemmas that their texts are injective.
- Placement.ValidateGroup: regular expressions on identifiers and addresses are not modelled.
- SelectionStore.Home.CommitSelection: only the default runtime home, where pruning is enabled, is modelled; file contents are whole values, and a view taken over by another model with the same candidate id is not tracked.
- Json.RenderedTextIsReadBack: an object is its entry list in key order, and numbers are the natural numbers the installer renders.
- ReleaseAudit.ContentMatches: the result is the set of matching patterns, without the order in which they are reported.
- CompactNumber.CompactRoundTrip: values are thousandths, and reading is modelled for plain decimals with at most three fraction digits.
- Percentile.PercentileBoundedAndMonotone: real arithmetic, without floating-point rounding.
- Argument parsing, terminal display, path helpers and the Swift clients: presentation, or only easy members.
