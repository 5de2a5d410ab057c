# Runtime kernels, modelled and proved

This project models the protocol and algorithm kernels of the XNOBrain Python
runtime and proves what they promise. `dafny verify dfyconfig.toml` checks all
of it. Nothing here was executed; the source was only read.

Each `.dfy` file is one module:

- `AdmissionProtocol`, `AdmissionReceipts`, `AdmissionControl`, `AdmissionLeaks`,
  `AdmissionGate`: the journalled admission of one native intent. Every journal
  write and every Control call is a step of a transition system, so a crash or
  another actor can come between any two. The first module assumes nothing about
  Control's replies, the second says what Control is told and when the intent is
  closed, the third adds an honest Control ledger, the fourth says when a reconcile
  pass loses a grant, the fifth holds the programs themselves, each shown to
  perform legal protocol steps only.
- `DurableManifest`, `SourceCheckpoint`: what a manifest records of the durable
  data and which later data pass its verification; the offline source-update
  checkpoint with its three durable writes, and the restore check.
- `MindmapCycles`, `Mindmap`: the depth-first cycle check and the validation of
  a mind map.
- `DelegationBatches`, `DelegationMerge`: batching delegated tasks by model and
  reasoning, and merging what the workers report.
- `SchedulePreview`: calendar runs across daylight-saving gaps and folds.
- `KanbanSchedules`: due schedules under racing and crashing dispatcher ticks.
- `KanbanRearming`: when rearming a schedule makes a slot fire twice.
- `KanbanQueue`: which due schedules a pass reaches.
- `ImageMessages`: moving images out of tool results for Codex models.
- `SkillSync`: the sync plan, the replacement tree and the swap.
- `ConcurrentWork`: the shared turn and child budgets of a run.
- `KanbanDelegation`: bindings and out-of-order receipts of team executions.
- `ArchiveGraph`: archive validation, against a model of extraction.
- `ContextCodec`: the signed, unpadded base64url context header (section 5 of
  RFC 4648).
- `Blends`: sticky round-robin and Smart Route.
- `MemoryReclaim`: the fenced page-cache eviction.
- `ProviderModels`: collapsing reasoning aliases in a catalog.

## Where the code does less than its description says

Each point names the lemmas that state it: the failing case and, where there is
one, the exact condition under which the promise does hold.

- The native reconciler reads a row before it takes the row's fence. If the row
  said "claiming" and an executor has since been started and has died, the
  reconciler puts the intent back and a second executor starts, even against an
  honest Control (`StaleReconcileRunsTwice`). It happens exactly when the row it
  read is a stale claim (`SecondHandoffExactlyWhenStale`); without one there is
  at most one hand-off (`AtMostOneHandoff`).
- The same late reading can also lose a grant, without any stale claim: the row
  goes back to waiting under an old admission while Control holds a newer one
  (`LateReconcileLeaks`). One pass can leak exactly when it acts under an admission
  and Control holds another grant than that, or one the row calls claiming although
  the intent has run (`LeaksExactlyWhenMisled`); otherwise no grant is lost
  (`NoGrantLeaks`). An honest Control, asked for an intent by its own identity,
  names the grant it holds for it and denies the intent only if it holds none.
- Preserved data need not be the same data: a file over a megabyte that keeps its
  size and modification time passes whatever it contains
  (`LargeContentIsNotCompared`). What passes exactly is said by
  `PreservedExactlyWhenAlike`.
- Running a schedule by hand in the second of a slot that already has its
  occurrence raises the occurrence count but creates no task
  (`RunNowCreatesExactlyOncePerSecond`), so two runs by hand within one second
  fire one slot twice under one task (`SlotFiresTwice`). With no tick in flight a
  rearming can make a slot fire again exactly when the new time, or a grid point
  of it for a repetition, has fired (`RearmRepeatsExactlyOnItsGrid`); in general,
  exactly when the row can be led back to a fired slot
  (`RepeatsExactlyWhenLedBack`, `EachSlotFiresOnceExactlyWhenClear`).
- A hundred due schedules that every pass skips stay the whole answer to its
  query, so no schedule behind them is released (`SkippedRowsBlockTheQueue`,
  `ReleasableRowStarves`). A due schedule is handled exactly when fewer than a
  hundred due ones come before it (`ReachedExactlyWithinAHundred`).
- A child is counted before the block that releases it: if reporting the
  acquisition raises, the child stays counted. The active count is the number of
  calls inside exactly when that never happens
  (`ActiveIsInsideExactlyWithoutLeaks`).
- A delegated batch whose decision raises while it is applied leaves the parent
  agent on that decision's model, since the block that restores it has not begun
  (`Agent.RunBatch`, `Agent.RunBatches`).
- The image rewrite is idempotent exactly when no image source, once unwrapped,
  is an object again (`IdempotentExactlyWithoutNesting`).
- Building the new tree of a skill sync fails when a private skill lies directly
  in the skills directory, when one lies inside another, when a copied skill
  holds a named pipe or socket, and when a private file or link bars the place of
  a common skill (`RootSkillFails`, `NestedSkillsFail`, `SpecialFileFails`,
  `FileInTheWayFails`); `BuildFailsExactly` lists all the cases. Below a private
  link to a directory a common skill is copied to where the link leads and not
  into the new tree (`LinkLeadsElsewhere`, `CommonSkillsArrive`). When the tree is
  built, a private skill still loses content exactly when an enabled common skill
  that is not led elsewhere is put at or above its directory, or below it over
  anything else than its own content (`PrivateStaysExactlyUnlessOverlaid`). A sync
  also drops control skills and second directories of an id from the target, since
  neither is in the inventory it copies (`SyncedInventory`). If removing the backup
  raises, the sync is reported as failed with the new tree in place
  (`Profile.Apply`).
- A terminal receipt that arrives after a later non-terminal revision is
  ignored, and of two receipts of one revision the last to come is kept, unless
  it would reopen the execution. Two receipts give the same record in both orders
  exactly when
  `OrderMattersExactlyAfterATerminal` says; any number of them do exactly when
  one tops the others (`DeliveriesAgreeExactlyWithATop`).
- The eviction is bounded per fence, not per operation id: with another
  operation in between, one id evicts twice (`OneOperationTwice`,
  `ExecutesExactlyWhenNewer`).

## Model

| member | source | states |
|---|---|---|
| AdmissionProtocol.AtMostOneHandoff | xnobrain/integrations/native_admission.py:56-147 | In every interleaving of polls, hand-offs, defers, cancels and reconciles, with crashes and any Control replies, an intent is handed to at most one executor, and a journal once running or finished is never offered to a poll again, provided no reconciler takes the fence with a stale claim |
| AdmissionProtocol.StepKeepsSafe | xnobrain/integrations/native_admission.py:56-246 | The safety invariant behind that: after a hand-off the row is closed and the program at the fence can only retire it |
| AdmissionProtocol.RunKeepsSafe | xnobrain/integrations/kanban_workers.py:71-88 | The invariant holds after every run, and a spent intent stays spent |
| AdmissionProtocol.SecondHandoffExactlyWhenStale | xnobrain/integrations/native_admission.py:197-243 | After a hand-off, one reconcile pass can lead to a second hand-off if and only if the row it read before locking is a stale claim |
| AdmissionProtocol.StaleReplay | xnobrain/integrations/native_admission.py:200-240 | The interleaving that replays an intent, for every stale claim |
| AdmissionProtocol.StepKeepsCarried | xnobrain/integrations/native_admission.py:86-95 | Every step keeps claiming, starting, running and finished rows named by a non-empty admission, in the journal and in every row ever read |
| AdmissionProtocol.CommittedRowsNameTheirGrant | xnobrain/integrations/native_admission.py:80-98 | The same over whole runs, whatever Control replies |
| AdmissionReceipts.ReceiptsAreTrue | xnobrain/integrations/native_admission.py:80-142 | In every run without a stale claim every receipt is true when it is sent: aborted only while nothing has been handed to an executor, running and finished only once the journal has said so, cancelled only once it has said that |
| AdmissionReceipts.SettledMeansClosed | xnobrain/integrations/native_admission.py:76-142 | However programs interleave and crash and whatever Control answers, a settled row means that Control acknowledged the end, said the intent had ended, or denied knowing it |
| AdmissionReceipts.ReconcilersCloseWhatRan | xnobrain/integrations/native_admission.py:197-246 | A reconcile pass, cut short anywhere: for a running or finished row it sends no receipt but finished and leaves the row as it was, finished or settled under the same admission; for a starting or cancelled one no receipt but cancelled, and cancelled or settled; for a claim no receipt but aborted, and waiting or claiming |
| AdmissionControl.NoGrantLeaks | xnobrain/integrations/native_admission.py:80-142 | Against an honest Control whose replies may be lost, with crashes and aborts without the fence: whenever the row is absent, waiting or settled, Control holds no grant, and any grant it does hold is the one the row names, or the row is cancelled without one and Control is asked by identity. The runs are those in which no reconciler is late or misled, nobody polls while an abort without the fence goes on, and one that begins between polls gives up the last admission polled |
| AdmissionLeaks.LeaksExactlyWhenMisled | xnobrain/integrations/native_admission.py:197-246 | From any state with every grant accounted for, an honest reconcile pass with a row read earlier can leave a grant behind a waiting or settled row if and only if it acts under an admission and Control holds another grant than that, or one the row calls claiming although the intent has run; a row without an admission never leaks, since Control is then asked by identity |
| AdmissionLeaks.LateReconcileLeaks | xnobrain/integrations/native_admission.py:197-240 | A reachable run with an honest Control that leaks although the row read is no stale claim: two claims with lost replies and a reconciler that read the first |
| AdmissionLeaks.CurrentRowMisleadsNobody | xnobrain/integrations/native_admission.py:200-204 | A reconciler that finds the row as it read it is neither misled nor late |
| AdmissionControl.StepKeepsNoLeak | xnobrain/integrations/native_admission.py:104-142 | Every honest step keeps each held grant reachable from the journal row, under the same conditions on the step |
| AdmissionControl.RunKeepsNoLeak | xnobrain/integrations/native_admission.py:197-246 | The same over whole runs |
| AdmissionControl.StaleReconcileRunsTwice | xnobrain/integrations/native_admission.py:200-240 | A reachable run with an honest Control and two hand-offs: the unguarded promise is false |
| AdmissionGate.NativeAdmission.Poll | xnobrain/integrations/native_admission.py:56-102 | A poll admits exactly when it may enter, the intent can be recorded, Control offers and then grants; it leaves exactly the row PolledRow gives, starts nobody, and holds the fence if and only if it admitted |
| AdmissionGate.PollsEndByAnswer | xnobrain/integrations/native_admission.py:56-98 | After a poll the row is settled exactly if Control says the intent has ended, starting exactly if a claim was granted, claiming exactly if the claim got no answer or an old claim stays as it was; it carries the last admission that Control named, and none once a claim has been given back |
| AdmissionGate.NativeAdmission.Consult | xnobrain/integrations/native_admission.py:72-97 | Acting on Control's answer is a legal run of protocol steps with the stated row and answer |
| AdmissionGate.NativeAdmission.Unclaim | xnobrain/integrations/native_admission.py:80-85 | A claim whose reply was lost is given back; the row waits only if Control acknowledged |
| AdmissionGate.NativeAdmission.Claim | xnobrain/integrations/native_admission.py:89-97 | The claim is journalled before it is made, and the row tells how it ended |
| AdmissionGate.NativeAdmission.Started | xnobrain/integrations/native_admission.py:104-107 | The journal says running with the same admission, even if the receipt is lost |
| AdmissionGate.NativeAdmission.Finish | xnobrain/integrations/native_admission.py:109-117 | Settled exactly when Control acknowledged, finished otherwise; the fence is released |
| AdmissionGate.NativeAdmission.Abort | xnobrain/integrations/native_admission.py:119-130 | Settled exactly when Control acknowledged or does not know the intent, cancelled otherwise, under the admission it gave up |
| AdmissionGate.NativeAdmission.Defer | xnobrain/integrations/native_admission.py:132-142 | Waiting without an admission when acknowledged, claiming with the old one otherwise |
| AdmissionGate.NativeAdmission.Close | xnobrain/integrations/native_admission.py:144-147 | Closing mid-program leaves the journal as it is |
| AdmissionGate.NativeAdmission.ReconcileRow | xnobrain/integrations/native_admission.py:199-246 | A pass leaves exactly the stated row and sends exactly the stated receipts for every pair of row found and row read before locking, current or not, and every reply; a held fence leaves the row untouched, and Control is reminded of a running one |
| AdmissionGate.PassesEndByState | xnobrain/integrations/native_admission.py:210-242 | By the state that was read, with the receipt delivered or lost: running and finished rows end finished or settled under the same admission and send finished; starting and cancelled ones end cancelled or settled and send cancelled; settled if and only if Control acknowledged, or does not know an intent without an admission; claims end waiting or claiming, and a waiting row is touched only when abandoned |
| AdmissionGate.CurrentRowsAreReconciled | xnobrain/integrations/native_admission.py:210-242 | If the row is current and Control answers, the row left is waiting or settled |
| AdmissionGate.NativeAdmission.NativeRoot | xnobrain/integrations/native_admission.py:150-179 | A cron run starts exactly when admitted with workspace activity and a journal that takes the running row; that is the one hand-off. The row it leaves is stated for every case: not let in, not admitted, put back, or closed after the run or after the failed start |
| AdmissionGate.NativeAdmission.SpawnWorker | xnobrain/integrations/kanban_workers.py:74-88 | A worker process is the one hand-off, under a running row; if spawning fails, before or after the process exists, the row is given up and says so, and a process that exists keeps the fence |
| AdmissionGate.NativeAdmission.Cancel | xnobrain/integrations/native_admission.py:182-194 | Cancels exactly the intents that may still be offered; any other row is left untouched |
| AdmissionGate.NativeAdmission.ClaimTask | xnobrain/integrations/kanban_admission.py:47-61 | Around the claim of a task: the admission is kept exactly for a task that was taken; otherwise it is put back, or given up, also without the fence when putting it back could not be stored, and the row left is stated for every case |
| SourceCheckpoint.AttemptKeepsEvidence | xnobrain/integrations/runtime_source_checkpoint.py:71-143 | One attempt, cut short anywhere, keeps at most one evidence file per operation, never changes one, never flushes once there is one, and on success leaves both pointers at it |
| SourceCheckpoint.RunKeepsEvidence | xnobrain/integrations/runtime_source_checkpoint.py:101-138 | The same over any sequence of commands of any operations |
| SourceCheckpoint.EverySuccessAgrees | xnobrain/integrations/runtime_source_checkpoint.py:83-143 | Any two successful commands of an operation give the same id, backed by the same evidence, whatever ran in between |
| SourceCheckpoint.NeverRemeasured | xnobrain/integrations/runtime_source_checkpoint.py:99-118 | Once an operation has evidence, its data is never flushed, or measured for a new baseline, again |
| SourceCheckpoint.AttemptKeepsReady | xnobrain/integrations/runtime_source_checkpoint.py:116-143 | Every crash point leaves the three records consistent |
| SourceCheckpoint.RetryConverges | xnobrain/integrations/runtime_source_checkpoint.py:96-143 | After any number of interrupted attempts, one undisturbed retry returns the operation's only checkpoint, with both pointers at it |
| SourceCheckpoint.OnlyTheEntitledCheckpoint | xnobrain/integrations/runtime_source_checkpoint.py:74-143 | A flush, a durable write or an id only if maintenance is paused for the binding, the operation is bound to it, and either a pointer names genuine evidence or both records say drained and the evidence files are unambiguous; each failure, above all the one of an undrained runtime, has its exact condition, and leaves the disk as it was but for a flush |
| SourceCheckpoint.WritesDecideTheRest | xnobrain/integrations/runtime_source_checkpoint.py:118-143 | An entitled attempt returns exactly if its two writes, or three with new evidence, are all made, and new evidence is what was measured, under its own name |
| SourceCheckpoint.Runtime.Reconcile | xnobrain/integrations/runtime_source_checkpoint.py:99-115 | The scan finds the single genuine claim, none, an ambiguity or a foreign file, each exactly when it is there |
| SourceCheckpoint.Runtime.Checkpoint | xnobrain/integrations/runtime_source_checkpoint.py:71-143 | Run record by record and cut short after any number of durable writes, the program leaves exactly the disk and outcome of the attempt the theorems are about |
| SourceCheckpoint.Runtime.RestoreReady | xnobrain/integrations/runtime_source_checkpoint.py:146-187 | The command leaves the disk and the outcome that the theorem below is about; after a successful checkpoint it returns exactly for its id and preserved data |
| SourceCheckpoint.RestoreConfirmsExactlyPreservedData | xnobrain/integrations/runtime_source_checkpoint.py:146-187 | After a successful checkpoint and any commands in between, each possibly cut short, restore is confirmed if and only if it names that checkpoint and the verification policy finds the data preserved against its manifest, which is what the first attempt measured; each refusal has its own exact condition, and nothing but the confirmation is written |
| SourceCheckpoint.OnlyTheCheckpointedRestore | xnobrain/integrations/runtime_source_checkpoint.py:146-187 | From any records: restore is refused if and only if no complete checkpoint of that id stands still for the binding, and otherwise confirmed, refused or failed exactly as the verification of its data says |
| SourceCheckpoint.AlikeDataCanBeRestored | xnobrain/integrations/runtime_source_checkpoint.py:118-187 | So the data that were measured can always be restored, and any other data if and only if they have the same paths and alike files |
| DurableManifest.PreservedExactlyWhenAlike | xnobrain/integrations/runtime_update_storage.py:204-392 | In each of the three manifest versions, data are preserved if and only if the same paths are tracked and the file at each is alike: same metadata and kind, and by kind the same bytes, link or type; over the digest limit the same size and time; for databases the same rows or just the initialization marker added; in version 2 an agent log may have grown |
| DurableManifest.PreservedIsPreorder | xnobrain/integrations/runtime_update_storage.py:335-392 | Unchanged data are preserved, and data preserved in two stages are preserved |
| DurableManifest.Verify | xnobrain/integrations/runtime_update_storage.py:335-392 | The loop over the entries decides that policy and counts the added, removed, changed, appended and equivalent entries; it raises exactly for data its version cannot record |
| DurableManifest.TrackedByVersion | xnobrain/integrations/runtime_update_storage.py:225-253 | Which files each manifest version records |
| DurableManifest.SnapshotsByCases | xnobrain/integrations/runtime_update_sqlite.py:98-106 | Databases are equivalent if and only if they are the same but for an initialization marker that was added |
| DurableManifest.MarkerIsAccepted | xnobrain/integrations/runtime_update_sqlite.py:98-106 | A database that the next start initializes changes the manifest and is preserved, but not the other way round |
| DurableManifest.LargeContentIsNotCompared | xnobrain/integrations/runtime_update_storage.py:287-289 | A file over the digest limit that keeps its size and time is preserved whatever its content |
| MindmapCycles.CycleSearch.Search | xnobrain/diagram_attachment.py:71-82 | The recursive search terminates on any graph and reports true only for a real cycle |
| MindmapCycles.CycleSearch.HasCycle | xnobrain/diagram_attachment.py:66-87 | A cycle is reported if and only if the graph has one, for any number of nodes |
| MindmapCycles.FinishedIsAcyclic | xnobrain/diagram_attachment.py:78-87 | An order that puts every node after its children rules out every cycle |
| MindmapCycles.WalkDescends | xnobrain/diagram_attachment.py:71-82 | Along such an order every walk strictly descends |
| Mindmap.AcyclicIsTree | xnobrain/diagram_attachment.py:132-142 | With one root and no cycle, following parents reaches the root from every node in fewer steps than there are nodes |
| Mindmap.CyclicIsNoTree | xnobrain/diagram_attachment.py:141-142 | With a cycle there is no root all nodes lead to |
| Mindmap.ValidateIdsAndLabels | xnobrain/diagram_attachment.py:54-63 | Accepts exactly distinct well-formed ids with labels in bounds, and returns exactly those ids; it is too large if and only if the first node to be refused has a fresh well-formed id |
| Mindmap.ReadParents | xnobrain/diagram_attachment.py:110-131 | Reads the parent relation exactly when every parent named exists |
| Mindmap.FindRoots | xnobrain/diagram_attachment.py:132-136 | One entry exactly when there is one node without a parent |
| Mindmap.BuildChildren | xnobrain/diagram_attachment.py:137-140 | The child lists are the parent relation read backwards |
| Mindmap.CheckTree | xnobrain/diagram_attachment.py:132-142 | The root count and the cycle check together accept exactly rooted trees |
| Mindmap.CheckEdges | xnobrain/diagram_attachment.py:144-188 | Accepts exactly edges with known distinct ends, unique ids and pairs, none doubling a parent link |
| Mindmap.ValidateMindmap | xnobrain/diagram_attachment.py:90-188 | Accepts exactly the documents whose nodes form one rooted tree with valid references; refused ones are unsupported exactly for an unknown version, too large exactly when nothing before the limits is wrong and a count or the first refused node's label exceeds its limit, and malformed otherwise |
| Mindmap.AcceptedInFull | xnobrain/diagram_attachment.py:88-188 | Acceptance in terms of the document alone: its form and sizes, the names of nodes and edges, one parentless node every node leads to, and edges between different nodes that repeat neither each other nor a parent link |
| DelegationBatches.Group | xnobrain/integrations/conversation_runner.py:1163-1172 | Every task is in exactly one group, under the key of its own decision |
| DelegationBatches.Chunk | xnobrain/integrations/conversation_runner.py:1173-1178 | Cutting a group keeps its tasks, each once and in order, in batches of one to `slots`, all but the last full |
| DelegationBatches.Split | xnobrain/integrations/conversation_runner.py:1163-1178 | The batches partition the task indices; each has one to `slots` tasks, in order, of a single model and reasoning key; keys come in the order of their first tasks, and the tasks of a key in order, in batches that are full but for the last |
| DelegationBatches.SameKeySameSettings | xnobrain/integrations/conversation_runner.py:1167-1172 | Two decisions with the same key make the agent run under the same settings |
| DelegationBatches.SettingsByField | xnobrain/integrations/conversation_runner.py:510-525 | Field by field: a blank model or effort, and an effort that is not understood, leave the agent's own; one whose parsing raises leaves only the model changed |
| DelegationMerge.MergeIsExact | xnobrain/integrations/conversation_runner.py:1264-1316 | The merged report has one entry per task in task order if and only if every batch's report has one entry for each of its tasks |
| DelegationMerge.AnswersAreComplete | xnobrain/integrations/conversation_runner.py:1271-1304 | A worker that answers each local index once, in any order, or fails as a whole, reports each of its tasks once |
| DelegationMerge.AnsweredTasksMergeExactly | xnobrain/integrations/conversation_runner.py:1233-1316 | So if every worker does, the merged report is exact |
| DelegationMerge.SortSorts | xnobrain/integrations/conversation_runner.py:1314-1316 | The stable sort orders the entries and keeps how often each task is reported |
| DelegationMerge.SortIsStable | xnobrain/integrations/conversation_runner.py:1314-1316 | Sorting loses and invents no entry, and keeps the order of those of one task |
| DelegationMerge.EntriesFollowTheReply | xnobrain/integrations/conversation_runner.py:1271-1304 | Item by item, the payload goes to the task that the item names by its local index, or else to the one at its position; the merge raises exactly if an item has neither; a failed batch says its error of each of its tasks |
| DelegationMerge.EachTaskGetsItsOwnAnswer | xnobrain/integrations/conversation_runner.py:1233-1322 | If every worker answers, each task's entry in the merged report carries what its own worker gave for its local index, or that worker's error |
| DelegationMerge.EachTaskKeepsItsDecision | xnobrain/integrations/conversation_runner.py:1163-1204 | A task runs under its own decision's settings even when its batch was made for another's |
| DelegationMerge.Agent.RunBatch | xnobrain/integrations/conversation_runner.py:1183-1204 | The decision's settings hold during the call and the agent's own are back after it; a decision that raises while it is applied makes no call and leaves the model it had set |
| DelegationMerge.Agent.MergeBatch | xnobrain/integrations/conversation_runner.py:1264-1304 | Remaps local to task indices, and fails exactly when an item's index is no number or the item and its position are both out of range |
| DelegationMerge.Agent.RunWave | xnobrain/integrations/conversation_runner.py:1233-1304 | Progress is relayed with the batch's task indices during the call, and the agent's own callback is back after it, whether or not the decision could be applied |
| DelegationMerge.Agent.RunBatches | xnobrain/integrations/conversation_runner.py:1163-1322 | The calls run the batches of a partition in order, each under its own settings; the report is the merge of all replies, or says which step raised; the agent's settings and callback are its own again however it ends, except the model after a decision that could not be applied |
| DelegationMerge.Agent.Dispatch | xnobrain/integrations/conversation_runner.py:1079-1322 | Every path of the tool: the depth limit, a single goal with and without Smart Route, a list passed on as it came, too many tasks, an event loop that takes no classification, and the batches, with the calls that were made, the report they gave and the settings left on the agent |
| SchedulePreview.EveryInstantIsAFold | xnobrain/integrations/schedule_preview.py:44-52 | Converting a wall time under both folds finds every instant that shows it |
| SchedulePreview.FoldsAreAdjacent | xnobrain/integrations/schedule_preview.py:45-48 | The two fold conversions use the same offset or neighbouring ones |
| SchedulePreview.WallOrderIsInstantOrder | xnobrain/integrations/schedule_preview.py:39-55 | First instants of wall times are ordered as the wall times are, across any transitions |
| SchedulePreview.NothingBeforeTheStart | xnobrain/integrations/schedule_preview.py:30-35 | Starting the iterator at the cutoff's own wall time misses no run after the cutoff |
| SchedulePreview.Instants | xnobrain/integrations/schedule_preview.py:44-52 | Finds exactly the instants that read back as the candidate, or fails exactly when a conversion of either fold leaves the calendar |
| SchedulePreview.Preview | xnobrain/integrations/schedule_preview.py:8-67 | A result is exactly the first `count` runs after the cutoff, strictly increasing, each the earlier instant of its wall time, none missed. Otherwise it is the first check that fails, each with its own condition, the calendar range of the cutoff among them, or too few runs lie among the candidates before the loop stops, and the error names where: at a candidate whose conversion leaves the calendar, where the iterator raises, or after ten thousand rounds |
| SchedulePreview.CoveredRunsAreFirst | xnobrain/integrations/schedule_preview.py:53-66 | Covering a prefix of the candidates means missing no run up to the last one found |
| KanbanSchedules.NextIsLeast | xnobrain/integrations/kanban_schedules.py:282-284 | The new due time is the least point of the grid after now |
| KanbanSchedules.CatchUp | xnobrain/integrations/kanban_schedules.py:282-284 | The catch-up loop terminates and computes that point |
| KanbanSchedules.StepKeepsSafe | xnobrain/integrations/kanban_schedules.py:255-300 | Every transaction of any racing tick keeps: one occurrence per slot and key, count equal to the swaps that won |
| KanbanSchedules.RunKeepsSafe | xnobrain/integrations/kanban_schedules.py:189-301 | The same over all runs, and an occurrence once made is never replaced |
| KanbanSchedules.FreshSlotsAscend | xnobrain/integrations/kanban_schedules.py:282-300 | If every rearming is later than all fired slots, slots fire in ascending order, each once, and each repetition has a task of its own |
| KanbanRearming.RepeatsExactlyWhenLedBack | xnobrain/integrations/kanban_schedules.py:189-301 | From any state, some continuation without rearming, with any races and crashes, has a slot fired twice if and only if one has been already or the row can be led, along its grid or by ticks in flight, to a slot that has fired and can fire again |
| KanbanRearming.RearmRepeatsExactlyOnItsGrid | xnobrain/integrations/kanban_schedules.py:57-163 | With no tick in flight, a put or a run-now lets a slot fire twice if and only if its time has fired or, for a repetition, a grid point of its time has |
| KanbanRearming.FreshTimeNeverRepeats | xnobrain/integrations/kanban_schedules.py:69-70 | Rearming at a time after every fired slot never does, whatever ticks are in flight |
| KanbanRearming.EachSlotFiresOnceExactlyWhenClear | xnobrain/integrations/kanban_schedules.py:189-301 | From a new schedule on: no slot fires twice, at any point of the run or in a continuation of it without rearming, if and only if no rearming leads the row back; then the count is the number of slots and each repetition has a task of its own |
| KanbanRearming.SlotFiresTwice | xnobrain/integrations/kanban_schedules.py:142-163 | The failing run: a repeating schedule is run by hand twice within one second, and the slot of that second fires twice under one task, so two are counted and one task exists |
| KanbanSchedules.FutureIsFresh | xnobrain/integrations/kanban_schedules.py:69-70 | A time still in the future when written is always fresh |
| KanbanSchedules.RetriesShareTheOccurrence | xnobrain/integrations/kanban_schedules.py:259-277 | After a crash between creating a task and the swap, every later tick of the slot gets that same task |
| KanbanSchedules.UndisturbedTick | xnobrain/integrations/kanban_schedules.py:215-301 | A tick nobody interrupts is a legal run with the stated row, and a new task exactly if the slot had none |
| KanbanSchedules.RunNowCreatesExactlyOncePerSecond | xnobrain/integrations/kanban_schedules.py:142-163 | Running by hand always raises the count, and creates a task if and only if none was made for that second |
| KanbanSchedules.Board.Put | xnobrain/integrations/kanban_schedules.py:57-119 | Refuses elapsed times, short intervals and missing tasks without a change; otherwise rearms the row and keeps its count |
| KanbanSchedules.PutIsTheStep | xnobrain/integrations/kanban_schedules.py:57-119 | A put is accepted exactly when the protocol's step is possible, and leaves the row of that step, so the theorems about rearming speak of it |
| KanbanSchedules.PutArms | xnobrain/integrations/kanban_schedules.py:80-103 | A schedule that was put is due from the given time on, also if it was paused; its recurrence and interval are those given and its count the old one or zero |
| KanbanSchedules.FirstPutIsInitial | xnobrain/integrations/kanban_schedules.py:80-103 | A new schedule starts as the theorems about whole runs begin |
| KanbanSchedules.Board.SetEnabled | xnobrain/integrations/kanban_schedules.py:122-140 | Pausing and resuming change that flag alone, as the protocol's step does; a missing schedule is refused |
| KanbanSchedules.Board.RunTaskNow | xnobrain/integrations/kanban_schedules.py:142-163 | Refuses exactly the named cases without a change; otherwise the schedule is due now and a pass follows |
| KanbanSchedules.RunNowIsTheStep | xnobrain/integrations/kanban_schedules.py:142-163 | A run by hand is accepted exactly when the protocol's step is possible; the row is armed as by that step, and if the pass handles it, left as by the step and an undisturbed tick |
| KanbanSchedules.Board.ReleaseRow | xnobrain/integrations/kanban_schedules.py:215-300 | One due row: its new row, its status, its occurrence and whether it is reported; a refused unblock leaves all as it was |
| KanbanSchedules.Board.ReleaseDue | xnobrain/integrations/kanban_schedules.py:214-301 | A pass moves exactly the due rows that are not held, each from the row the query saw, and reports them in order |
| KanbanSchedules.RowsAfterAt | xnobrain/integrations/kanban_schedules.py:214-301 | What a pass leaves, row by row: due rows that are not held have moved, all others are as they were |
| KanbanSchedules.NothingStaysDue | xnobrain/integrations/kanban_schedules.py:196-202 | A pass that skips nothing and was not cut off leaves no row due |
| KanbanQueue.AnswerIsTheFirstHundred | xnobrain/integrations/kanban_schedules.py:196-202 | A due row is in the query's answer if and only if fewer than a hundred due rows come before it |
| KanbanQueue.ReachedExactlyWithinAHundred | xnobrain/integrations/kanban_schedules.py:196-301 | A pass handles a due row that is not held if and only if fewer than a hundred due rows come before it, and otherwise leaves it as it was |
| KanbanQueue.SkippedRowsBlockTheQueue | xnobrain/integrations/kanban_schedules.py:202-257 | Over any sequence of passes, with any edits of other rows: a row behind a hundred due rows that every pass skips or holds is in no answer and never changes |
| KanbanQueue.ReleasableRowStarves | xnobrain/integrations/kanban_schedules.py:202-257 | The failing board: a schedule that is due and would be released, behind a hundred or more that are due and skipped, is never released |
| KanbanQueue.CrowdIsTheAnswer | xnobrain/integrations/kanban_schedules.py:196-202 | On that board the query answers with a hundred of the skipped ones |
| ImageMessages.ProjectParts | xnobrain/integrations/image_tools.py:54-64 | Unwraps image sources; of a tool result, separates images from the rest in order |
| ImageMessages.RouterImageMessages | xnobrain/integrations/image_tools.py:20-72 | The loop with its pending images sends exactly what the prefix-wise definition says, and changes nothing for other models |
| ImageMessages.HistoryIsKept | xnobrain/integrations/image_tools.py:45-70 | Every message is sent once, in order, with its role and other fields; tool results keep their other parts and no image |
| ImageMessages.EveryImageIsSentOnce | xnobrain/integrations/image_tools.py:54-64 | Every image part is sent exactly once, in order, unwrapped |
| ImageMessages.SentImagesAreUnwrapped | xnobrain/integrations/image_tools.py:54-60 | Image by image: an object source is sent as its url, or as empty text if it has none, any other source as it is, and the other fields as they are |
| ImageMessages.AdaptedIsUnwrapped | xnobrain/integrations/image_tools.py:54-64 | The same for every part that stays where it is; parts that are no images are unchanged |
| ImageMessages.RunsAreSentWhole | xnobrain/integrations/image_tools.py:45-52 | Up to a message that is no tool result, what is sent is the rewriting of what came before it: the images of a run of tool results are sent by the end of the run |
| ImageMessages.InsertedAfterTheRun | xnobrain/integrations/image_tools.py:32-52 | An inserted user message follows a tool result and is never followed by one |
| ImageMessages.IdempotentExactlyWithoutNesting | xnobrain/integrations/image_tools.py:58-60 | Rewriting twice is rewriting once if and only if no unwrapped source is an object |
| ImageMessages.SentToolsAreBare | xnobrain/integrations/image_tools.py:61-63 | No tool result that is sent carries an image |
| SkillSync.Inventory | xnobrain/integrations/agent_skills.py:195-224 | The loop computes the inventory in listing order |
| SkillSync.InventoryIsComplete | xnobrain/integrations/agent_skills.py:206-224 | Every id once, every ordinary skill's id listed, control skills and blank ids never |
| SkillSync.PlanPartitions | xnobrain/integrations/agent_skills.py:102-133 | The five lists are disjoint and cover the enabled common skills, the private ones, and the target's skills disabled in common |
| SkillSync.PlanSaysWhatTheSyncDoes | xnobrain/integrations/agent_skills.py:92-224 | For any catalog and profile without overlaps, against the inventories before and after the sync: added are exactly the ids that appear, removed those that disappear, updated the common ones whose item changes in content, place or state, unchanged the common ones whose item stays, and preserved the private ones, whose items stay |
| SkillSync.BuildFailsExactly | xnobrain/integrations/agent_skills.py:149-193 | Building the replacement tree fails if and only if a private skill is the skills directory itself, lies within another private one or holds a named pipe or socket, or an enabled common skill holds one, or is to stand at or below a private file or dead link, or on a private link, that no common skill before it has replaced, or its copy follows a private link to a directory elsewhere and fails there |
| SkillSync.RootSkillFails | xnobrain/integrations/agent_skills.py:149-193 | A lone private SKILL.md in the skills directory fails the sync, with nothing nested |
| SkillSync.NestedSkillsFail | xnobrain/integrations/agent_skills.py:150-155 | One private skill inside another fails it |
| SkillSync.SpecialFileFails | xnobrain/integrations/agent_skills.py:182-193 | A named pipe or socket in a private skill fails it |
| SkillSync.FileInTheWayFails | xnobrain/integrations/agent_skills.py:182-193 | A private file where a common skill belongs fails it |
| SkillSync.LinkLeadsElsewhere | xnobrain/integrations/agent_skills.py:182-193 | A common skill below a private link to a directory is copied to where the link leads; the sync succeeds and the new tree lacks the skill |
| SkillSync.CommonSkillsArrive | xnobrain/integrations/agent_skills.py:156-193 | Whenever the tree is built, an enabled common skill stands in it with exactly its content in the catalog if and only if it, or another enabled common skill at or above its directory, was not led elsewhere by a private link |
| SkillSync.PrivateStaysExactlyUnlessOverlaid | xnobrain/integrations/agent_skills.py:150-193 | In the built tree everything below a private skill's directory is as it was if and only if every enabled common skill is led elsewhere by a private link, or is not put at or above that directory and, if put below it, finds exactly its own content there |
| SkillSync.SyncedInventory | xnobrain/integrations/agent_skills.py:135-224 | After a sync without overlaps the inventory is exactly the private skills, content and state as before, and the enabled common ones |
| SkillSync.SyncedPlanIsEmpty | xnobrain/integrations/agent_skills.py:92-224 | For the inventories of any catalog and any profile without overlaps: planning again from the tree and the disabled list that `Profile.Apply` leaves adds, updates and removes nothing, preserves the same skills and finds every enabled common one unchanged |
| SkillSync.Profile.Build | xnobrain/integrations/agent_skills.py:149-193 | Both copy loops, stopping at the first refused copy, build the tree the lemmas above are about |
| SkillSync.Profile.Apply | xnobrain/integrations/agent_skills.py:135-180 | Succeeds exactly when the tree can be built and no call raises; if only the removal of the backup raises the new tree and list are in place all the same; after every other failure the old tree is in place or still in the backup, and in place when putting it back works |
| ConcurrentWork.StepKeepsSound | xnobrain/integrations/concurrent_work.py:90-157 | Every locked section keeps: turns equal distinct requests within the limit, active at most peak at most the limit |
| ConcurrentWork.RunKeepsSound | xnobrain/integrations/concurrent_work.py:77-157 | The same over all interleavings of all threads |
| ConcurrentWork.RetryIsFree | xnobrain/integrations/concurrent_work.py:110-121 | A request once reserved never costs a turn again and is refused only for depth or cancellation |
| ConcurrentWork.LetThroughByCases | xnobrain/integrations/concurrent_work.py:90-144 | Exactly which requests and children are let through, and what each refusal means |
| ConcurrentWork.NothingAfterCancel | xnobrain/integrations/concurrent_work.py:48-50 | After a cancel nothing is reserved and nobody enters, in any continuation |
| ConcurrentWork.ActiveIsInsideExactlyWithoutLeaks | xnobrain/integrations/concurrent_work.py:77-86 | The active count is the number of calls inside if and only if no acquire failed to report |
| ConcurrentWork.LeakedChildrenBlockTheRun | xnobrain/integrations/concurrent_work.py:133-153 | With as many leaks as the limit, nobody enters again |
| ConcurrentWork.CountersRecordTheRun | xnobrain/integrations/concurrent_work.py:110-144 | The stored requests are exactly those granted along the run, and the peak is its true maximum |
| ConcurrentWork.RunExecutionCoordinator.ReserveProviderRequest | xnobrain/integrations/concurrent_work.py:90-131 | The reservation step with its exact refusal |
| ConcurrentWork.RunExecutionCoordinator.AcquireChild | xnobrain/integrations/concurrent_work.py:133-153 | The acquire step with its exact refusal |
| ConcurrentWork.RunExecutionCoordinator.CoordinatedRun | xnobrain/integrations/concurrent_work.py:77-86 | A child that runs is counted while it runs and given back whatever its body does and whether or not its release can be reported; a raising report of the release replaces what the body raised |
| KanbanDelegation.RunGrows | xnobrain/integrations/kanban_delegation.py:53-163 | Over any calls, team binding, admission key and non-empty execution id are write-once, the revision never falls, terminal stays terminal |
| KanbanDelegation.StepGrows | xnobrain/integrations/kanban_delegation.py:114-149 | One call never undoes any of these, and columns agree with the stored receipt |
| KanbanDelegation.ReceiptByCases | xnobrain/integrations/kanban_delegation.py:114-149 | A receipt is stored exactly if it is small enough, names the bound execution or the first, reopens none and is no older than the last; it then replaces the last one and clears the error, and nothing else moves; each refusal has its exact condition |
| KanbanDelegation.CallsByCases | xnobrain/integrations/kanban_delegation.py:53-163 | A first binding is bare and complete unless it has a creation intent, another team is refused, a key is set once, and finishing, cancelling and failing set their own column alone |
| KanbanDelegation.DeliveryOrderDoesNotMatter | xnobrain/integrations/kanban_delegation.py:133-149 | However the receipts of an execution arrive, the record ends as the one with the greatest revision |
| KanbanDelegation.DeliveriesAgree | xnobrain/integrations/kanban_delegation.py:133-149 | Two deliveries of the same receipts, in any order and multiplicity, store the same one |
| KanbanDelegation.DeliveriesAgreeExactlyWithATop | xnobrain/integrations/kanban_delegation.py:133-149 | For any receipts of one execution: every order and repetition of them stores the same one if and only if none can be stored or one tops the others, that is, no other has its revision or a greater one, except a non-terminal one beside a terminal top, and the top is terminal if any is |
| KanbanDelegation.OrderMattersExactlyAfterATerminal | xnobrain/integrations/kanban_delegation.py:139-143 | Two receipts of any revisions give the same record in both orders if and only if one is never stored, they are the same, the later revision is terminal if the earlier is, or at one revision exactly one of them is terminal |
| KanbanDelegation.Ledger.Bind | xnobrain/integrations/kanban_delegation.py:53-74 | Binds once; a different team is refused and changes nothing |
| KanbanDelegation.Ledger.CopyBinding | xnobrain/integrations/kanban_delegation.py:86-89 | An occurrence gets its template's team |
| KanbanDelegation.Ledger.Prepare | xnobrain/integrations/kanban_delegation.py:92-102 | The first admission key is kept and returned |
| KanbanDelegation.Ledger.Record | xnobrain/integrations/kanban_delegation.py:114-149 | The receipt is refused, ignored or stored exactly as the step says; no other row moves |
| KanbanDelegation.Ledger.Actionable | xnobrain/integrations/kanban_delegation.py:166-176 | The first hundred unresolved tasks in order, all of them if fewer; never empty while one is in flight |
| KanbanDelegation.UnresolvedByCases | xnobrain/integrations/kanban_delegation.py:172-174 | A task is resolved exactly if it is created, not ready, and not admitted or its execution closed |
| KanbanDelegation.Ledger.BoardHasUnresolvedWork | xnobrain/integrations/kanban_delegation.py:179-188 | True if and only if some task is unresolved, which is when the work list is non-empty |
| ArchiveGraph.ReadMembers | xnobrain/integrations/runtime_data_volume.py:98-112 | Accepts exactly bounded archives of distinct admissible members, and indexes them |
| ArchiveGraph.ValidateArchive | xnobrain/integrations/runtime_data_volume.py:89-122 | Accepts exactly the archives that satisfy the stated rules |
| ArchiveGraph.AcceptedInFull | xnobrain/integrations/runtime_data_volume.py:89-122 | Member by member: at most a million, of different paths, each a file, directory or link below the root and no volume marker, with only directories above it in the archive, and each hard link leads to a file of the archive |
| ArchiveGraph.ExtractsExactlyWhenParentsAreDirs | xnobrain/integrations/runtime_data_volume.py:113-116 | In whatever order members come, extraction meets no link or regular file on its way if and only if all parents in the archive are directories |
| ArchiveGraph.PlaceFailsExactlyOnBadParents | xnobrain/integrations/runtime_data_volume.py:114-116 | The next member cannot be placed if and only if it and an earlier one collide over a non-directory |
| ArchiveGraph.AcceptedArchivesAreSafe | xnobrain/integrations/runtime_data_volume.py:113-122 | An accepted archive extracts; each hard link's target is a regular file with only directories above it |
| ContextCodec.DecodeUndoesEncode | xnobrain/trusted_context.py:81-81 | Decoding an encoded payload gives it back, for every byte sequence |
| ContextCodec.EncodesTheBits | xnobrain/trusted_context.py:81-81 | Three bytes are four symbols of the same bits, and one or two bytes left over two or three symbols with zeros for what is missing, then padding |
| ContextCodec.SymbolsAreTheAlphabet | xnobrain/trusted_context.py:81-81 | The URL-safe alphabet in its order |
| ContextCodec.RepadUndoesStrip | xnobrain/trusted_context.py:229-230 | Padding by the length modulo four undoes stripping the padding |
| ContextCodec.VerifiedRoundTrip | xnobrain/trusted_context.py:71-236 | Every non-empty payload within the bound comes back when signed with the same key; a larger one is refused |
| ContextCodec.JoinIsInjective | xnobrain/trusted_context.py:49-54 | Joined NUL-free fields determine the fields and their number |
| ContextCodec.ContextMaterialIsJoined | xnobrain/trusted_context.py:201-202 | The signed material of a context is the join of its four fields |
| ContextCodec.SignatureBindsEverything | xnobrain/trusted_context.py:193-228 | With a collision-free digest, a signature verifies for the principal and context it was issued for and for nothing else |
| Blends.RoundRobinIsFair | xnobrain/integrations/blends.py:368-371 | Any n times sticky consecutive selections, from any counter value, pick each of n positions exactly sticky times |
| Blends.Periodic | xnobrain/integrations/blends.py:370-370 | A whole cycle later the same position is selected, also for negative counters |
| Blends.SelectsInBlocks | xnobrain/integrations/blends.py:368-371 | From counter zero on, each position is selected `sticky` times in a row, in the order of the models |
| Blends.EligibleSmartModels | xnobrain/integrations/blends.py:394-434 | Keeps exactly the usable models in order; none whose known context is too short |
| Blends.EligibleKeepsOrder | xnobrain/integrations/blends.py:394-434 | The kept rows are exactly the items that name a model and are not known to be too short, in their order, each with its own model, context and effort |
| Blends.SelectTier | xnobrain/integrations/blends.py:297-302 | The one tier that serves: the least from the wanted one upwards with a model, else the greatest below; spelled out for each wanted tier |
| Blends.AskingOnceIsEnough | xnobrain/integrations/blends.py:284-289 | Asking each classifier model once finds the answer the first row would give |
| Blends.Classify | xnobrain/integrations/blends.py:284-295 | The first classifier that answers decides |
| Blends.WantedByCases | xnobrain/integrations/blends.py:262-295 | The tier a message asks for: the obvious one; or what the first usable model that answers says, by group and then by place; or the only group with a usable model; or the configured default |
| Blends.ResolveSmartRoute | xnobrain/integrations/blends.py:245-318 | A route exists if and only if some configured model is usable; it is the first usable item of the tier that serves, names a model, and its known context is no shorter than required |
| Blends.BlendState.ResolveBlendRoute | xnobrain/integrations/blends.py:358-391 | The stored selection: round-robin moves its own counter by one and nothing else moves |
| Blends.NonEmptyKeepsOrder | xnobrain/integrations/blends.py:362-366 | Exactly the names that are not empty are selected from, in their order |
| MemoryReclaim.StepKeepsSafe | runtime/memory-reclaim-helper.py:71-97 | Every step, a crash included, keeps evictions in strictly increasing fence order below the stored fence |
| MemoryReclaim.RunKeepsSafe | runtime/memory-reclaim-helper.py:61-97 | Over all runs: each fence evicts at most once, and the stored fence never falls |
| MemoryReclaim.NoEffectForUsedFences | runtime/memory-reclaim-helper.py:76-77 | No later eviction uses a fence at or below the stored one |
| MemoryReclaim.ReplaysNeverExecute | runtime/memory-reclaim-helper.py:72-75 | While no newer operation is accepted, the latest is only replayed, its receipt unchanged even if a crash left it executing |
| MemoryReclaim.ExecutesExactlyWhenNewer | runtime/memory-reclaim-helper.py:71-85 | A valid request executes if and only if the stored receipt is of another operation with a lower fence, or there is none |
| MemoryReclaim.RefusedByCases | runtime/memory-reclaim-helper.py:61-77 | Each refusal has its exact condition: a malformed request, the same operation under another fence, another operation under a fence that is not newer |
| MemoryReclaim.OneOperationTwice | runtime/memory-reclaim-helper.py:71-97 | One operation id evicts twice when another comes in between |
| MemoryReclaim.Helper.Execute | runtime/memory-reclaim-helper.py:61-97 | A request runs, is replayed or refused exactly as stated, and leaves the receipt of the point it reached |
| ProviderModels.OneSuffix | xnobrain/integrations/provider_models.py:197-204 | At most one level name ends an id, so the order of levels does not matter |
| ProviderModels.GatherAliases | xnobrain/integrations/provider_models.py:195-204 | Finds exactly the aliases whose base is in the catalog |
| ProviderModels.FindCollapsible | xnobrain/integrations/provider_models.py:206-210 | Exactly the bases with two aliases, or one and levels of their own |
| ProviderModels.ConnectionCatalogModels | xnobrain/integrations/provider_models.py:168-227 | The loops compute the collapsed catalog; without collapsing every row stays |
| ProviderModels.DroppedAliasesHaveAKeptBase | xnobrain/integrations/provider_models.py:211-218 | Every dropped alias leads through strictly shorter bases to a kept row |
| ProviderModels.KeptRowsListTheirLevels | xnobrain/integrations/provider_models.py:219-226 | A kept collapsible row lists exactly its own levels and those of its aliases, in canonical order; other rows keep theirs |
| ProviderModels.OrderIsKept | xnobrain/integrations/provider_models.py:214-227 | Rows that are not aliases stay, unchanged and in order |
| ProviderModels.LoneSuffixIsNoAlias | xnobrain/integrations/provider_models.py:176-180 | A model whose name ends in a level is dropped if and only if its base is collapsible |
| ProviderModels.AliasesAreDropped | xnobrain/integrations/provider_models.py:187-218 | In terms of the list of rows: one is left out exactly if its id extends a listed id by a level, and that one has another such extension or its last row states levels of its own |
| ProviderModels.KeptLevelsByRows | xnobrain/integrations/provider_models.py:187-226 | A kept row gets a level list exactly if a listed id is its alias, and then its own levels and those of all its listed extensions |
| ProviderModels.IndexedByLastRow | xnobrain/integrations/provider_models.py:188-192 | Blank ids stand for no row, and of rows with one id the last is meant |

## Left out

- AdmissionControl: a Control call takes effect at its step or never, not later.
- Admission: one intent at a time; the hundred-row limit of the pending queue is a poll that records nothing; `runtime_boot` and nonces are not modelled; lock helpers are exclusive locks that an inheriting worker keeps; a storage exception inside a program stops it there, except that a cron run whose running row is not taken goes on to finish, a spawner gives its admission up, and so does a dispatcher whose defer is not stored.
- SourceCheckpoint: the SHA-256 checkpoint id is an injective name; mount, service and path checks come first in the code and are not part of this model; an inspection that raises during a checkpoint is a command cut short before its first write.
- DurableManifest: digests are taken as the bytes they stand for; the size limits, unstable data and unsafe links make an inspection raise and are one case; the operator's acceptance of expired transfers is left out, as no restore passes one.
- Mindmap.ValidateMindmap: starts from parsed elements; attribute-name sets and the `order` and `collapsed` patterns are one flag per element.
- DelegationMerge: transcripts, durations and queue events are left out.
- SchedulePreview.Preview: cron syntax is not parsed; the wall times the iterator yields are a parameter, promised to be all the admissible ones in order. A zone is its table of transitions over the calendar, further apart than the jumps they make. A result is a list of instants; rendering them in UTC and in the zone is left out.
- KanbanSchedules: the storage gate around a pass and the delegated promotion of an occurrence are left out; the schedule event is appended after the winning swap and is not modelled.
- ImageMessages: JSON values are abstract apart from the fields the rewrite reads; the binding scopes of the vision tools are left out.
- SkillSync.SyncedPlanIsEmpty: assumes that copied skill directories do not overlap and hold no other skill; digests are taken as collision-free, and empty directories are left out.
- SkillSync.PlanSaysWhatTheSyncDoes: assumes the same.
- SkillSync.BuildFailsExactly: which private links lead to a directory, and which copies through them fail, are parameters; what such a copy writes there is not modelled. Links that lead back into the old or the new skills directory, a SKILL.md that is itself a link, and failing reads and writes of the copies (`AtCopy` stands for any) are left out.
- SkillSync.Profile.Apply: a process killed between the two renames is not modelled; the code leaves the tree in the backup directory then. A failed config write may leave any disabled list.
- ConcurrentWork: request ids are taken as distinct; wrapping an agent twice by two coordinators is left out.
- KanbanDelegation.DeliveryOrderDoesNotMatter: assumes receipts as one service issues them: a revision names one receipt, and a revision after a terminal one is terminal.
- KanbanDelegation: SQL ordering by update time is a parameter; the remote requests between the calls are left out.
- ArchiveGraph.ValidateArchive: tar parsing and the check that the archive is a regular file are left out; component names are either one of the reserved marker names, the parent reference or any other text; a hard link that precedes its target is accepted by the code and placed by the model.
- ContextCodec.SignatureBindsEverything: assumes a digest without collisions under one key.
- ContextCodec: JSON and UTF-8 are left out; text is a character sequence, and the digest is a parameter.
- Blends: reasoning levels of a selected model, the obvious-tier word rules and blend editing are left out.
- MemoryReclaim: the receipt file is replaced atomically; sampling and device checks are parameters.
- ProviderModels: model names, owners, context lengths and the metadata forms of reasoning levels come in as each row's own levels.
- Not modelled: tool callbacks (`conversation_tools.py`), gateway framing (`runtime_gateway.py`), the environment file (`prepare-container.py`), the tool-name codec and the step input of `conversation_runner.py`.
