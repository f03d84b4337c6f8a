# Verified models of six components

This Dafny project models the parts of the repository that are hardest to get right, and proves what
they promise. `dafny verify dfyconfig.toml` checks all of it.

| files | models |
|---|---|
| `NeutralWorkspace.dfy` | the guard and marker protocol of the neutral workspace adapter |
| `InstallationStorage.dfy`, `InstallationClient.dfy` | the idempotent template installation client |
| `ConnectionFlow.dfy` | the workspace connection flow of the desktop client |
| `ProcessSupervisor.dfy` | the process supervisor program |
| `DependencyGraph.dfy`, `AppPlatform.dfy`, `AppPlatformValidation.dfy` | validation and ordering of application platform definitions |
| `MigrationTime.dfy`, `StableSort.dfy`, `SchemaMigrations.dfy` | the schema migration loader |
| `AssistantList.dfy`, `ConversationList.dfy` | the grouped lists of the desktop client |
| `TransformPackages.dfy` | the worklist over installed packages |
| `Basics.dfy` | optional values, lists without duplicates, sizes of sets |

## Shape of the models

The four protocols are given twice. A step machine on values has one event for every point at which
other code can run: a file step, an answer, a timer, a fork, a crash. The theorems about runs are about
all its event sequences. A class beside it has the source's variables and methods, and each method is
proved to leave exactly the state the step functions say.

- In `NeutralWorkspace` a class method is a call run alone; `RunsAsIfAlone` and `ReturnsAsIfAlone`
  say when a call under interleaving does the same. Exclusive creation is two steps, open and write,
  so a crash can leave a torn file.
- In `InstallationClient` and `ConnectionFlow` the code between two awaits is one step, as it is in
  the language; a class method is one such step.
- In `ProcessSupervisor` the kernel can fork, end and reparent processes between any two system calls;
  a class method is one part of the loop body without the kernel in between.

The remaining components are sequential: their methods are proved against functions and predicates
that do not follow the loops, and the lemmas are about those.

## What is assumed

- Workspace: calls of one operation do not overlap. `OverlapBreaksSingleWriter` shows that this is
  needed. Any call may vanish between two file steps.
- Installation: one live client for each storage key; a page restores before it does anything else;
  keys are fresh; the server keeps one operation for each key and answers a create with it. Nothing is
  assumed of starts: `OneOperationEachStart`, `DisplayAgreesWithStorage` and `IntentsSurviveExactly` are
  about every run. Only `NoDuplicateInstallation` adds a guard, on starts that are stored: storage holds
  no intent then, and the new intent can be read back. A start made while uncertain is within it when
  storage holds none.
- Connection: the host never issues an attempt id twice.
- Supervisor: a process number is not reused while the process is unreaped, and `PR_SET_CHILD_SUBREAPER`
  behaves as documented by Linux.
- Validation: keys have the form the schema demands, so they hold no colon.
- Sorting by `localeCompare` is sorting by a rank of strings, which is a parameter.

## What was found

- A crash between open and write in `create` is never repaired: a torn guard blocks every operation,
  a torn marker keeps the guard (`TornGuardHappens`, `TornGuardIsForever`, `TornMarkerIsForever`);
  `RecoveryExact` and `RecoversAmongOthers` give the exact condition for recovery.
- `start` does not look at `uncertain`. After a read of storage that fails, a start drops an
  unacknowledged intent (`StartLosesIntentExactly`, `UncertainStartDuplicates`). The comment in the
  first line of the client promises otherwise.
- An intent whose model type is not `llm`, or that lacks a model name, is written but not read back, so
  a reload drops it (`ReadSavedInvertsPersist`, `UnreadableIntentDuplicates`).
- `finish` takes a rejection with a falsy reason for success (`ConnectedMeansConfirmedExactly`,
  `FalsyReasonConnects`).
- The sort of migrations reads the last 13 characters of a name. Outside 13-digit times that is not the
  time: files dated from the end of 1966 to 9 September 2001 have no key, and then the comparison need
  not even be consistent (`SortKeyIs`, `KeysDisagreeOutsideRange`, `UnkeyedComparisonIsCircular`).
  Exactly the dates in the range are sorted rightly beside all others in it (`DatesAgreeExactly`). The
  dependency check does not rely on the sort: `AcceptedRunsInOrder` is about any array that passes it.
- A sidebar section listed twice shows its assistants twice (`RowsAreConservedExactly`), and one with
  the id `pinned` or the empty id can take chats meant for the built-in group (`ReservedIdTakesChats`);
  `ChatIsInPlaceExactly` says when.

## Model

| member | source | states |
|---|---|---|
| NeutralWorkspace.SingleWriter | tools/testing/project-pipeline-neutral/workspace.ts:122-205 | In every run of calls of different operations, cut by crashes at any file step, a pending operation is the one the guard names; so at most one is pending. |
| NeutralWorkspace.NextKeepsInv | tools/testing/project-pipeline-neutral/workspace.ts:122-205 | One file step, start or crash of any call keeps the invariant: consistent files, what each live call relies on, and true receipts. |
| NeutralWorkspace.ActKeepsOthers | tools/testing/project-pipeline-neutral/workspace.ts:199-205 | A step of one operation never takes away what a call of another relies on; in particular the guard read before an unlink is still there at the unlink. |
| NeutralWorkspace.EndedIsPermanent | tools/testing/project-pipeline-neutral/workspace.ts:153-198 | Once succeeded or cancelled, an operation stays so in every continuation, and every later receipt of it from any entry point agrees. |
| NeutralWorkspace.RecoveryExact | tools/testing/project-pipeline-neutral/workspace.ts:122-205 | From a disk whose guard names X, each call run alone: execute and then cancel of X free the guard if and only if X's marker file is not torn; neither fails then, and the receipt is the outcome already recorded, if any. |
| NeutralWorkspace.RecoversAmongOthers | tools/testing/project-pipeline-neutral/workspace.ts:122-205 | The same in one run, with steps and crashes of other operations between all of X's: replayed execute and later cancel leave a guard that does not name X if and only if the marker was not torn, with the receipts of the calls run alone, except that cancel of an already ended X may meet a guard another operation is just creating. |
| NeutralWorkspace.EveryCallReturns | tools/testing/project-pipeline-neutral/workspace.ts:122-205 | Whoever holds the guard, a call returns a receipt within eight own steps under any interleaving. |
| NeutralWorkspace.InspectAlone | tools/testing/project-pipeline-neutral/workspace.ts:153-167 | One inspect of an ended operation frees a guard that names it and reports the recorded outcome. |
| NeutralWorkspace.ExecuteAlone | tools/testing/project-pipeline-neutral/workspace.ts:122-152 | Replaying execute does not collide with the operation's own guard or marker. |
| NeutralWorkspace.RunsAsIfAlone | tools/testing/project-pipeline-neutral/workspace.ts:122-205 | A call whose operation holds the guard is, under any interleaving, exactly where its own steps alone would have brought it; once it has returned, what it left on disk while it holds the guard stays until the operation's next call. |
| NeutralWorkspace.ReturnsAsIfAlone | tools/testing/project-pipeline-neutral/workspace.ts:122-205 | With at most eight own steps it returns the receipt it would return alone. |
| NeutralWorkspace.CancelFreesGuard | tools/testing/project-pipeline-neutral/workspace.ts:172-205 | A cancel of a pending operation returns cancelled under any interleaving, and the guard no longer names the operation afterwards. |
| NeutralWorkspace.TornGuardIsForever | tools/testing/project-pipeline-neutral/workspace.ts:62-74 | A guard torn by a crash between open and write stays torn in every continuation, and no operation becomes pending any more. |
| NeutralWorkspace.TornMarkerIsForever | tools/testing/project-pipeline-neutral/workspace.ts:62-74 | A marker torn by such a crash keeps its operation's hold on the guard in every continuation. |
| NeutralWorkspace.TornGuardHappens | tools/testing/project-pipeline-neutral/workspace.ts:62-74 | A run of two steps and a crash leaves a torn guard with no live call. |
| NeutralWorkspace.TornMarkerHappens | tools/testing/project-pipeline-neutral/workspace.ts:62-74 | A run of four steps and a crash leaves a torn marker whose operation holds the guard, with no live call. |
| NeutralWorkspace.OverlapBreaksSingleWriter | tools/testing/project-pipeline-neutral/workspace.ts:199-205 | With two overlapping calls of one operation, a schedule exists that ends with two other operations pending at once. |
| NeutralWorkspace.NeutralWorkspaceOperation.Execute | tools/testing/project-pipeline-neutral/workspace.ts:122-152 | Run without interleaving, the call as written leaves the disk and returns the receipt of the step machine run alone; a new operation on a free workspace ends pending behind its own guard, and on another's guard it is a writer collision that changes nothing. |
| NeutralWorkspace.NeutralWorkspaceOperation.Inspect | tools/testing/project-pipeline-neutral/workspace.ts:153-171 | The same for inspect; a pending operation that holds the guard ends succeeded with the guard absent if it is due, and is reported pending with the disk unchanged if not. |
| NeutralWorkspace.NeutralWorkspaceOperation.Cancel | tools/testing/project-pipeline-neutral/workspace.ts:172-174 | The same for cancel; a pending operation that holds the guard ends cancelled with the guard absent. |
| NeutralWorkspace.NeutralWorkspaceOperation.Finish | tools/testing/project-pipeline-neutral/workspace.ts:175-198 | The same for the transition to either terminal state. |
| NeutralWorkspace.NeutralWorkspaceOperation.ReleaseGuard | tools/testing/project-pipeline-neutral/workspace.ts:199-205 | The same for releasing the guard. |
| NeutralWorkspace.InspectSucceeds | tools/testing/project-pipeline-neutral/workspace.ts:153-198 | Under any interleaving an inspect that is due ends a pending operation as succeeded, returns succeeded and frees the guard; one that is not due returns still pending, and the operation stays pending behind its guard until its next call. |
| NeutralWorkspace.MarkersChangeOnlyByTheirCalls | tools/testing/project-pipeline-neutral/workspace.ts:122-198 | Over every run: a marker changes only by a step of a call of its own operation. It is made and becomes pending by an execute, goes from pending to cancelled only by a cancel, and to succeeded only by an inspect that is due. |
| NeutralWorkspace.ExecuteOutcomes | tools/testing/project-pipeline-neutral/workspace.ts:122-152 | On every disk, alone: which files change and what is returned for each state of marker and guard, a foreign guard (writer collision), torn files and foreign markers included. |
| NeutralWorkspace.InspectOutcomes | tools/testing/project-pipeline-neutral/workspace.ts:153-171 | The same table for inspect: not due, due, ended, absent and every failure. |
| NeutralWorkspace.CancelOutcomes | tools/testing/project-pipeline-neutral/workspace.ts:172-198 | The same table for cancel. |
| InstallationStorage.ReadSavedInvertsPersist | libs/template-installation/client.ts:38-91 | Every record written is read back exactly, or as nothing; it is read back exactly if and only if its model choice has both names and no model type but 'llm'. |
| InstallationStorage.AcceptedIsReadable | libs/template-installation/client.ts:38-91 | What the reader accepts is itself a readable record, and writing it again reads back the same. |
| InstallationStorage.ReadSavedIsExact | libs/template-installation/client.ts:36-91 | For every JSON value: the reader takes it for a record if and only if the value says that record, field by field, with the kinds of value each field may have. |
| InstallationStorage.ScopeIsExact | libs/template-installation/client.ts:59-59 | A data scope is accepted if and only if it is one of the two texts in any number of one-element arrays, which is what comparing the text of the value comes to. |
| InstallationStorage.IntentRoundTrip | libs/template-installation/client.ts:44-90 | For an intent: the checks pass exactly if its model choice is readable, and then decoding gives the intent back, all optional fields included. |
| InstallationClient.OneOperationEachStart | libs/template-installation/client.ts:124-197 | Over every run with lost replies, failing reads and writes, reloads and disposal in mid-request, and with starts at any time: creates with one key are one intent, a started one, and the server makes at most one operation for each accepted start. |
| InstallationClient.FirstOperationStands | libs/template-installation/client.ts:124-197 | In every continuation, every reply to a create names the operation the server first made for its key, so a create that is sent again cannot bring back another. |
| InstallationClient.RecordsAreComplete | libs/template-installation/client.ts:144-197 | Every create that enters flight is recorded as sent and every intent that goes into storage as started, so the results about what was sent and started are about all of it. |
| InstallationClient.AcknowledgedExactly | libs/template-installation/client.ts:144-161 | A key is acknowledged exactly when storage goes from its intent to the operation a reply names. |
| InstallationClient.IntentsSurviveExactly | libs/template-installation/client.ts:124-232 | After any such run every unacknowledged intent is the one in storage, so there is at most one, if and only if no start, select or new instance of the run went ahead while storage held an intent. |
| InstallationClient.StepLosesExactly | libs/template-installation/client.ts:185-232 | A step loses an unacknowledged intent exactly when it is such an overwriting call. |
| InstallationClient.NoDuplicateInstallation | libs/template-installation/client.ts:124-197 | If each start that is stored is of a readable intent and finds no intent in storage, then at every time at most one key is unacknowledged, its intent is in storage, and a live restored client is busy or uncertain while there is one. |
| InstallationClient.GuardedKeepsIntent | libs/template-installation/client.ts:199-232 | Under that guard select and new instance never overwrite an intent, because a client that does not remember the stored one is uncertain. |
| InstallationClient.CreatesAreStored | libs/template-installation/client.ts:144-197 | Of any consistent client, whatever is called: a create is sent only while storage holds exactly the intent it carries. |
| InstallationClient.NextKeepsInv | libs/template-installation/client.ts:124-237 | Every event keeps client and storage consistent and the record of what was started, sent, served and acknowledged true. |
| InstallationClient.DisplayAgreesWithStorage | libs/template-installation/client.ts:124-232 | Over every run: a displayed operation is the one in memory and in storage; a saved intent is never beside one and shows as busy or uncertain; history ids are unique; at most one timer ticks, and only for a running operation that is displayed and not being asked about. |
| InstallationClient.ReloadReplaysIntent | libs/template-installation/client.ts:162-184 | A page that reloads with a readable intent in storage sends that intent again, under the same key. |
| InstallationClient.BusyIsCleared | libs/template-installation/client.ts:144-161 | While busy the generation does not move unless the client is disposed or gone, so the reply clears busy. |
| InstallationClient.DisposedIsSilent | libs/template-installation/client.ts:144-237 | A disposed client neither writes storage nor asks the server to create, fetch or retry. |
| InstallationClient.StartLosesIntentExactly | libs/template-installation/client.ts:185-197 | A start by a client that knows storage or is uncertain loses an unacknowledged intent if and only if it is accepted while storage holds one; the client is uncertain then, which start, unlike select and newInstance, does not look at. |
| InstallationClient.ReloadKeepsIntentExactly | libs/template-installation/client.ts:38-91 | A started intent survives a reload if and only if the reader accepts its model choice. |
| InstallationClient.UncertainStartDuplicates | libs/template-installation/client.ts:171-197 | A run with one failed read in which two creates with different keys are sent and neither is acknowledged. |
| InstallationClient.UnreadableIntentDuplicates | libs/template-installation/client.ts:38-91 | A run without any failure with the same result, when the first intent names another model type. |
| InstallationClient.DistinctUnique | libs/template-installation/client.ts:217-217 | Rebuilding history from pages leaves one entry an id. |
| InstallationClient.RecallAgrees | libs/template-installation/client.ts:174-179 | Restore takes from storage exactly what is there, or nothing; what is there if it is an operation, or a readable intent of this scope. |
| InstallationClient.StepIsDisciplined | libs/template-installation/client.ts:124-237 | What every call keeps to: the client stays consistent, a new create is in storage, a disposed client is silent, and an intent in memory is replaced only by the operation that answers its create. |
| InstallationClient.Installation.Reply | libs/template-installation/client.ts:144-161 | Of a consistent client: it keeps the discipline above, and a current reply with an operation of the scope and writable storage displays, saves and stores it, and exactly one fresh timer ticks afterwards if and only if it is running; any other current reply only clears busy and says why, and a stale one changes nothing but the request list. |
| InstallationClient.Installation.RefreshSaved | libs/template-installation/client.ts:162-170 | Of a consistent client: it keeps the discipline above, and a live idle client with something saved asks for exactly that, under a new generation and with no timer; any other does nothing. |
| InstallationClient.Installation.RestoreSaved | libs/template-installation/client.ts:172-184 | Of a consistent client: it keeps the discipline above, and a failed read shows as uncertain; otherwise what storage holds is taken if it can be read back and is not an intent of another scope, and asked for. |
| InstallationClient.Installation.StartInstallation | libs/template-installation/client.ts:185-197 | Of a consistent client: it keeps the discipline above, and busy, disposed or with something saved it does nothing; a wrong scope or a failed write shows and changes nothing else; otherwise the intent is in storage and memory and its create is sent. |
| InstallationClient.Installation.SelectOperation | libs/template-installation/client.ts:199-204 | Of a consistent client: it keeps the discipline above, and busy, uncertain or disposed it does nothing; an operation that cannot be stored only stops the timer; any other is displayed, saved, stored, put first in history and fetched. |
| InstallationClient.Installation.RetryFailed | libs/template-installation/client.ts:205-208 | Of a consistent client: it keeps the discipline above, and the displayed operation is retried if and only if it is retryable and the client live and idle; otherwise nothing changes. |
| InstallationClient.Installation.StartOver | libs/template-installation/client.ts:222-232 | Of a consistent client: it keeps the discipline above, and busy, uncertain, disposed or displaying a running operation it does nothing; otherwise storage, memory and display are cleared, or all kept when storage cannot be written. |
| InstallationClient.Installation.DisposeClient | libs/template-installation/client.ts:233-236 | Of a consistent client: it keeps the discipline above, and the client is disposed, no timer ticks, and all else is as it was. |
| InstallationClient.Installation.FireTimer | libs/template-installation/client.ts:142-142 | Of a consistent client: it keeps the discipline above, and a live timer fires once and asks for the displayed operation; a cancelled one changes nothing. |
| InstallationClient.Installation.ShowHistory | libs/template-installation/client.ts:209-221 | Of a consistent client: it keeps the discipline above, and a stale or failed page changes no history; otherwise the offset moves on by the size of the page, there is more exactly if it is below the total, and history is the items of the template, after those there before if more was asked for, one entry an id. |
| InstallationClient.KeepLast | libs/template-installation/client.ts:217-217 | One entry an id, in the order in which the ids first occur, each with the value listed last. |
| InstallationClient.ReplyMeans | libs/template-installation/client.ts:124-161 | A reply to the current request of a live client that names an operation of its scope, with storage writable: it is displayed, saved, stored and put first in history, and exactly one fresh timer ticks if it is running and none otherwise. Any other current reply clears busy, says why, and is uncertain exactly if an intent is saved; a stale one changes nothing. |
| InstallationClient.TimerTicksOn | libs/template-installation/client.ts:132-170 | A poll that is set is not lost: whatever is called, the timer ticks on until the generation moves or the page reloads. |
| InstallationClient.OthersMeans | libs/template-installation/client.ts:139-139 | Putting an operation first in history keeps exactly the entries of other ids, in their order. |
| InstallationClient.OfTemplateMeans | libs/template-installation/client.ts:217-217 | A page contributes exactly its items of the template, in their order. |
| ConnectionFlow.AttemptHasOneFate | apps/desktop/src/workspace-connection-flow.ts:31-88 | In every interleaving: an attempt id was issued exactly if it is held by the active connection, cancelled or verified; it is only one of these, and cancelled at most once. |
| ConnectionFlow.FateIsFinal | apps/desktop/src/workspace-connection-flow.ts:31-115 | In every continuation a verified attempt stays verified and is never cancelled, and a cancelled one is cancelled once and never verified. |
| ConnectionFlow.SettledOnce | apps/desktop/src/workspace-connection-flow.ts:29-116 | Every promise is settled at most once and open exactly while its connection is active; progress is null exactly when nothing is active; at most one timer ticks, for the active connection, and none while its status request is awaited; no connection awaits two status requests. |
| ConnectionFlow.ConnectedMeansConfirmedExactly | apps/desktop/src/workspace-connection-flow.ts:35-42 | A promise says connected if and only if, at some event of the run while its connection was active, the host answered connected or a rejection with a falsy reason ended it. |
| ConnectionFlow.FalsyReasonConnects | apps/desktop/src/workspace-connection-flow.ts:35-42 | A run in which such a rejection cancels the attempt at the host and resolves the promise as connected. |
| ConnectionFlow.LedgersGrow | apps/desktop/src/workspace-connection-flow.ts:31-88 | A step verifies exactly the attempt whose status request it answers connected, never takes a cancellation back, and records a connection as confirmed or ended by a falsy reason exactly when such an answer ends it. |
| ConnectionFlow.WaitingIsWatched | apps/desktop/src/workspace-connection-flow.ts:43-88 | In every run: an active connection whose start has returned awaits exactly one status request, or exactly one timer ticks and it is its own; so it is asked about again until it ends. |
| ConnectionFlow.PromisesSayWhy | apps/desktop/src/workspace-connection-flow.ts:35-115 | A promise says cancelled, rejected with a reason, or connected if and only if, while its connection was active, the run has the command or the answer that means so. |
| ConnectionFlow.NextKeepsInv | apps/desktop/src/workspace-connection-flow.ts:31-116 | Every command, answer and timer keeps the invariant. |
| ConnectionFlow.WorkspaceConnectionFlow.ReleasePending | apps/desktop/src/workspace-connection-flow.ts:31-34 | The objects after it are those of the flow's step function, and of a consistent flow, in full: the timer is cleared and the held attempt is cancelled at the host. |
| ConnectionFlow.WorkspaceConnectionFlow.FinishPending | apps/desktop/src/workspace-connection-flow.ts:35-42 | The objects after it are those of the flow's step function, and of a consistent flow, in full: nothing if the connection is not active; else it is released, progress is null and the promise is settled. |
| ConnectionFlow.WorkspaceConnectionFlow.Check | apps/desktop/src/workspace-connection-flow.ts:43-49 | The objects after it are those of the flow's step function, and of a consistent flow, in full: nothing without an attempt or while checking; else the timer is cleared and a status request goes out. |
| ConnectionFlow.WorkspaceConnectionFlow.AnswerCheck | apps/desktop/src/workspace-connection-flow.ts:50-68 | The objects after it are those of the flow's step function, and of a consistent flow, in full: connected gives the attempt up before finishing, a fatal error finishes, any other answer leaves exactly one fresh timer, the connection's, and answers for an inactive connection only clear the checking flag. |
| ConnectionFlow.WorkspaceConnectionFlow.AnswerStart | apps/desktop/src/workspace-connection-flow.ts:70-81 | The objects after it are those of the flow's step function, and of a consistent flow, in full: a late pending answer cancels its attempt; otherwise the connection is finished or keeps the attempt and opens the target. |
| ConnectionFlow.WorkspaceConnectionFlow.AnswerOpen | apps/desktop/src/workspace-connection-flow.ts:81-87 | The objects after it are those of the flow's step function, and of a consistent flow, in full: still active: waiting, and a check begins; a failure finishes. |
| ConnectionFlow.WorkspaceConnectionFlow.ConnectTo | apps/desktop/src/workspace-connection-flow.ts:90-106 | The objects after it are those of the flow's step function, and of a consistent flow, in full: a foreign request or a second binding is refused, the same binding shares the promise, otherwise a connection opens. |
| ConnectionFlow.WorkspaceConnectionFlow.CancelActive | apps/desktop/src/workspace-connection-flow.ts:108-115 | The objects after it are those of the flow's step function, and of a consistent flow, in full: the active connection is released and its promise says cancelled. |
| ConnectionFlow.WorkspaceConnectionFlow.TimerFires | apps/desktop/src/workspace-connection-flow.ts:67-67 | The objects after it are those of the flow's step function, and of a consistent flow, in full: a live timer runs the check once. |
| ProcessSupervisor.ReceiptsAreTrue | packages/desktop-protocol/process-supervisor.js:7-60 | In every run of forks, exits, reaping and reparenting: an exited receipt is written only by a subreaper, only when no process of the family is left, and with the code the supervised child itself ended with; a not-started receipt means that no process was ever made; there is at most one. |
| ProcessSupervisor.ReceiptIsFinal | packages/desktop-protocol/process-supervisor.js:57-59 | After a receipt nothing happens any more. |
| ProcessSupervisor.StopsForAReason | packages/desktop-protocol/process-supervisor.js:24-37 | Over every run: the supervisor is stopping if and only if a stop signal came, its owner was found gone or a poll learned the child's code; it has a deadline if and only if a stop step came after that; and until then no kill round signals anything. |
| ProcessSupervisor.KillsPastTheDeadline | packages/desktop-protocol/process-supervisor.js:34-46 | With a deadline: a round before its end signals nothing; after it a subreaper that can list its children signals exactly those, and any other supervisor ends with its group, its children reparented and nothing else changed. |
| ProcessSupervisor.LoopGoesRound | packages/desktop-protocol/process-supervisor.js:24-60 | In every state of a run the loop takes its steps in order and skips none: it leaves only by a kill past the deadline or by the last receipt, waits on while an ended child is left, and sleeps otherwise. |
| ProcessSupervisor.ReceiptIsWrittenExactly | packages/desktop-protocol/process-supervisor.js:16-59 | A step writes a receipt exactly at a refused admission, or when a stopping subreaper waits and no process is left, and then with the code the child ended with. |
| ProcessSupervisor.LineToSupervisor | packages/desktop-protocol/process-supervisor.js:38-46 | Under a subreaper every process of the family reaches the supervisor through living parents. |
| ProcessSupervisor.KillTargetsAreStable | packages/desktop-protocol/process-supervisor.js:38-46 | Between reading the children and signalling them an identifier on the list still names the same process. |
| ProcessSupervisor.PollFindsChild | packages/desktop-protocol/process-supervisor.js:28-30 | Until its exit code is known the supervised child is there to be waited for. |
| ProcessSupervisor.NextKeepsInv | packages/desktop-protocol/process-supervisor.js:7-60 | Every step of kernel or supervisor keeps the invariant. |
| ProcessSupervisor.Supervisor.Admit | packages/desktop-protocol/process-supervisor.js:16-21 | Keeps the invariant as a step of the machine: either a not-started receipt and no process, or the child is alive and can be waited for and there is no receipt. |
| ProcessSupervisor.Supervisor.CheckOwner | packages/desktop-protocol/process-supervisor.js:27-27 | Keeps the invariant as a step of the machine: no process is touched, and afterwards it is stopping exactly if it was or the owner is gone. |
| ProcessSupervisor.Supervisor.Poll | packages/desktop-protocol/process-supervisor.js:28-30 | Keeps the invariant as a step of the machine: afterwards the code known is exactly the code the child ended with, if it has ended; learning it begins the stop and reaps the child and nothing else. |
| ProcessSupervisor.Supervisor.BeginStop | packages/desktop-protocol/process-supervisor.js:31-33 | Keeps the invariant as a step of the machine: there is a deadline afterwards exactly if there was one or the supervisor is stopping. |
| ProcessSupervisor.Supervisor.KillRound | packages/desktop-protocol/process-supervisor.js:34-46 | Keeps the invariant, as a run of the machine: past the deadline a subreaper kills exactly its waitable children, and any other supervisor dies with its group. |
| ProcessSupervisor.Supervisor.Drain | packages/desktop-protocol/process-supervisor.js:47-59 | Keeps the invariant, as a run of the machine: all ended children are reaped, and a receipt is written exactly when no child is left; then no process of the family is, and the code is the child's own. |
| ProcessSupervisor.Supervisor.Wait | packages/desktop-protocol/process-supervisor.js:51-53 | One child is reaped, and the code is kept if it is the supervised one. |
| DependencyGraph.CycleCheckIsExact | packages/contracts/src/app-platform.ts:77-90 | The depth-first search over all keys reports a cycle if and only if the dependency graph has one. |
| DependencyGraph.VisitSound | packages/contracts/src/app-platform.ts:79-89 | A report of the search below a path is a cycle of the graph. |
| DependencyGraph.VisitComplete | packages/contracts/src/app-platform.ts:79-89 | Without a report, everything a completed name needs was completed before it. |
| DependencyGraph.DependenciesFirstIsAcyclic | packages/contracts/src/app-platform.ts:77-90 | A list that names every known name after what it needs rules cycles out. |
| DependencyGraph.NeedsComeFirst | packages/contracts/src/app-platform.ts:148-163 | In such a list whatever a name needs, directly or not, is listed before it. |
| AppPlatform.OrderIsPermutation | packages/contracts/src/app-platform.ts:148-163 | The order is a permutation of the apps of a definition with distinct keys, cycles or not. |
| AppPlatform.OrderIsTopologicalExactly | packages/contracts/src/app-platform.ts:148-163 | Every app comes after what it depends on if and only if no app needs itself. |
| AppPlatform.OrderRespectsTransitiveNeeds | packages/contracts/src/app-platform.ts:148-163 | In an acyclic definition every app comes after everything it needs, directly or not, although it is marked as seen before that is emitted. |
| AppPlatform.OrderIsStable | packages/contracts/src/app-platform.ts:148-163 | A definition that lists dependencies first is returned unchanged. |
| AppPlatform.OrderIsIdempotent | packages/contracts/src/app-platform.ts:148-163 | Ordering twice is ordering once. |
| AppPlatform.FirstComeFirstServed | packages/contracts/src/app-platform.ts:148-163 | In an acyclic definition, for every r: the first r apps and all they need come before every other app. |
| AppPlatform.DependenciesByTurns | packages/contracts/src/app-platform.ts:152-160 | And for the app whose turn it is and every k: its first k dependencies and all they need come before all else but what earlier apps brought. |
| AppPlatform.AppOrdering.VisitApp | packages/contracts/src/app-platform.ts:152-160 | The recursive closure leaves seen and ordered as the placement function says. |
| AppPlatform.AppOrdering.Order | packages/contracts/src/app-platform.ts:148-163 | The result of the loop is the order the lemmas are about. |
| AppPlatformValidation.DefinitionCheck.Validate | packages/contracts/src/app-platform.ts:56-101 | The issues raised are exactly those of the definition, and there is none if and only if it satisfies every declarative rule: distinct keys and references, a required and enabled home in a duplicate-free known navigation, sound dependencies, no cycle, sound bindings and one provider for each consumer resource. |
| AppPlatformValidation.NoIssuesIsAccepted | packages/contracts/src/app-platform.ts:56-101 | The issues of a definition are none if and only if the declarative rules hold. |
| AppPlatformValidation.DependencyIssuesOf | packages/contracts/src/app-platform.ts:68-76 | An issue of dependencies is raised if and only if some app has it. |
| AppPlatformValidation.BindingIssuesOf | packages/contracts/src/app-platform.ts:91-100 | An issue of one binding is raised if and only if some binding has it. |
| AppPlatformValidation.DefinitionCheck.CheckApps | packages/contracts/src/app-platform.ts:57-61 | The issues raised grow by exactly those of duplicate keys and duplicate references; there are none exactly if both are distinct. |
| AppPlatformValidation.DefinitionCheck.CheckHome | packages/contracts/src/app-platform.ts:62-67 | They grow by exactly those of a home that is missing, not required or not enabled, a repeated or unknown navigation entry, and a home out of navigation. |
| AppPlatformValidation.DefinitionCheck.CheckDependencies | packages/contracts/src/app-platform.ts:68-76 | They grow by exactly those some app has: repeated, unknown, disabled or optional dependencies, by the state of the app. |
| AppPlatformValidation.DefinitionCheck.CheckCycles | packages/contracts/src/app-platform.ts:77-90 | They grow by the cycle issue exactly if the dependency graph has a cycle. |
| AppPlatformValidation.DefinitionCheck.VisitKey | packages/contracts/src/app-platform.ts:79-89 | The closure over the sets active and complete does what the search function does, with the path as measure. |
| AppPlatformValidation.DefinitionCheck.CheckBindings | packages/contracts/src/app-platform.ts:91-100 | They grow by exactly those of some binding, or of two bindings for one consumer resource. |
| AppPlatformValidation.ClosureFromLocalChecks | packages/contracts/src/app-platform.ts:62-90 | In an accepted definition whatever an app needs, directly or not, exists, is required if the app is and enabled if the app is; all that home needs is both. |
| AppPlatformValidation.ProvidersComeFirst | packages/contracts/src/app-platform.ts:91-163 | Each consumer resource has one binding, and the provider of a binding comes before its consumer in the order. |
| AppPlatformValidation.TargetNameIsInjective | packages/contracts/src/app-platform.ts:97-99 | With keys of the schema's form, the text built for a consumer resource tells resources apart. |
| MigrationTime.AcceptsExactlyCivil | apps/api/src/schema-migrations.ts:53-56 | A prefix passes the parse-and-write-back check if and only if it is a date and time of the calendar. |
| MigrationTime.WrittenInvertsTimeValue | apps/api/src/schema-migrations.ts:54-55 | Writing the time value of a civil date and time gives the same fields back, for every year. |
| MigrationTime.TimeValueIsMonotone | apps/api/src/schema-migrations.ts:54-76 | Time values are ordered as the fields are, and are equal only for equal fields. |
| MigrationTime.PrefixOrder | apps/api/src/schema-migrations.ts:53-54 | Prefixes compare as text exactly as their dates and times do. |
| MigrationTime.SortKeyIs | apps/api/src/schema-migrations.ts:61-76 | What the last 13 characters of a migration name make of its time value, for every time value, negative and long ones included. |
| MigrationTime.SortKeyIsTimeExactly | apps/api/src/schema-migrations.ts:61-76 | The sort key is the time value if and only if the value is from 10^12 up to below 10^13, or above -10^12 and at most -10^11. |
| MigrationTime.KeysOrderAsPrefixes | apps/api/src/schema-migrations.ts:76-76 | Within that range sorting by key is sorting by prefix text. |
| MigrationTime.NewYearIsAccepted | apps/api/src/schema-migrations.ts:53-56 | The first second of any year passes the check of prefixes. |
| MigrationTime.ShownExactly | apps/api/src/schema-migrations.ts:76-76 | A time value is one the key shows in full if and only if its key sorts it rightly beside every time value shown in full. |
| MigrationTime.DatesAgreeExactly | apps/api/src/schema-migrations.ts:53-76 | A date is in the range if and only if its key sorts it rightly beside every date in the range. |
| MigrationTime.TimeValueInvertsWritten | apps/api/src/schema-migrations.ts:54-55 | The time value of what is written for a number of whole seconds is that number again. |
| MigrationTime.TimeValueCounts | apps/api/src/schema-migrations.ts:54-55 | The time value is linear in day, hour, minute and second, at their lengths in milliseconds. |
| MigrationTime.YearLengths | apps/api/src/schema-migrations.ts:54-55 | A year has 366 days if and only if it is a leap year of the Gregorian calendar. |
| MigrationTime.MonthsBegin | apps/api/src/schema-migrations.ts:54-55 | Each month begins on its day of the calendar year. |
| MigrationTime.MonthsLast | apps/api/src/schema-migrations.ts:54-55 | A date is one of the calendar if and only if its month is and its day is within the days up to the next month. |
| MigrationTime.EpochIsZero | apps/api/src/schema-migrations.ts:54-55 | The first second of 1970 has the time value 0. |
| StableSort.StableSortIsUnique | apps/api/src/schema-migrations.ts:76-76 | For a consistent comparison a result has the same elements, in order, with ties in their order, if and only if it is this one. |
| SchemaMigrations.LoadSchemaMigrations | apps/api/src/schema-migrations.ts:27-97 | Whatever sort the language has: a bundle is returned if and only if nothing is wrong with any asset and the sorted migrations pass both checks; it is the sorted array of all migrations; an error is one of the faults there are, or names the first check that fails. Where the sort key shows every time value, sound assets give a bundle if and only if ids are distinct, the baseline is there and every dependency is there with an earlier prefix, or an equal one and an earlier id, and in no later phase. |
| SchemaMigrations.MigrationLoader.Scan | apps/api/src/schema-migrations.ts:40-73 | No fault exactly if the directory and all below it are sound; then the array and the dependency map grow by exactly the migrations found, in scan order. |
| SchemaMigrations.MigrationLoader.ScanFile | apps/api/src/schema-migrations.ts:46-67 | One file: refused with a fault it has, or its migration and dependencies are taken in. |
| SchemaMigrations.MigrationLoader.CheckIdentity | apps/api/src/schema-migrations.ts:77-79 | Fails exactly if ids repeat or a baseline id is missing. |
| SchemaMigrations.MigrationLoader.CheckDependencies | apps/api/src/schema-migrations.ts:80-91 | Passes exactly if every dependency is earlier in the array and in no later phase; otherwise the first migration with one out of place is named. |
| SchemaMigrations.CheckIsRunOrderExactly | apps/api/src/schema-migrations.ts:80-91 | The dependency check passes if and only if every dependency is in the bundle and comes first both in the array and in the run of all before-sync and then all after-sync migrations. |
| SchemaMigrations.AcceptedRunsInOrder | apps/api/src/schema-migrations.ts:76-91 | For any array of the migrations that passes the checks, however it was sorted: running it runs every migration once, after everything it needs directly or not, and nothing needs itself. |
| SchemaMigrations.AcceptedByPrefixExactly | apps/api/src/schema-migrations.ts:53-91 | For time values the sort key shows in full, and any sort the language may have, the sorted array passes if and only if ids are distinct, the baseline is there, and every dependency is there with an earlier prefix, or an equal one and an id earlier in the collation order, and in no later phase. |
| SchemaMigrations.KeyedSortIsDetermined | apps/api/src/schema-migrations.ts:76-76 | If every migration has a key the comparison is consistent and any stable sort gives this array. |
| SchemaMigrations.InsertionIsSort | apps/api/src/schema-migrations.ts:76-76 | There is a sort that keeps what the language promises: insertion behind what ties. |
| SchemaMigrations.KeyedSortIsInOrder | apps/api/src/schema-migrations.ts:76-76 | If every migration has a key, whatever sort the language has gives the same array. |
| SchemaMigrations.UnkeyedComparisonIsCircular | apps/api/src/schema-migrations.ts:76-76 | A migration without a key between two others by id makes the comparison circular. |
| SchemaMigrations.NamesByParts | apps/api/src/schema-migrations.ts:46-50 | A name is taken for a migration if and only if it is 14 digits, a hyphen, one line and .sql, and is valid if and only if what stands for the line is lower-case letters, digits and hyphens as the pattern demands. |
| SchemaMigrations.NamesHaveParts | apps/api/src/schema-migrations.ts:46-50 | Every name taken for a migration has those parts. |
| SchemaMigrations.FaultsAre | apps/api/src/schema-migrations.ts:40-67 | What may be wrong with a directory: a link, migrations without a component name, a fault of one of its files, or of a directory in it that is not one of checks. |
| SchemaMigrations.FaultlessIsSound | apps/api/src/schema-migrations.ts:40-67 | Nothing is wrong with a directory if and only if it and all below it satisfy the declarative rules for names, phases, dates and components. |
| SchemaMigrations.ItemsAreFound | apps/api/src/schema-migrations.ts:40-73 | A migration is found as often as there are files that make it, with its id, phase, baseline flag and dependencies as its file and directory give them. |
| SchemaMigrations.CheckedMeans | apps/api/src/schema-migrations.ts:77-91 | The checks over the sorted array pass if and only if no id is there twice, every baseline id is there, and every dependency is earlier in the array and not in a later phase. |
| AssistantList.AssistantGroups | apps/desktop/src/assistant-list-model.ts:33-67 | The loop and the filters give, in order, pinned, each section, the areas by name and id, and unassigned, without the empty ones, each with exactly the rows of its home in their order. |
| AssistantList.ByArea | apps/desktop/src/assistant-list-model.ts:37-46 | The areas in order of first appearance, each with all its rows, and the rows without an area. |
| AssistantList.RowsShown | apps/desktop/src/assistant-list-model.ts:33-67 | A row is shown as often as it is there, times the number of sections with its section id if it is in one and not pinned. |
| AssistantList.RowsAreConservedExactly | apps/desktop/src/assistant-list-model.ts:33-67 | The groups show every row as often as it is there if and only if no row is in a section id listed twice. |
| AssistantList.GroupsPartition | apps/desktop/src/assistant-list-model.ts:33-67 | With distinct section ids other than the built-in ones: groups ordered by kind, none empty, distinct, each the rows of its home, and one for every row. |
| AssistantList.GroupsAreByName | apps/desktop/src/assistant-list-model.ts:59-59 | Whatever the sections, the area groups shown follow each other by name, and by id where names are equal in the collation order. |
| AssistantList.GroupIsWellLabelled | apps/desktop/src/assistant-list-model.ts:33-67 | Every group shown has the kind, id and name of the pinned rows, of a section of the sidebar, of an area that is the first with its id, or of the rest. |
| AssistantList.GroupRowsAre | apps/desktop/src/assistant-list-model.ts:33-67 | A group holds each row that belongs to it by pin, section and area as often as it is there, and no other. |
| AssistantList.GroupKeepsOrder | apps/desktop/src/assistant-list-model.ts:33-67 | Its rows are in the order they are given in. |
| AssistantList.GroupsAreListed | apps/desktop/src/assistant-list-model.ts:54-66 | Pinned comes first, then sections, then areas, then the rest. |
| AssistantList.SectionsAreListed | apps/desktop/src/assistant-list-model.ts:54-66 | Groups of sections are in the order of the sidebar, whatever the ids. |
| ConversationList.ConversationGroups | apps/desktop/src/conversation-list-model.ts:18-53 | The list is the assistant groups, unless archived, with each matching chat added in turn to its group or a new one, and then sorted: in every section no row is less recent than one after it. |
| ConversationList.AddChat | apps/desktop/src/conversation-list-model.ts:43-50 | The chat becomes the last row of the first group with the id of its home, and every other row is shown as often as before. |
| ConversationList.RowsShown | apps/desktop/src/conversation-list-model.ts:25-52 | Whatever the section ids, a matching chat is shown exactly once and an assistant as often as the assistant groups show it; nothing else is shown. |
| ConversationList.EveryRowIsInItsSection | apps/desktop/src/conversation-list-model.ts:8-53 | With distinct section ids other than the built-in ones, archived or not: one group for each home that has rows, in the order of the kinds, each holding exactly the rows of its home, latest date first and equal dates in their order. A chat's date is its update, an assistant's its latest conversation or else its creation; absent and unreadable dates count as 0. |
| ConversationList.RecentFirstMeans | apps/desktop/src/conversation-list-model.ts:8-53 | Sorting keeps all rows, puts the later date first, and leaves rows of one date in their order. |
| ConversationList.SectionsHoldTheirRows | apps/desktop/src/conversation-list-model.ts:25-53 | Each section is labelled as its section, area or built-in group, and holds exactly the rows it is for: assistants by pin, section and area, chats by pin alone. |
| ConversationList.MatchesIsListed | apps/desktop/src/conversation-list-model.ts:25-31 | A chat matches if and only if it is archived as asked and the lower-cased query stands somewhere in its lower-cased title, a space and its last message. |
| ConversationList.MatchingMeans | apps/desktop/src/conversation-list-model.ts:25-31 | The matching chats are listed, each as often as it is there, and no other. |
| ConversationList.MatchingKeepsOrder | apps/desktop/src/conversation-list-model.ts:25-31 | And in the order they are given in. |
| ConversationList.RecencyIsConsistent | apps/desktop/src/conversation-list-model.ts:8-15 | The comparison by activity is consistent for any rows, absent and unreadable dates included. |
| ConversationList.ChatIsInPlaceExactly | apps/desktop/src/conversation-list-model.ts:36-51 | A matching chat is in its built-in group, and nowhere else, if and only if the list is archived, or no assistant is shown in a custom section with that group's id, or the chat and some assistant are pinned. |
| ConversationList.ChatsAreInPlaceExactly | apps/desktop/src/conversation-list-model.ts:36-51 | In active mode all matching chats are in their built-in groups if and only if no unpinned chat matches or no assistant is in a section with the empty id, and no pinned chat matches or some assistant is pinned or none is in a section with the id 'pinned'. |
| TransformPackages.CollectTransformPackages | packages/server-ai/jest.config.ts:28-53 | For every registry and seeds the loop ends, and a name is in the result if and only if a path of non-empty names leads to it from a seed; no name is there twice. It is the least set of names that has all non-empty seeds and all non-empty names an installed package in it lists as dependency, optional or peer dependency. |
| TransformPackages.TakeKeepsInv | packages/server-ai/jest.config.ts:36-50 | Taking a new name keeps what is seen and what waits closed under dependencies and within what is reached. |
| TransformPackages.ReachedIsLeast | packages/server-ai/jest.config.ts:28-53 | What paths reach is that least closed set. |

## Left out

- Workspace: path, permission and ownership checks, directory creation, hashing, size limits and JSON text; a file is absent, torn or holds a marker, and any other failure is a call that vanishes. The temporary file of the rename has no state, since its name is fresh.
- InstallationStorage.ReadSavedInvertsPersist: is about parsed values, not JSON text; fields the reader does not know are dropped by the typed record, and a data scope read from within one-element arrays is kept as its text rather than as the array.
- InstallationClient: error texts are a small enumeration, the interval of the poll is a firing event, the page request of the history is any reply at any time, and the list request that a disposed client can still send is not counted as a request. The offset under overlapping page requests follows the code; only unique ids are proved of history.
- ConnectionFlow: the target that is opened and the error values beyond whether they are truthy and fatal. Attempt ids are always truthy here; the source tests them for truth, so an empty id would be neither checked nor cancelled.
- ProcessSupervisor: signal delivery, time beyond the two-second deadline having passed or not, `CLONE_PARENT`, and liveness, since descendants may keep forking.
- ProcessSupervisor.ReceiptsAreTrue: says nothing about a supervisor that is itself killed, which writes no receipt.
- AppPlatformValidation.DefinitionCheck.Validate: states which issues there are, not how often or in what order they are listed; the base schema (lengths, limits, key form) is not modelled, and two application references are equal exactly if their texts are.
- SchemaMigrations.LoadSchemaMigrations: SQL and its validation, the configuration files, path checks and the assets checked after the dependency check are one yes or no for each file or not modelled; of several faults in the assets it states that one of them is reported, not which. The sort is a parameter that keeps what the language promises; where the comparison is not consistent that is only that no migration is lost.
- MigrationTime.AcceptsExactlyCivil: compares the fields of the date, each of fixed width, rather than the text written.
- SchemaMigrations: the code that runs a bundle is not part of this model; the two-phase run is the one the phase field describes.
- ConversationList: texts are compared after a given lower-casing function; row objects are values, so updating a row array in place is replacing it.
- AssistantList: rendering, the search filter and the ordering by creation before grouping; the comment there that activity must not move entries is about that ordering, while the conversation list does sort by activity.
- TransformPackages: the regular expressions built from the names, and the order of the names.
- React and Angular components, configuration readers, seeds, command line tools and one-branch validators would only add easy members.
