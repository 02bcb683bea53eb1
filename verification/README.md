# A Dafny model of programmatic tool calling

Python code written by a language model runs in its own process and calls the host's tools over a
line protocol. The host answers, collects what was printed and returned, and keeps it within a
character budget. Around this sit the tool registry, hot-reloaded tool files, automatic routing and
one-shot recovery. The project models these parts and proves what they promise.

`dafny verify dfyconfig.toml` checks everything.

## What is modelled

| module | part of the system |
|---|---|
| `RpcClient`, `RpcProtocol` | the two ends of the bridge: numbered calls, parked futures, handlers, counters, the completion latch with its deferred rejections |
| `Bridge`, `Batch`, `Progress` | both ends joined by two wires, with timers, a failing reader and the semaphore; what `batch_tool` returns for every schedule, and that it can always finish |
| `Truncation` | `truncateOutput` and its search for a notice that agrees with itself |
| `Json`, `JsonReader`, `Compaction`, `FitBudget`, `Surrogates`, `Delivery` | `ptc.fit_output`: the printer that measures, with a reader that takes its text back, the compaction, the shrink loop, and the way of the result to the user |
| `Stdout`, `Grep` | the stdout line frames; reading grep output back |
| `ToolRegistry`, `Routing`, `Recovery`, `HotReload`, `LostAgreement` | the registry with its filter and explanation, active-tool routing, recovery, tool files |
| `Wrappers`, `Decimal`, `JsText` | options and results, decimal numerals, JavaScript's view of text |

Objects whose methods change fields are classes; each method is proved to take the state to the
value that a step function gives, and the properties over whole runs are lemmas about those
functions. A Python string is a sequence of code points and a JavaScript string a sequence of UTF-16
units.

## Main results

- The batch: `Batch.BatchIsSequentialMap`, `Batch.EntriesAreTheirOwn`, `Batch.RaiseModeIsOwn` and
  `Batch.CollectModeIsOwn` for every schedule, `Batch.EveryScheduleHasAnswers` for their reach, `Batch.IssuedExactlyOnce`,
  `Batch.AtMostLimitOutstanding`, and `Progress.QuietScheduleCompletes` for completion.
- Calls: `RpcClient.SettledOnlyByItsOwn`, `RpcClient.SettledForGood`, `RpcProtocol.AnsweredExactlyOnce`,
  `RpcProtocol.CountersAreTheEvents`.
- One outcome: `RpcProtocol.FirstAttemptIsReported`, `RpcProtocol.TerminalFrameBeatsClose`.
- Truncation: `Truncation.TruncateOutput`, `Truncation.HonestNumberIff`.
- Budgets: `FitBudget.OneShrinkSuffices`, `FitBudget.FitValueSize`, `Compaction.FlagIsExactIff`,
  `Compaction.OmittedPlusKept`, `Compaction.IdempotentIff`, `Delivery.HeadroomIsEnough`.
- Text: `JsonReader.PrintReadsBack`, `Stdout.FramesAreTheText`, `Grep.RoundTripIff`, `Grep.MixedOutputIff`.
- Registry and session: `ToolRegistry.CallableMeans`, `ToolRegistry.ExplanationIsTrue`, `ToolRegistry.RemovedDoesNotComeBack`,
  `Routing.RoutingIsUndone`, `Recovery.OneRecoveryIff`, `Recovery.EndedRequestIsQuietIff`,
  `HotReload.HotReloadIsFreshLoad`.

Methods: each method of the classes states the object's whole new state, as a rule as the value that the
matching step function gives. The table names those with loops or branches worth reading; the one-line
handlers (abort, timers, notes of an attempt or of its end, removal of a single entry) are specified in
the same way. Lemmas that only serve a proof are not listed.

Smaller facts beside them, by module: `Batch.NormalizeResults`; `Bridge.ExecKeepsInv`;
`Progress.NothingIsSentWithoutStdin`; `RpcClient.StrayRepliesAreIgnored`; `RpcProtocol.ReplyIdsAreDistinct`,
`RpcProtocol.MicrotasksRunOnce`; `Truncation.OscillationMeansNoNumber`, `Truncation.TruncationIsUnique`;
`Json.FramingMeans`; `JsonReader.KeyLessMeans`; `JsText.TrimDropsSpace`; `Compaction.CutTextShape`;
`FitBudget.KeptIfItFits`, `FitBudget.BareObjectsComeLast`, `FitBudget.BareObjectsTell`,
`FitBudget.KindsAreDistinct`; `Stdout.FramesAreLinesOrTails`; `Grep.LinesAreIndependent`;
`ToolRegistry.NormalizeMeans`, `ToolRegistry.CallersMean`, `ToolRegistry.BaseEntry`,
`ToolRegistry.OwnedForGood`; `Routing.RoutedListContents`, `Routing.WithoutConcat`; `Recovery.LastWord`;
`HotReload.RunKeepsInv`, `HotReload.ActivateMeans`, `HotReload.DropConcat` and
`HotReload.CustomToolManager.StartFrom`.

## Where the code does less than one would expect

- The number in a truncation notice is one too large exactly when the limit less 52 and the digits of
  the total is 10^d + d for some d >= 1 (`Truncation.HonestNumberIff`, `Truncation.DishonestExample`).
- `fit_output` meets its budget exactly from 47 characters on (`FitBudget.BudgetIsMetIff`).
- Its `truncated` flag is exact only from 4 characters a string on: below, `x...` is cut to itself
  (`Compaction.FlagIsExactIff`).
- A fitted value can still be cut by `truncateOutput` when it holds characters above the BMP, which
  Python counts once and JavaScript twice (`Delivery.EmojiAreCut`); `Delivery.HeadroomIsEnough` says
  which calls are safe.
- Grep output does not always read back: `Grep.RoundTripIff` says when it does, and
  `Grep.HeaderInPathIsMisread` what comes back otherwise (`Grep.MisreadExample`).
- Results plus errors exceed the calls by the results that fail to serialize
  (`RpcProtocol.CountersAddUpIff`, `RpcProtocol.CountersDisagreeExample`).
- Hot reload loses agreement with a fresh start in three ways. A file that takes another file's tool
  name costs that file its tool once it is gone again (`LostAgreement.LoadingIsUndoneIff`,
  `LostAgreement.SharedNameLosesTool`); a tool with the empty name is never dropped
  (`LostAgreement.EmptyNamedToolStays`); and when the callback throws, a start keeps the tool and a
  reconcile removes it (`LostAgreement.RejectedToolDiffers`).
- An execution that outlives its request can cause a second recovery message, or one for a mutation
  prompt. `Recovery.OneRecoveryIff` and `Recovery.MutationIsNeverRecoveredIff` say exactly when;
  `Recovery.TwoMessagesFromIdle` and `Recovery.OutlivingMutationIsRecovered` are runs.
- Routing takes a Pi tool off the active list because Python can call it, but the tool's own executor
  is reachable only while it is active (`Routing.RoutedToolRunsIff`, `Routing.RoutedToolCannotRun`).

## Model

| member | source | states |
|---|---|---|
| `Batch.BatchIsSequentialMap` | src/python-runtime/runtime.py:1058-1108 | for every schedule of call starts, Node completions and deliveries without timers and reader failure, a finished batch holds in input order exactly what running the calls one after the other gives; each entry has an answer of its own, so equal requests may end differently, and calls outside the batch end in any way |
| `Batch.EntriesAreTheirOwn` | src/python-runtime/runtime.py:1067-1092 | in every reachable state of any schedule, also with timers and a failing reader, entry i is the outcome of call i alone, or that call's own timeout, or the reader's failure |
| `Batch.EveryScheduleHasAnswers` | src/python-runtime/runtime.py:1058-1108 | every schedule has such per-entry answers, so the two results above cover every run |
| `Batch.RaiseModeIsOwn` | src/python-runtime/runtime.py:1058-1066 | raise mode after any schedule, with timers and a failing reader: it is decided exactly when a task has failed or all have finished; the result is the normalized values of the calls alone in input order, or the first failure, which is that entry's own outcome, or, when no call failed, the error of the first value that does not normalize |
| `Batch.RaiseModeIsSequential` | src/python-runtime/runtime.py:1058-1066 | without timers and reader failure, the same in terms of the sequential map |
| `Batch.CollectModeIsOwn` | src/python-runtime/runtime.py:1067-1096 | collect mode after any finished schedule, with timers and a failing reader: entry i tells, field by field, of call i alone, or of its own timeout or of the reader |
| `Batch.CollectModeIsSequential` | src/python-runtime/runtime.py:1067-1096 | without those, entry i tells of outcome i of the sequential map, and is ok exactly if that is a success |
| `Progress.QuietScheduleCompletes` | src/python-runtime/runtime.py:1058-1108 | after any schedule without timers and reader failure that leaves both wires open, some such continuation finishes the batch through the replies to its calls, with the outcomes of the sequential map |
| `Progress.EveryBatchCompletes` | src/python-runtime/runtime.py:1058-1108 | from the start every batch can run to its end through replies, with the outcomes of the sequential map |
| `Progress.EveryScheduleCanFinish` | src/python-runtime/runtime.py:911-918 | after any schedule whatever, timers alone can finish the batch: no permit is ever lost |
| `Batch.IssuedExactlyOnce` | src/python-runtime/runtime.py:911-918 | a queued entry has no request on the wire, any other exactly one, carrying its own tool and parameters |
| `Batch.AtMostLimitOutstanding` | src/python-runtime/runtime.py:911-918 | in every reachable state at most `limit` ids of the batch wait in `pending_calls`, even after timeouts and reader failures |
| `Batch.CollectEntry` | src/python-runtime/runtime.py:1067-1092 | an entry is ok if and only if the call returned a value that normalizes and holds no tool-level error; it carries the normalized value if there is one, and otherwise or besides the failure's summary, the text normalization threw, or the tool-level error |
| `Batch.CollectResults` | src/python-runtime/runtime.py:1093-1108 | collect mode: one entry per call, in input order, telling of its own call; succeeded is the number of calls that succeed, and succeeded + failed = total |
| `Batch.FirstFailureIsFinal` | src/python-runtime/runtime.py:1059-1062 | raise mode: which task's exception is raised is fixed by the first task to fail and no later step changes it |
| `RpcClient.RunKeepsInv` | src/python-runtime/rpc.py:30-98 | in every run each key of `pending_calls` is `call_k` with 1 <= k <= `call_id`, request k on the wire carries id `call_k`, and every pending future has its entry |
| `RpcClient.IdsAreNeverReused` | src/python-runtime/rpc.py:76-88 | no id is ever written to the wire twice |
| `RpcClient.SettledOnlyByItsOwn` | src/python-runtime/rpc.py:61-98 | a step changes a future only if it is pending, and only by its own id's reply (with that reply's contents), its own timer, or the reader's failure |
| `RpcClient.SettledForGood` | src/python-runtime/rpc.py:61-98 | a settled future keeps its outcome for the rest of every run |
| `RpcClient.PendingIsSettled` | src/python-runtime/rpc.py:61-98 | each of the three ways out does settle a pending future and drops its entry |
| `RpcClient.RepliesAreIndependent` | src/python-runtime/rpc.py:61-73 | a reply leaves every other future and every other pending entry alone |
| `RpcClient.RpcClient.Call` | src/python-runtime/rpc.py:75-91 | `call` up to its first await is one step: numbering, writing and parking the future together |
| `RpcClient.RpcClient.HandleResponse` | src/python-runtime/rpc.py:61-73 | the method refines the reply step and keeps the invariant |
| `RpcClient.RpcClient.FailPendingCalls` | src/python-runtime/rpc.py:30-34 | the loop fails exactly the pending futures of parked calls and clears the map |
| `RpcProtocol.ToolsRunKeepsInv` | src/rpc-protocol.ts:455-491 | over every interleaving of overlapping calls: counters, names, handlers and replies stay consistent |
| `RpcProtocol.AnsweredExactlyOnce` | src/rpc-protocol.ts:466-491 | while stdin is open a finished call has exactly one `tool_result`, with its own id, and a call in flight has none |
| `RpcProtocol.CountersAreTheEvents` | src/rpc-protocol.ts:455-485 | over every run: results counted are the tool runs that returned, errors those that threw and those whose value did not serialize, result sizes the sum of the sizes returned, all counted over the events alone |
| `RpcProtocol.AnsweredWithItsOwn` | src/rpc-protocol.ts:466-485 | whatever happens before and after, a tool run that ends while stdin is open is answered with its value, or with an error holding what it threw or why it did not serialize |
| `RpcProtocol.FirstAttemptIsReported` | src/rpc-protocol.ts:345-359 | the latch reports exactly the first attempt of a reference run without any latch, and nothing before one is made |
| `RpcProtocol.ReportedOnce` | src/rpc-protocol.ts:345-359 | what `waitForCompletion` reports is fixed by the first settling step of any run and never changes |
| `RpcProtocol.TerminalFrameBeatsClose` | src/rpc-protocol.ts:225-242 | a `complete` or `error` frame read before stdout closes always beats the unexpected-close error, whatever happened before and after |
| `RpcProtocol.RpcProtocol.HandleLine` | src/rpc-protocol.ts:388-453 | a frame changes exactly its part of the state: a call is counted and started, text is appended, a terminal frame settles the latch, a bad line queues a rejection |
| `RpcProtocol.RpcProtocol.ToolSettled` | src/rpc-protocol.ts:466-485 | the end of a tool run is counted and answered as specified, including the second answer path when serializing throws |
| `RpcProtocol.RpcProtocol.RunMicrotask` | src/rpc-protocol.ts:226-241 | a queued rejection or close check runs one microtask later, against the latch as it is then |
| `RpcProtocol.CountersAddUpIff` | src/rpc-protocol.ts:455-485 | calls = names = received; results + errors + in flight exceed the calls by the results of the run that failed to serialize while stdin was open, so the counters add up if and only if the run has none |
| `Truncation.TruncateOutput` | src/utils.ts:123-154 | a text within the limit is unchanged; an over-long one is exactly max(1, limit) characters; with room for a notice it is a prefix and a notice that reads back as a shown number and the full length; the shown number is the prefix length, or that plus one and a power of ten with no self-consistent number existing; the cut inside the search is unreachable |
| `Truncation.NoticeReadsBack` | src/utils.ts:129-130 | reading a notice gives the shown number first and the total second |
| `Truncation.HonestNumberIff` | src/utils.ts:129-150 | a number that agrees with its own notice exists exactly when the limit does not leave 10^d + d characters, d >= 1, for payload and printed number |
| `Json.DictUpdateLength` | src/python-runtime/runtime.py:686-687 | replacing one value of an object changes the printed size by exactly the change of that value |
| `JsonReader.PrintReadsBack` | src/python-runtime/runtime.py:686-687 | the printed text of any value reads back as that value with sorted keys, in both styles, at any level, whatever follows |
| `JsonReader.PrintIsFaithful` | src/python-runtime/runtime.py:686-687 | values that differ otherwise than in the order of keys are printed differently |
| `Json.SortedByKey` | src/python-runtime/runtime.py:686-687 | `sort_keys` prints each field once, in key order |
| `Compaction.CompactPreview` | src/python-runtime/runtime.py:717-786 | the recursive method with its loops computes the specified preview and statistics |
| `Compaction.UntruncatedIsIdentity` | src/python-runtime/runtime.py:717-786 | `truncated` false: the preview is the value itself and all counts are zero |
| `Compaction.TruncatedDiffers` | src/python-runtime/runtime.py:717-786 | `truncated` true with max_chars >= 4: the preview differs from the value |
| `Compaction.FlagIsExactIff` | src/python-runtime/runtime.py:733-738 | the flag tells for every value whether the preview differs if and only if max_chars >= 4 |
| `Compaction.TruncatedIffOverLimits` | src/python-runtime/runtime.py:717-786 | something is cut exactly when the value exceeds a limit somewhere |
| `Compaction.FirstMembersAreKept` | src/python-runtime/runtime.py:747-782 | a container entered keeps its first members, as many as allowed, each compacted on its own one level down, keys unchanged |
| `Compaction.MarkersTellTheSize` | src/python-runtime/runtime.py:741-767 | a depth marker tells the kind of the container it replaces, and the number in it reads back as the size |
| `Compaction.DepthLimitedIff` | src/python-runtime/runtime.py:741-767 | `depthLimited` is set exactly when some container was replaced by a marker |
| `Compaction.OmittedPlusKept` | src/python-runtime/runtime.py:740-782 | omitted plus kept equals the size of all containers entered or replaced by a marker, for list elements and for dict keys |
| `Compaction.PreviewIsBounded` | src/python-runtime/runtime.py:733-782 | at most max_items members per container, at most max_depth levels, strings of at most max(max_chars, 4) characters, markers only at the depth limit |
| `Compaction.IdempotentIff` | src/python-runtime/runtime.py:733-782 | with max_chars >= 4 a second pass changes and reports nothing if and only if every depth marker is within max_chars |
| `FitBudget.NormalizeLimits` | src/python-runtime/runtime.py:690-704 | limits are accepted exactly when every argument is None or a positive integer; the character limit is the caller's, capped by the session's, the others the caller's or 10 and 3; an error names the first argument that is not acceptable |
| `FitBudget.FitResultToCharBudget` | src/python-runtime/runtime.py:807-835 | the shrink loop terminates with the preview length as measure and its result is that of at most one pass |
| `FitBudget.OneShrinkSuffices` | src/python-runtime/runtime.py:817-822 | one pass strictly shortens the text, and afterwards the result fits or four characters are left, whatever the escaping and the digits of `previewChars` |
| `FitBudget.ShrinkLosesLittle` | src/python-runtime/runtime.py:818-821 | a shrink keeps a prefix and loses in all no more than the overflow, or five characters |
| `FitBudget.FitValueSize` | src/python-runtime/runtime.py:1214-1257 | the printed result is between 47 and max(max_chars, 47) characters, for every value and all limits |
| `FitBudget.BudgetIsMetIff` | src/python-runtime/runtime.py:807-835 | the budget is met, for any value, if and only if it is at least 47 |
| `FitBudget.FitOutput` | src/python-runtime/runtime.py:1214-1257 | `fit_output` as a method: errors in argument order, otherwise the fitted value, of at most max(47, the caller's max_chars capped by the session) characters |
| `FitBudget.UntruncatedIsLossless` | src/python-runtime/runtime.py:1214-1257 | the returned flag is false exactly when the value is within all limits and its envelope fits; the returned preview is then the caller's value |
| `FitBudget.ResultTellsTheTruth` | src/python-runtime/runtime.py:1234-1257 | every result with statistics gives the value's own kind, size and omission counts, the limits used, and the size of the preview it holds |
| `FitBudget.GivesUpOnlyWhenItMust` | src/python-runtime/runtime.py:817-835 | the bare objects appear only if not even one character and dots fits |
| `Delivery.HeadroomIsEnough` | src/code-executor.ts:82-84 | a condition on the call: a fitted value returned without printing arrives unchanged if its strings, keys and number texts are BMP, or if the session limit leaves room beyond max(max_chars, 47) for its characters above the BMP |
| `Delivery.DeliveredUnchangedIff` | src/code-executor.ts:82-84 | on the printed text: it arrives unchanged exactly when its code points, those above the BMP counted twice, are within the session limit |
| `Delivery.FittingValueArrivesIff` | src/code-executor.ts:82-84 | where the envelope fits max_chars: it arrives unchanged if and only if the envelope's size plus the characters above the BMP in its preview, which is the value itself if within the limits, is within the session limit |
| `Delivery.EmojiAreCut` | src/utils.ts:123-127 | ten thousand emoji under a limit of 17000 are returned as complete, with the whole text as preview, and then cut |
| `Delivery.ReturnedTextArrives` | src/python-runtime/runtime.py:1565-1572 | a returned string arrives as it is, None as nothing, anything else as printed, after whatever was printed |
| `Surrogates.PrintAstral` | src/python-runtime/runtime.py:686-687 | the printed text holds exactly the value's own characters above the BMP |
| `Surrogates.FitValueAstral` | src/python-runtime/runtime.py:1214-1257 | `fit_output` never adds such characters |
| `JsText.Utf16ReadsBack` | src/utils.ts:125 | a text's UTF-16 units decode to the text |
| `Stdout.FramesAreTheText` | src/python-runtime/runtime.py:28-45 | for every sequence of writes and flushes the emitted frames followed by the buffer are everything written |
| `Stdout.WriteEmitsLines` | src/python-runtime/runtime.py:32-40 | a write only adds frames, each with exactly one newline, at its end |
| `Stdout.OutputIsPrintedThenReturned` | src/rpc-protocol.ts:414-426 | after the final flush Node holds the exact printed text, and the output is trim(printed + returned), or the untouched return if nothing was printed |
| `Stdout.StdoutProxy.Write` | src/python-runtime/runtime.py:32-40 | the split loop emits the complete lines of buffer and text and keeps the remainder |
| `Grep.RoundTripIff` | src/tool-adapters.ts:56-80 | printing any list of printable records and parsing the output gives back exactly those records if and only if no separator-digits-separator starts inside a path and the outer trim takes nothing |
| `Grep.MixedOutputIff` | src/tool-adapters.ts:56-80 | records printed among any lines without a header, with either kind of line end, come back, exactly they and in order, if and only if every path is clear, as long as the outer trim takes nothing |
| `Grep.OuterSpaceIsIgnored` | src/tool-adapters.ts:57 | white space around the output makes no difference |
| `Grep.MatchTellsOfLine` | src/tool-adapters.ts:64-76 | whatever is read, the line is its path, a separator, its number, a separator and its text after at most one space; a dash on either side makes it context |
| `Grep.ParseGrepMatches` | src/tool-adapters.ts:56-80 | the parsing loop computes the specified records |
| `Grep.HeaderInPathIsMisread` | src/tool-adapters.ts:64 | a path that holds a header is read up to that header, and the rest of the path goes into the text |
| `ToolRegistry.ExplanationIsTrue` | src/tool-registry.ts:192-237 | for an allowlisted name that is not callable the reason is a condition under which the filter rejects; the catch-all is reached exactly for a `code_execution` that nothing else keeps out |
| `ToolRegistry.BuiltMapIsExplained` | src/tool-registry.ts:316-435 | the same for every map the registry builds after any operations, with nothing assumed but that builtins are stored under their names |
| `ToolRegistry.RejectionIsReal` | src/tool-registry.ts:398-430 | each condition a reason names alone keeps the name from being callable |
| `ToolRegistry.CallableIff` | src/tool-registry.ts:398-430 | the filter, as the absence of every such condition plus three membership tests |
| `ToolRegistry.CallableMeans` | src/tool-registry.ts:398-430 | the filter in terms of settings and metadata: without permission to change things Python gets read-only builtins, and of the others those that declare themselves callable and read-only and are trusted by name |
| `ToolRegistry.AutoRoutableMeans` | src/tool-registry.ts:437-444 | routable are exactly the callable tools that allow direct calls |
| `ToolRegistry.ClassifyMeans` | src/tool-registry.ts:27-52 | what counts as read-only once stored, and what storing keeps and fills in |
| `ToolRegistry.OneReasonEach` | src/tool-registry.ts:192-237 | each allowlisted name that is not callable gets exactly one reason, any other name none |
| `ToolRegistry.NormalizeStoredIsStable` | src/tool-registry.ts:27-52 | storing metadata twice is storing it once, and the filter reads the same off the stored form |
| `ToolRegistry.RemovedDoesNotComeBack` | src/tool-registry.ts:345-348 | after a removal, through any registry operations but an upsert of the name and whatever Pi lists or activates, only a builtin or a hashline executor of that name remains |
| `ToolRegistry.OwnActivityOnly` | src/tool-registry.ts:345-384 | a tool's entry depends on the active list only through its own name |
| `ToolRegistry.ListedToolRuns` | src/tool-registry.ts:345-384 | an active listed tool runs Pi's executor under Pi's description; an inactive one keeps the registry's executor or has none |
| `ToolRegistry.ListedToolMetadata` | src/tool-registry.ts:354-383 | a listed tool has Pi's metadata, or else the registry's, and the registry's source |
| `ToolRegistry.RegisteredToolRuns` | src/tool-registry.ts:247-261 | a registered tool that Pi does not list runs its own code under its own description and metadata |
| `ToolRegistry.ToolRegistry.BuildToolMap` | src/tool-registry.ts:316-387 | the overlay loops compute the specified map |
| `ToolRegistry.ToolRegistry.ReportAllowlistGaps` | src/tool-registry.ts:176-245 | the loop computes the specified gap list |
| `Routing.RoutingIsUndone` | src/index.ts:285-337 | after any starts and ends, an agent end leaves the original active list, element for element |
| `Routing.RoutingIsIdempotent` | src/index.ts:305-316 | a routed list has nothing left to route, although the routable set is computed afresh from the shorter list |
| `Routing.RoutesIff` | src/index.ts:294-316 | routing happens if and only if it is switched on, asked for and possible, and then saves the original list |
| `Routing.RoutedToolRunsIff` | src/tool-registry.ts:345-384 | a routed tool that is not a builtin is still offered to Python, but can run exactly when the registry itself holds an executor for it |
| `Routing.RoutedToolCannotRun` | src/tool-registry.ts:345-384 | a host where a routed tool is offered to Python with nothing to run |
| `Routing.Session.ApplyAutoRouting` | src/index.ts:285-325 | the handler changes both lists as specified |
| `Recovery.OneRecoveryPerRequest` | src/index.ts:174-222 | in every run of a request with any overlapping executions: at most one recovery message, none for a mutation prompt, attempt flag if and only if failure class, attempt count = executions started |
| `Recovery.OneRecoveryIff` | src/index.ts:387-413 | at most one message in every run of a request if and only if it is a mutation request or no leftover execution can still arm a recovery |
| `Recovery.TwoMessagesFromIdle` | src/index.ts:387-413 | a run from the idle session in which one request gets two messages |
| `Recovery.EndedRequestIsQuietIff` | src/index.ts:408-413 | once a request has ended, what is still under way delivers no message in any run if and only if none of the executions under way can still arm a recovery |
| `Recovery.MutationIsNeverRecoveredIff` | src/index.ts:387-413 | a mutation request gets no message before its end, and none after it in any run if and only if none of the executions under way at its end can still arm a recovery |
| `Recovery.OutlivingMutationIsRecovered` | src/index.ts:408-413 | a run from the idle session in which an ended mutation request gets a message |
| `Recovery.RunsAreWellFormed` | src/index.ts:174-222 | every reachable session satisfies what the results above assume |
| `Recovery.NoRecoveryIff` | src/recovery-state.ts:55-60 | no run ever delivers a message if and only if recovery is switched off or allows no attempt |
| `Recovery.RunsKeepRecords` | src/recovery-state.ts:47-82 | in every run every record says consistently whether code execution was used, tried, recovered and how it ended |
| `Recovery.AttemptNeverResets` | src/recovery-state.ts:62-74 | within a request the attempt flag and its class never change once set |
| `Recovery.FirstFailureIsDelivered` | src/index.ts:197-202 | the first recognized failure is delivered at the next context event when recovery may be attempted |
| `Recovery.PtcSession.ExecutionEnded` | src/index.ts:188-220 | the end of an execution changes its own record and the pending message as the session model says, even if the request has changed meanwhile |
| `HotReload.HotReloadIsFreshLoad` | src/custom-tool-manager.ts:179-270 | after any run of writes, deletes and safe reconciles with every changed file reconciled: each tool name belongs to one file, and files and custom tools equal those of a fresh start on the final directory |
| `HotReload.ReconcileAgreesIff` | src/custom-tool-manager.ts:218-270 | a reconcile keeps manager and files in agreement, names distinct, if and only if it loads no name another file owns, drops no empty-named tool, and the callback accepts the new set |
| `LostAgreement.LoadingIsUndoneIff` | src/custom-tool-manager.ts:218-270 | loading a file and reconciling its deletion brings back agreement with the other files if and only if none of them owns its name |
| `LostAgreement.SharedNameLosesTool` | src/custom-tool-manager.ts:218-270 | a run: a second file with the same tool name comes and goes; a fresh start on the file that is left has the tool, the running manager does not |
| `HotReload.ActiveFromStart` | src/custom-tool-manager.ts:104-117 | over every run from a start, with no proviso: each registered tool that allows direct calls is active and no removed one is |
| `HotReload.PythonOnlyStaysInactive` | src/custom-tool-manager.ts:207-216 | a tool that only Python may call is never put on the active list, over every run |
| `HotReload.ScanCatchesUp` | src/custom-tool-manager.ts:179-197 | a polling scan, which removes vanished files before loads end, leaves the manager as a fresh start would, if signatures tell changes apart and its reconciles are safe |
| `HotReload.RenamedFileKeepsTool` | src/custom-tool-manager.ts:179-197 | so a tool file renamed between two scans keeps its tool; the other order would remove it |
| `HotReload.CustomToolManager.ReconcileFile` | src/custom-tool-manager.ts:251-270 | the method refines the reconcile step |
| `HotReload.CustomToolManager.ScanForMissedChanges` | src/custom-tool-manager.ts:179-197 | the scan loops refine the polling step: vanished names first, then the directory's files |

## Left out

- Processes, Docker, file watching, timers, debouncing, stream buffering: their events are steps that
  may come at any time.
- Frames are already decoded, and JSON values already cloned (src/python-runtime/runtime.py:707-714);
  `Value.Check`, `os.path`, the regular expressions that classify prompts and tracebacks, Python helper
  name validation and error texts are parameters.
- Progress and update frames, `onUpdate` and anything it may throw, process exit descriptions, the
  wording and class of the unexpected-close error beyond the stderr it carries.
- Rendering, wrapper text generation, `run_tests`, the benchmark runner, eval-case validation, token
  estimates, the telemetry snapshots and the `autoRouted` mark: formatting, foreign calls or field copies.
- Futures are numbered by their call instead of being heap objects.
- Requests carry a tool and its parameters; the model of `gather_limit` covers coroutines that make one
  call each, with the limit already normalized.
- Progress.QuietScheduleCompletes: states that a finishing continuation exists, not that it comes soon.
- Progress.EveryScheduleCanFinish: after the end of stdin only the 300-second timers release pending
  calls, so its continuation lets timers fire.
- HotReload.ReconcileAgreesIff: agreement includes that the loaded names are distinct, so two files with
  one name never agree; what then becomes of their tools is the subject of `LostAgreement`.
- Grep.RoundTripIff: line numbers up to 2^53 - 1, because `parseInt` rounds beyond, and records without
  line terminators, which one line of grep output cannot hold.
- Grep.HeaderInPathIsMisread: the same bound for the number that is read.
- Grep.ParseGrepMatches: reads digits exactly, also beyond 2^53 - 1.
- Truncation.TruncateOutput: texts up to 2^53 - 1 units, the longest a JavaScript number counts.
- Lone surrogates in Python strings, and the spelling of floats, which the printer takes as given text.
- JsonReader.PrintReadsBack: floats spelled as JSON numbers with a fraction or an exponent; Python's NaN and
  Infinity are not JSON.
- HotReload.HotReloadIsFreshLoad: a reconcile is one step; a file that changes while it is being loaded,
  or reconciles that overlap, are not covered, since the signature is refreshed after the load
  (src/custom-tool-manager.ts:267-269).
- HotReload.CustomToolManager.ScanForMissedChanges: the order in which the loads of changed files end is
  a parameter; each takes effect as one step.
- A callback that throws again while a file's tool is removed: it throws after the state has changed and
  is not caught, so the state is the same.
- Routing.RoutingIsUndone: nothing but the handlers writes the active list, and Pi stores the list it is
  given.
- Routing.RoutedToolRunsIff: builtins that Pi overrides are excluded; they fall back to the builtin's own
  entry, as `ToolRegistry.InactiveBuiltinStays` says.
- Tool parameters, labels, `sourceInfo`, the order of tool lists and warn-once bookkeeping.
