# Kunkka core, modelled and proved in Dafny

Kunkka-core is a local broker: it starts worker processes, routes frontend requests to them, and gates
what they may do with the shell and the file system. This project models its state machines, its shell
parser, its framing and its accounting, and proves what they keep.

`dafny verify dfyconfig.toml` checks the whole project.

## What is here

| files | subject |
|---|---|
| `ShellSyntax`, `ShellParser`, `ShellTheorems`, `ShellPrinter`, `ShellSpelling` | The restricted shell syntax: one quote/escape automaton as reference, the two scanners as loops proved against it, the decomposition at live bars, acceptance, stability of stages, a printer inverse to the parser, every way to write a word, and each text that is refused. |
| `ShellPolicy`, `Approval`, `ShellCapability` | Allow/ask/deny, the clocked approval store, a shell request from decoding to effect, and every run of requests, decisions and clock advances. |
| `WorkerRegistry`, `WorkerManager`, `WorkerClient` | The two registry indexes, the active workers and the processes they own, cold start, dispatch, reaping, drop; the SDK's side of a dispatch and both sides joined. |
| `Ipc`, `NativeSession`, `FrontendProtocol`, `FrontendDispatch`, `CoreService` | Frames and connections, the native host's cached connection joined with the core's frontend loop, audit rows before worker contact, the core serving each frame, and what a native command comes to. |
| `NativeMessaging`, `NativeHost` | The length-prefixed framing under short, interrupted and failing reads and writes, and the host loop. |
| `LlmStream` | The frames the core sends for a provider's chunks and the client that collects them. |
| `Paths`, `Usage` | Path normalisation and the allow-list check against component lists; usage totals and groups. |
| `Basics`, `Text` | Option, Result, the capability error; white space, trimming, joining, decimal numbers. |

Conventions. Classes carry the fields the program updates in place; each mutating method states its new
state as a function of the old one, and the promises are lemmas about those functions or the class's
`Valid()`, which every method keeps. Instants are arguments, so a run decides them. What the operating
system, a provider, a socket or a database does is an argument too (`shell`, `startup`, `connect`,
`writable`, a connection's inbox). Payloads are the messages they decode to, with one value for bytes that
decode to nothing.

## Where the program and its documents differ

- The design of the shell approvals has every approval of a timed-out record fail
  (docs/superpowers/specs/2026-06-17-shell-capability-approval-design.md:214). `approve` overwrites the
  state in the call that expires it. For every run without an approval of it, a pending record can still be
  approved, at any instant, exactly when no call rejected it and none at or after its limit swept the store or
  tried to use it: `Approval.ApprovalWorksUntilCleared`, with the instance in `Approval.LateApprovalSucceeds`.
- A usage figure in a chunk without choices never reaches the client (`LlmStream.ChoicelessChunkIsLost`). The
  figure that arrives is that of the last chunk with both a figure and a choice; the last chunk with a figure is
  that one exactly when it has a choice: `LlmStream.UsageArrives`, with the instance in
  `LlmStream.UsageOnlyChunkIsLost`.
- A connection that closes early is taken for the end of the answer. Cut after any number of frames, collecting
  succeeds exactly when something arrived and the error frame did not, with the fold of what arrived
  (`LlmStream.EarlyCloseGoesUnnoticed`); its text falls short exactly when a lost event has text
  (`LlmStream.CutLosesTheRest`, with the instance in `LlmStream.CutAnswerIsAccepted`).
- Trimming a stage can cut an escaped space at its end. The words then differ from those of the untrimmed text,
  and in no other case (`ShellPrinter.TrimKeepsWords`); the command the policy looks at differs exactly when
  the piece also holds one word only (`ShellPrinter.TrimKeepsCommand`). An accepted line that does so is in
  `ShellPrinter.CutEscapeOnAcceptedLine`.
- The tokens of the groups add up to the overall tokens exactly when no record's 32-bit sum wrapped
  (`Usage.SummaryConserves`, with the instance in `Usage.OverflowDisagrees`).

## Model

| member | source | states |
|---|---|---|
| `ShellParser.SplitTopLevelPipelines` | crates/kunkka-core/src/capability/shell.rs:120-181 | the scan returns the trimmed pieces between live bars, or the error of the first fault in reading order |
| `ShellParser.SplitStageWords` | crates/kunkka-core/src/capability/shell.rs:183-223 | the words are the non-empty runs of literal characters between live white space; an open quote is the only error |
| `ShellParser.ParsePipeline` | crates/kunkka-core/src/capability/shell.rs:41-63 | one command name per stage, or the error of the first stage that has none |
| `ShellTheorems.DecompositionIsPieces` | crates/kunkka-core/src/capability/shell.rs:127-155 | the cut is the one and only way to write the line as bar-joined pieces without a live bar, each but the last closed |
| `ShellTheorems.CutsAreLiveBars` | crates/kunkka-core/src/capability/shell.rs:145-155 | a position is a cut if and only if it holds a bar the automaton finds unquoted and unescaped |
| `ShellTheorems.SplitAccepts` | crates/kunkka-core/src/capability/shell.rs:120-181 | accepted if and only if no rejected operator is live, quotes are closed and no piece is blank; the stages are the trimmed pieces |
| `ShellTheorems.SplitOfJoin` | crates/kunkka-core/src/capability/shell.rs:120-181 | any list of trimmed, clean, closed stages is what splitting their listing gives |
| `ShellTheorems.SplitIsStable` | crates/kunkka-core/src/capability/shell.rs:149-180 | listing the stages of any accepted line and splitting again gives the same stages, lone trailing backslashes included |
| `ShellTheorems.StagesHaveWords` | crates/kunkka-core/src/capability/shell.rs:171-216 | the second pass never reports an open quote on a stage of the first |
| `ShellTheorems.ParseSucceeds` | crates/kunkka-core/src/capability/shell.rs:41-63 | the parser succeeds if and only if the split does and every stage has a first word without an equals sign; those words are its result |
| `ShellPrinter.PrintThenWords` | crates/kunkka-core/src/capability/shell.rs:183-223 | single-quoting any words and splitting the stage gives back every non-empty one |
| `ShellPrinter.PrintThenSplit` | crates/kunkka-core/src/capability/shell.rs:120-181 | a printed pipeline is cut back into its printed stages, whatever characters its words hold |
| `ShellPrinter.PrintThenParse` | crates/kunkka-core/src/capability/shell.rs:41-63 | printer and parser undo each other: all words come back, the commands are the first words, refused if and only if one holds an equals sign |
| `ShellPrinter.TrimKeepsWords` | crates/kunkka-core/src/capability/shell.rs:149-153 | trimming a piece keeps its words if and only if it does not cut an escaped white space |
| `ShellPrinter.TrimKeepsCommand` | crates/kunkka-core/src/capability/shell.rs:149-153 | trimming changes the first word, the one the policy decides on, if and only if it cuts an escaped white space of a piece of one word |
| `ShellPrinter.CutEscapeOnAcceptedLine` | crates/kunkka-core/src/capability/shell.rs:149-153 | the instance: an accepted line whose piece ends in an escaped space, and the two different words |
| `ShellSpelling.SpelledWords` | crates/kunkka-core/src/capability/shell.rs:183-223 | however its words are written (plain, in single or double quotes, with backslashes, mixed) and whatever white space separates them, a stage reads as those words |
| `ShellSpelling.SpelledSplit` | crates/kunkka-core/src/capability/shell.rs:120-181 | a pipeline so written is cut into its stages, provided none starts or ends in white space |
| `ShellSpelling.DoubleQuotedRoundTrip` | crates/kunkka-core/src/capability/shell.rs:141-145 | any words, each in double quotes with a backslash before quotes and backslashes, come back word for word and stage for stage |
| `ShellSpelling.OperatorIsRefused` | crates/kunkka-core/src/capability/shell.rs:156-161 | each of the nine operators, standing outside every word, is refused with its message, whatever comes before and after |
| `ShellSpelling.BarsAreRefused` | crates/kunkka-core/src/capability/shell.rs:146-180 | a doubled bar, a stage without a word and a line that ends in a bar are refused, each with its message |
| `ShellSpelling.SubstitutionIsRefused` | crates/kunkka-core/src/capability/shell.rs:162-166 | a dollar sign and parenthesis outside every word are refused as a command substitution |
| `ShellSpelling.OpenQuoteIsRefused` | crates/kunkka-core/src/capability/shell.rs:171-180 | a quote of either kind left open is refused as such |
| `ShellSpelling.FirstBadStage` | crates/kunkka-core/src/capability/shell.rs:47-62 | the first stage without a command decides the error: no word, or a first word with an equals sign |
| `ShellPolicy.DecideShellPolicy` | crates/kunkka-core/src/capability/permissions.rs:58-83 | one unlisted command denies, else one command to ask for asks, else allowed; no shell section denies |
| `ShellPolicy.PolicyOfOne` | crates/kunkka-core/src/capability/permissions.rs:65-76 | a single command is allowed if on the allow list, asked for if only on the ask list, else denied |
| `ShellPolicy.PolicyOfConcat` | crates/kunkka-core/src/capability/permissions.rs:58-83 | a pipeline is decided part by part, the stricter decision counts; no shell section denies everything |
| `Approval.IdOfInjective` | crates/kunkka-core/src/approval.rs:54-55 | two counter values never print to the same approval id |
| `Approval.CreatedIsShown` | crates/kunkka-core/src/approval.rs:47-86 | a new record is stored and listed with its own app, capability and command, for sixty seconds and no longer; the others are untouched |
| `Approval.BeforeMeans` | crates/kunkka-core/src/approval.rs:71-86 | the listing's order is the usual one: by the first differing character, a prefix first |
| `Approval.ApprovalStore.ExpirePendingEntries` | crates/kunkka-core/src/approval.rs:143-151 | exactly the pending records at or over the time limit become Expired |
| `Approval.ApprovalStore.ListPending` | crates/kunkka-core/src/approval.rs:71-86 | shows the records still pending after expiry, each once and in key order, then sweeps the store |
| `Approval.ApprovalStore.Approve` | crates/kunkka-core/src/approval.rs:88-94 | the named record, if stored, becomes Approved whatever it was; terminal ones go |
| `Approval.ApprovalStore.Reject` | crates/kunkka-core/src/approval.rs:96-102 | the named record goes, and so do expired ones |
| `Approval.ApprovalStore.ConsumeApproved` | crates/kunkka-core/src/approval.rs:110-141 | checks presence, then app, capability and command, then state; takes a matching terminal or approved record away |
| `Approval.ApprovalStore.ReapExpired` | crates/kunkka-core/src/approval.rs:162-174 | expires and sweeps |
| `Approval.PerformKeepsInv` | crates/kunkka-core/src/approval.rs:47-174 | every call keeps: records under their own issued id, none Rejected; the counter never falls |
| `Approval.RunsKeepInv` | crates/kunkka-core/src/approval.rs:47-174 | that holds in every reachable store |
| `Approval.CreateIsFresh` | crates/kunkka-core/src/approval.rs:54-55 | a new id is neither stored nor ever issued before |
| `Approval.RemovedStaysRemoved` | crates/kunkka-core/src/approval.rs:47-174 | an issued id that is not stored never comes back, over any further calls |
| `Approval.ConsumeOutcomes` | crates/kunkka-core/src/approval.rs:110-141 | in every reachable store consuming never reports a rejection, succeeds if and only if the record is approved and matches, and removes it |
| `Approval.ConsumeFailures` | crates/kunkka-core/src/approval.rs:110-141 | why a consume fails, told by the record: none, another's, still waiting, or out of time, in this order |
| `Approval.ConsumeLeaves` | crates/kunkka-core/src/approval.rs:110-151 | the record goes unless it is another's or still waiting; the others stay, overdue ones marked expired |
| `Approval.ListingIsYoungPending` | crates/kunkka-core/src/approval.rs:71-86 | in every reachable store the listing is exactly the pending records younger than the limit; only those and approved ones stay |
| `Approval.LateApprovalSucceeds` | crates/kunkka-core/src/approval.rs:88-94 | the instance: a minute after creation an approval still leads to a successful consume, unless a sweep came first |
| `Approval.UndecidedFate` | crates/kunkka-core/src/approval.rs:71-174 | over any calls in time order, none an approval of it, a pending record stays stored if and only if none rejects it and none at or after its limit sweeps the store or tries to use it |
| `Approval.ApprovalWorksUntilCleared` | crates/kunkka-core/src/approval.rs:88-94 | after such calls an approval at any instant takes effect if and only if none of them took the record away |
| `Approval.ApprovedNeverAges` | crates/kunkka-core/src/approval.rs:143-160 | over any calls at any instants an approved record stays stored, unchanged, if and only if none rejects it or consumes it by its own app and command |
| `ShellCapability.HandleShellRequest` | crates/kunkka-core/src/capability/shell.rs:65-118 | the effect (refused, asked, run), the new store and the reply, through method, decoding, parse, approval or policy; a run is answered with what the shell reported, an ask with the id just stored as pending |
| `ShellCapability.RequestIsDecided` | crates/kunkka-core/src/capability/shell.rs:97-117 | a request without approval id, told by the app's lists: it runs at once if and only if all names are allowed, is stored as pending and asked for if and only if all are listed but not all allowed, and changes nothing if and only if one is unlisted |
| `ShellCapability.OtherRequestsDoNothing` | crates/kunkka-core/src/capability/mod.rs:38-112 | a request for an unknown app, another capability or method, or a command that does not parse leaves no trace |
| `ShellCapability.ApprovalIdCodes` | crates/kunkka-core/src/capability/shell.rs:85-95 | a request under an approval id runs or is refused, and with which error, by what is stored under that id |
| `ShellCapability.RefusalCodes` | crates/kunkka-core/src/capability/shell.rs:71-83 | the errors for an unknown method, undecodable parameters, a parse error and a denied command |
| `ShellCapability.NextKeepsInv` | crates/kunkka-core/src/capability/shell.rs:82-117 | every step of a run keeps each stored record open and each log entry justified by what came before |
| `ShellCapability.NothingRunsUnapproved` | crates/kunkka-core/src/capability/shell.rs:82-117 | in every run an executed command parses and is not denied; it runs without approval if and only if allowed, else by an id asked for by that app for that command, approved since, not rejected since, used once |
| `ShellCapability.ExecutionsAreListed` | crates/kunkka-core/src/capability/shell.rs:97-117 | in every run, told by the lists: what runs unasked has every name on the allow list; what runs with an approval has every name listed and one not on the allow list |
| `ShellCapability.RejectionIsFinal` | crates/kunkka-core/src/approval.rs:96-102 | once asked for and rejected, an id executes nothing in the rest of the run |
| `ShellCapability.AskIdsStayDistinct` | crates/kunkka-core/src/capability/shell.rs:99-108 | no run asks twice under one id |
| `ShellCapability.ApprovedRequestRuns` | crates/kunkka-core/src/capability/shell.rs:85-95 | the converse: after a stored record of any run is approved and whatever else happens then, its command runs on request if and only if the log since shows neither its rejection nor its use |
| `ShellCapability.ApprovalStands` | crates/kunkka-core/src/approval.rs:88-141 | over any further events an approved record is stored unchanged as long as the log neither rejects nor uses it, and gone for good afterwards |
| `WorkerRegistry.Registry.Register` | crates/kunkka-core/src/worker_registry.rs:27-58 | takes the app from its old worker and the worker from its old app, pairs the two, keeps the indexes mutually inverse |
| `WorkerRegistry.RegisteredAfter` | crates/kunkka-core/src/worker_registry.rs:27-58 | the new worker is registered with all it named, for its app; exactly the pairs that share neither app nor worker id stay |
| `WorkerRegistry.Registry.Remove` | crates/kunkka-core/src/worker_registry.rs:60-66 | removes exactly the pair of that worker id from both indexes and returns its record |
| `WorkerRegistry.Registry.RemoveByAppId` | crates/kunkka-core/src/worker_registry.rs:68-71 | removes exactly the pair of that app from both indexes and returns its record |
| `WorkerRegistry.Registry.LookupsAgree` | crates/kunkka-core/src/worker_registry.rs:73-84 | lookup by app and by worker describe the same pairs; the indexes have the same size |
| `WorkerManager.Manager.constructor` | crates/kunkka-core/src/worker_dispatch.rs:52-60 | a new manager is valid and empty, and its first request id is 1 |
| `WorkerManager.Manager.MapsAgree` | crates/kunkka-core/src/worker_dispatch.rs:70-76 | in every reachable state the three maps have the same apps, worker ids and size |
| `WorkerManager.Manager.Terminate` | crates/kunkka-core/src/worker_dispatch.rs:435-448 | kills and waits for the child the worker still owns and takes it from the worker |
| `WorkerManager.Manager.InsertActiveWorker` | crates/kunkka-core/src/worker_dispatch.rs:192-234 | the new worker replaces any worker active for its app or under its id; all maps agree and every child is accounted for |
| `WorkerManager.Manager.ReapIdleWorkers` | crates/kunkka-core/src/worker_dispatch.rs:78-99 | exactly the workers idle for their timeout go, with registration and child |
| `WorkerManager.Manager.HandleRegistration` | crates/kunkka-core/src/worker_dispatch.rs:253-330 | accepts exactly a decodable (and expected) registration whose acceptance can be sent, else reaps the child and changes nothing |
| `WorkerManager.RegistrationOutcome` | crates/kunkka-core/src/worker_dispatch.rs:253-330 | when a registration is accepted, the acceptance sent, what is then active for the app and who is replaced; the error otherwise |
| `WorkerManager.Manager.AwaitRegistration` | crates/kunkka-core/src/worker_dispatch.rs:143-160 | stops at the first matching candidate, the first accept error, or the timeout |
| `WorkerManager.WaitEnds` | crates/kunkka-core/src/worker_dispatch.rs:143-190 | the wait ends with the first arrival that registers as the app, or an accept error before it, else times out: silent connections and other registrations do not fail it |
| `WorkerManager.Manager.StartAndWaitForRegistration` | crates/kunkka-core/src/worker_dispatch.rs:127-190 | one process is started at most; it ends up owned by the app's worker, or reaped |
| `WorkerManager.StartOutcome` | crates/kunkka-core/src/worker_dispatch.rs:127-190 | a failed start leaves all workers as they were; a successful one makes the app active under its own id with the new child; the mismatch error cannot occur |
| `WorkerManager.StartErrors` | crates/kunkka-core/src/worker_dispatch.rs:127-190 | unknown app, failed spawn, timeout and failed accept are each reported as such |
| `WorkerManager.Manager.Dispatch` | crates/kunkka-core/src/worker_dispatch.rs:332-384 | uses a fresh, larger id; keeps the worker on a result, forgets it in all maps and reaps its child on a failed exchange |
| `WorkerManager.DispatchTrustsOwnResponse` | crates/kunkka-core/src/worker_dispatch.rs:332-504 | against any worker: a result is accepted if and only if it comes in a response with this dispatch's own id; it leaves the worker active even as an application error, any other exchange does not; other apps are untouched |
| `WorkerManager.DispatchErrors` | crates/kunkka-core/src/worker_dispatch.rs:332-504 | how a dispatch fails: no method, no worker, a broken connection, or anything but the answer; which of these uses up an id |
| `WorkerManager.DispatchIsUse` | crates/kunkka-core/src/worker_dispatch.rs:366-369 | a successful dispatch counts as use: the worker then outlives exactly the ticks before its timeout, counted from that dispatch; other apps' lives are unchanged |
| `WorkerManager.RegistrationIsUse` | crates/kunkka-core/src/worker_dispatch.rs:223-233 | so does a registration, with the timeout it came with |
| `WorkerManager.SelfRegisteredLives` | crates/kunkka-core/src/runtime.rs:178-185 | a worker that registers by itself lives for five minutes |
| `WorkerManager.DispatchWithStartIsUse` | crates/kunkka-core/src/worker_dispatch.rs:110-190 | after a dispatch that may start the worker it lives on by its own timeout, or the manifest's if just started |
| `WorkerManager.Manager.DispatchWithStart` | crates/kunkka-core/src/worker_dispatch.rs:110-125 | starts a worker first if none is active, stops at a failed start |
| `WorkerManager.WithStartSends` | crates/kunkka-core/src/worker_dispatch.rs:110-125 | what is accepted answers this very call: the last frame sent to the app's own worker, with its payload |
| `WorkerManager.StartedIsAvailable` | crates/kunkka-core/src/worker_dispatch.rs:110-125 | such a dispatch never fails for want of an active worker |
| `WorkerManager.Manager.Drop` | crates/kunkka-core/src/worker_dispatch.rs:444-448 | dropping the manager leaves no child alive and none reaped twice |
| `WorkerManager.RunToEnd` | crates/kunkka-core/src/runtime.rs:139-160 | over every run of registrations, dispatches and ticks followed by drop, each process started was killed and waited for exactly once |
| `WorkerClient.Client.Register` | crates/kunkka-worker-sdk/src/client.rs:46-96 | one exchange under a fresh id, accepted only as a response to it carrying an acceptance |
| `WorkerClient.Client.RecvDispatch` | crates/kunkka-worker-sdk/src/client.rs:98-133 | the next frame's ids, ends and request, or the error of the first check that fails |
| `WorkerClient.DispatchReachesWorker` | crates/kunkka-worker-sdk/src/client.rs:98-153 | a worker is given its own request under the core's ids, and its reply goes back under them with the ends swapped |
| `WorkerClient.ReceiveErrors` | crates/kunkka-worker-sdk/src/client.rs:98-133 | exactly a request to dispatch is taken for one; closed, broken, undecodable and other frames are each an error of their kind |
| `WorkerClient.NextKeepsInv` | crates/kunkka-worker-sdk/src/client.rs:98-153 | every step of core or worker keeps: at most one of request, context and reply is under way |
| `WorkerClient.RepliesMatchRequests` | crates/kunkka-core/src/worker_dispatch.rs:450-504 | with an SDK worker, in every interleaving, with either end failing anywhere and workers dropped and replaced between dispatches, a dispatch ends in the worker's reply to the request it received as sent, or in a broken connection, never in an id mismatch; ids are unique |
| `WorkerClient.RegistrationCompletes` | crates/kunkka-core/src/worker_dispatch.rs:296-310 | the core reads the registration the worker sent, and the worker takes the acceptance, addressed to it, for its answer |
| `WorkerClient.DispatchCompletes` | crates/kunkka-worker-sdk/src/client.rs:98-153 | from any idle state with both ends there, a dispatch sent, received, answered and accepted ends idle with that very result |
| `NativeMessaging.LittleEndianInverse` | crates/kunkka-native-host/src/native_messaging.rs:26-55 | the length survives its four bytes for every 32-bit value |
| `NativeMessaging.LeastByteFirst` | crates/kunkka-native-host/src/native_messaging.rs:26-55 | the length goes over the wire least byte first: each byte weighs 256 times the one before |
| `NativeMessaging.FramingErrors` | crates/kunkka-native-host/src/native_messaging.rs:13-42 | what a stream starts with: a message, or which framing error; the limit is one mebibyte |
| `NativeMessaging.Reader.ReadExact` | crates/kunkka-native-host/src/native_messaging.rs:33-42 | fills the buffer with the next bytes through short and interrupted reads, or reports the early end |
| `NativeMessaging.ReadPrefix` | crates/kunkka-native-host/src/native_messaging.rs:8-24 | four length bytes read in any pieces, a clean end before the first, an error inside; an interrupted read is an error here |
| `NativeMessaging.ReadNativeMessage` | crates/kunkka-native-host/src/native_messaging.rs:7-44 | whatever the read sizes, the outcome is what the stream starts with, and exactly the frame is consumed; an error needs a failing read |
| `NativeMessaging.WriteNativeMessage` | crates/kunkka-native-host/src/native_messaging.rs:46-59 | writes the frame, or nothing when the body is over the limit; a failing sink is left with a part of the frame, and only a failing sink |
| `NativeMessaging.Writer.WriteAll` | crates/kunkka-native-host/src/native_messaging.rs:55-56 | all bytes are written through partial and interrupted writes; a failure leaves a part of them |
| `NativeMessaging.WrittenIsReadBack` | crates/kunkka-native-host/src/native_messaging.rs:7-59 | any bodies within the limit are read back as written, then a clean end |
| `NativeMessaging.ReadIsWritten` | crates/kunkka-native-host/src/native_messaging.rs:7-44 | for any stream the messages read encode to a prefix of it; the end is clean if and only if that is all of it |
| `NativeMessaging.CutStream` | crates/kunkka-native-host/src/native_messaging.rs:13-42 | a written stream cut anywhere yields the complete messages, never a partial one, and a clean end if and only if cut between messages |
| `NativeMessaging.InterruptedOutput` | crates/kunkka-native-host/src/native_messaging.rs:46-59 | a stream whose last frame a failing sink cut short reads as the frames before it, plus the last if and only if all of it got through |
| `NativeHost.ServeOne` | crates/kunkka-native-host/src/host.rs:12-37 | one turn of the loop against what is owed before and after it: a reply written whole, a clean or framing end, a reply over the limit, a failing read, or a failing write with a part of the reply written |
| `NativeHost.RunNativeHost` | crates/kunkka-native-host/src/host.rs:7-38 | under any chopping of the bytes on either side, writes exactly the replies owed to the input, up to the first over the limit; a failing sink stops it after some of them with at most a part of the next, and only a failing sink |
| `NativeHost.RepliesInOrder` | crates/kunkka-native-host/src/host.rs:12-37 | the k-th reply answers the k-th message in the state its predecessors left; one more reply, the framing error's, if and only if the stream ends in one |
| `NativeHost.OutputDecodes` | crates/kunkka-native-host/src/host.rs:36 | the output decodes back to exactly those replies and a clean end |
| `NativeHost.StoppedOutputDecodes` | crates/kunkka-native-host/src/host.rs:36 | what a host stopped by its sink has written decodes to the replies sent, or to those and the whole next one |
| `NativeSession.Session.NextRequestId` | crates/kunkka-native-host/src/bridge.rs:363-367 | ids strictly increase over the life of the session |
| `NativeSession.Session.SendCoreControl` | crates/kunkka-native-host/src/bridge.rs:212-287 | accepts only a decodable response to its own id; the connection is kept if and only if the call succeeds, with as many replies accepted as requests sent |
| `NativeSession.Session.SendFrontendDispatch` | crates/kunkka-native-host/src/bridge.rs:289-361 | the same for dispatches, whose reply must be a dispatch result |
| `NativeSession.Session.HandleRequest` | crates/kunkka-native-host/src/bridge.rs:168-210 | one exchange per command on the connection kept or newly made: its request is sent, and the reply is what the answer maps to; the connection is kept if and only if the call succeeds |
| `NativeSession.NextKeepsInv` | crates/kunkka-core/src/runtime.rs:245-284 | every step of session and core keeps: one request or one answer under way, all else events |
| `NativeSession.RepliesAreOwn` | crates/kunkka-native-host/src/bridge.rs:212-367 | in every run, across reconnects and events, a reply taken is the core's one answer to that very request and is taken once; request ids strictly increase |
| `NativeSession.IdleCarriesNoReply` | crates/kunkka-native-host/src/bridge.rs:212-224 | between calls a kept connection carries no reply that a later request could take |
| `NativeSession.ReceiveSucceedsIff` | crates/kunkka-native-host/src/bridge.rs:262-286 | in every run, a call with something to receive (or a core that is gone) succeeds if and only if the first frame there is a response of the kind asked for |
| `NativeSession.EventsFollowSetTheme` | crates/kunkka-core/src/runtime.rs:188-275 | in every run an event on a connection is a theme change that a request on that same connection asked for and the core answered |
| `NativeSession.NoThemeNoEvents` | crates/kunkka-core/src/runtime.rs:707-716 | in every run whose requests set no theme no connection ever carries an event |
| `NativeSession.CallFailsOnlyWithConnection` | crates/kunkka-native-host/src/bridge.rs:212-361 | in every such run a call succeeds if and only if a frame is there to receive, takes the core's one answer of the kind asked for, and leaves the connection empty |
| `NativeSession.NativeCommandsAreServed` | crates/kunkka-native-host/src/bridge.rs:21-83 | in every run of native commands the one under way gets its own kind of result, or for a dispatch the platform's error, if and only if the core answered; never an unexpected response |
| `NativeSession.UnusableAnswers` | crates/kunkka-native-host/src/bridge.rs:248-361 | how a command fails on a closed or broken connection, a foreign frame, undecodable bytes or a message of the wrong kind |
| `CoreService.Core.ServeControl` | crates/kunkka-core/src/runtime.rs:660-735 | each control request: its reply, and what becomes of approvals, theme and broadcast; anything else ends the connection |
| `CoreService.Core.ServeFrame` | crates/kunkka-core/src/runtime.rs:481-553 | a frontend frame is served by its payload, answered under its own ids with the ends swapped, or ends the connection |
| `CoreService.ServedIsHandled` | crates/kunkka-core/src/runtime.rs:245-275 | serving a frame is the core's step on the joined link: same response, same theme change to forward |
| `CoreService.CommandDecides` | crates/kunkka-core/src/runtime.rs:690-702 | in every reachable store, after a native reject the record is gone; after a native approve a stored one is usable by its own app and command at any later time; no command touches any other record, save sweeping overdue ones |
| `CoreService.NativeDispatchComesBack` | crates/kunkka-native-host/src/bridge.rs:84-130 | a native dispatch reaches the core with its app, call and payload and comes back as exactly what that dispatch yields, or under the name of its fault |
| `CoreService.ReportsComeBack` | crates/kunkka-native-host/src/bridge.rs:43-83 | status and pending approvals reach the native client as the core reports them |
| `NativeSession.SettingThemeDropsNextCall` | crates/kunkka-core/src/runtime.rs:245-275 | a client that does set the theme, which no native command does: set, answered, received, event, and its next call reads the event and drops the connection |
| `NativeSession.ExchangeIsSendThenReceive` | crates/kunkka-native-host/src/bridge.rs:212-287 | the exchange of the session's calls is the link's send, any steps of the core, and its receive: same frame, same success, same reply |
| `NativeSession.FailedExchangeIsFailedSend` | crates/kunkka-native-host/src/bridge.rs:212-261 | an exchange whose send fails is the link's failing send: connection dropped, one id used up |
| `FrontendDispatch.Dispatcher.RecordAudit` | crates/kunkka-core/src/database.rs:58-90 | writes the row if and only if its decision and reason are known and the insert succeeds |
| `FrontendDispatch.Dispatcher.HandleRequest` | crates/kunkka-core/src/runtime.rs:555-639 | at most one row; the worker manager is used only after the allowing row, and is untouched otherwise; the reply in each case, never app_not_found for an allowed call |
| `FrontendDispatch.RowsAreValid` | crates/kunkka-core/src/database.rs:65-76 | every decision and reason pair the handler uses passes the check |
| `FrontendDispatch.RowReasons` | crates/kunkka-core/src/runtime.rs:565-612 | which row a request gets: none without app or method, else allow or deny with its reason |
| `FrontendDispatch.AllowedAppIsFound` | crates/kunkka-core/src/worker_dispatch.rs:127-136 | permissions and manifests being one registry, starting the worker of an allowed call never fails for an unknown app |
| `FrontendDispatch.AuditBeforeEffect` | crates/kunkka-core/src/runtime.rs:580-639 | in every run with failing writes: a contact comes right after its allowing row, written only for permitted calls, and every allowing row is followed by its contact |
| `LlmStream.StreamServer.SendChoices` | crates/kunkka-core/src/runtime.rs:405-440 | one frame per choice that carries anything, in order |
| `LlmStream.StreamServer.HandleStream` | crates/kunkka-core/src/runtime.rs:360-479 | all frames in order: data, then end or error; a failing send leaves a proper prefix |
| `LlmStream.FramesCarrySomething` | crates/kunkka-core/src/runtime.rs:405-440 | every data frame carries text, a finish reason or a usage, under the request's ids and addressed to its sender |
| `LlmStream.FailureIsReported` | crates/kunkka-core/src/runtime.rs:441-478 | what came before a provider error is sent, then its message under the request's ids |
| `LlmStream.CapabilityStream.NextChunk` | crates/kunkka-worker-sdk/src/capability.rs:220-274 | the buffered chunk first, then only frames with the stream's own three ids |
| `LlmStream.CapabilityStream.NextEvent` | crates/kunkka-worker-sdk/src/llm.rs:138-151 | end marker and closed connection are the end; anything undecodable is an error |
| `LlmStream.OpenStream` | crates/kunkka-worker-sdk/src/capability.rs:127-217 | opens if and only if the first frame is a stream frame of this request, and keeps it |
| `LlmStream.CollectChat` | crates/kunkka-worker-sdk/src/llm.rs:81-106 | the loop yields the fold of everything the connection delivers |
| `LlmStream.FirstOddFrameDecides` | crates/kunkka-worker-sdk/src/capability.rs:220-274 | against any peer: the stream's own data is collected up to the first frame that is none, and that one decides, whatever follows |
| `LlmStream.OpeningErrors` | crates/kunkka-worker-sdk/src/capability.rs:156-217 | which first frame opens a stream, under which id, and the error of any other |
| `LlmStream.StreamingIsFolding` | crates/kunkka-core/src/runtime.rs:394-478 | server and client composed give the joined deltas, last finish reason and last usage of all choices; collecting fails if and only if the provider fails anywhere |
| `LlmStream.EarlyCloseGoesUnnoticed` | crates/kunkka-worker-sdk/src/capability.rs:225-228 | cut after any number of frames, collecting succeeds unless nothing arrived or the error frame did, and yields the fold of the events that arrived |
| `LlmStream.CutLosesTheRest` | crates/kunkka-worker-sdk/src/capability.rs:225-228 | the meant answer is the collected one with the lost events absorbed; the texts agree if and only if no lost event has text |
| `LlmStream.CutAnswerIsAccepted` | crates/kunkka-worker-sdk/src/capability.rs:225-228 | the instance: two choices, the connection closed after the first; the answer is accepted without the second |
| `LlmStream.ChoicelessChunkIsLost` | crates/kunkka-core/src/runtime.rs:394-405 | a chunk without choices can be inserted anywhere without changing a frame |
| `LlmStream.UsageArrives` | crates/kunkka-core/src/runtime.rs:394-478 | without a provider error the client's usage is that of the last chunk with a figure and a choice, none if there is no such chunk; the last chunk with a figure is that one if and only if it has a choice |
| `LlmStream.UsageOnlyChunkIsLost` | crates/kunkka-core/src/runtime.rs:394-405 | the instance: a provider that sends usage only; the client collects an answer without usage |
| `Paths.NormalizePath` | crates/kunkka-core/src/capability/permissions.rs:85-109 | the loop over components gives the rendering of the resolved names |
| `Paths.ResolvedAreNames` | crates/kunkka-core/src/capability/permissions.rs:88-100 | no empty name, dot, double dot or slash is left |
| `Paths.OneStepFurther` | crates/kunkka-core/src/capability/permissions.rs:88-100 | a name goes down, a dot or slash stays, a double dot goes up but not above the root or a relative path's first name |
| `Paths.FirstStep` | crates/kunkka-core/src/capability/permissions.rs:85-109 | where that starts: a single name, or nothing |
| `Paths.NormalFormIsStable` | crates/kunkka-core/src/capability/permissions.rs:85-109 | normalising is idempotent for every path and keeps its names |
| `Paths.CheckFsPermission` | crates/kunkka-core/src/capability/permissions.rs:12-56 | granted if and only if some entry grants the path as text; which denial otherwise |
| `Paths.GrantsByNames` | crates/kunkka-core/src/capability/permissions.rs:29-47 | for the absolute entries manifests may hold (app_manifest.rs:258) and every requested path the text check agrees with name lists: a slash-ended entry grants exactly the extensions of its names, another only the same names without a trailing slash |
| `Usage.UsageTracker.Record` | crates/kunkka-core/src/llm/usage.rs:56-79 | appends one record whose total is the 32-bit sum |
| `Usage.UsageTracker.Summary` | crates/kunkka-core/src/llm/usage.rs:82-122 | totals and groups of all records, in wrapping 64-bit counters |
| `Usage.UsageTracker.Recent` | crates/kunkka-core/src/llm/usage.rs:125-133 | the last records up to the limit, in order |
| `Usage.GroupedNames` | crates/kunkka-core/src/llm/usage.rs:96-106 | a group exists if and only if a record has its name |
| `Usage.GroupedFigures` | crates/kunkka-core/src/llm/usage.rs:96-111 | a group's figures are the count and token sum of the records with its name |
| `Usage.OneRecord` | crates/kunkka-core/src/llm/usage.rs:82-111 | a record counts its own tokens, in the group of its provider and in that of its role |
| `Usage.FiguresAdd` | crates/kunkka-core/src/llm/usage.rs:82-111 | figures of records made one after the other add up, over all and in every group |
| `Usage.SummaryConserves` | crates/kunkka-core/src/llm/usage.rs:82-122 | up to 2^31 records no 64-bit counter wraps, provider and role requests each add up to all requests, their tokens to each other, and to the overall tokens if and only if no 32-bit sum overflowed |
| `Usage.OverflowDisagrees` | crates/kunkka-core/src/llm/usage.rs:56-122 | the instance: one record of 2^32 - 1 and 1 tokens shows 0 tokens in its groups and 2^32 overall |

## Left out

- Postcard, serde_json and the length-delimited codec: payloads are the messages they decode to; encoding is taken to succeed.
- Sockets, process spawning, `/bin/sh`, SQLite, HTTP and the provider client: their outcomes are arguments.
- Async scheduling inside a handler: each handled frame, tick or step is atomic, as exclusive borrows make it.
- Texts that embed a library's message or a debug rendering (decode failures, paths, ids): error kinds and codes are kept.
- Counters of approvals (64-bit) and request ids (128-bit) are unbounded numbers; running through their range is not modelled.
- Active workers, connections and stream chunks are values inside their owner's fields, as ownership has them; no aliasing is modelled.
- The order in which one tick reaps several idle workers, which nothing observes.
- What a dropped connection's core side still does with a request it has already received.
- Overflow panics of debug builds: sums wrap, as in release builds.
- What a real shell makes of an accepted command: the theorems are about this parser.
- `ApprovalStore::expire` and `register_active_for_test`, which exist for tests.
- What the host loop's own model does between message and reply: one function of session and bytes; JSON decoding of requests and dispatch payloads is not modelled, the mapping of commands and results is in `NativeSession`.
- Capabilities other than the shell and the path check, the theme schedule, LLM provider and role configuration, manifest loading, CLI and TUI.
