# A model of galdor, with proofs

galdor is a Go toolkit for agents: an A2A task server, a graph runtime with checkpoints and interrupt gates, agent
loops built on that runtime, retrieval, conversation memory, and MCP transports. This project restates its logic in
Dafny and proves what its concurrency, its state machines and its text formats are relied on for.
`dafny verify dfyconfig.toml` checks everything.

How the files follow the repository:

- **`A2ATask`, `A2AServer`, `A2AProtocol`, `A2ARuns`, `A2AAnswers`** (`pkg/a2a`). The store and its entries are classes,
  one method a locked section. The protocol is a transition system: an event is one such section of one request, requests
  interleave in any way, and an eviction reads the entries one by one while others work on them. The theorems are about
  every run.
- **`GraphTypes`, `GraphBuilder`, `GraphRun`, `GraphResume`, `GraphOutcomes`, `GraphStream`** (`pkg/graph`). `RunFrom` is
  what a run means: final state, error, checkpoints and node executions; `GraphOutcomes` says of all of them what they can
  be. `Compile`, `runLoop`, `Resume`, `runStream` and the
  memory checkpointer are imperative and proved against it. Nodes and routers are arbitrary; a node is also told the
  step, so that it may answer differently each time it is asked.
- **`Layering`** (`pkg/graph/spec.go`). The clamped longest-path relaxation behind the graph drawing.
- **`Schema`, `React`, `ReactGuards`, `PlanExecute`, `Supervisor`, `Swarm`, `SwarmRuns`, `SwarmActivation`** (`pkg/agent`,
  `pkg/council`). The agents as graphs over arbitrary models, tools and guards; their claims are proved through the run
  semantics.
- **`LineDiff`** (`cmd/galdor/spellbook.go`), **`OkfGraph`, `OkfRetrieve`** (`memory/okf/graph.go`), **`Hybrid`**
  (`pkg/memory/hybrid.go`). The algorithms, as the loops they are.
- **`Window`, `WindowRuns`** (`pkg/memory/window.go`). The window as a class, and its runs with Appends between the
  phases of Snapshot.
- **`McpClient`, `McpHttp`** (`pkg/mcp`). Request and reply correlation under any interleaving (JSON-RPC 2.0,
  section 5).
- **`OkfText`, `OkfValues`, `OkfLoader`, `OkfBlocks`, `OkfRoundTrip`** (`memory/okf/write.go`, `frontmatter.go`,
  `bundle.go`). Printer and parser, the values that survive them, the loader, block lists and other lines the printer does
  not write, and what is read back of whole documents.
- **`JsonScan`, `JsonObjects`** (`internal/store/metrics.go`). The attribute scan, and the objects it is run on.
- **`Common`, `Text`**. Options, orders, sorting; the string operations of Go's standard library that are used.

Where the code and what is said about it disagree, the model follows the code:

- The scan for `"key":` can find a key that is not there: in `{"a":"x",":y":1}` it finds the key `,`.
  `JsonObjects.AbsentKeyIsFoundExactly` says exactly when. It can also miss a key that is there, as for `,` in
  `{"a":"x",":y":2,",":1}` (`PresentKeyCanBeMisread`); `PresentKeyPlace` says exactly when it stops at the key's own
  place. `OrdinaryKeysAreSafe` says that no key beginning with another character than `:`, `,`, `]` or `}` is concerned
  (`internal/store/metrics.go:304-339`).
- The printer of concepts is called the inverse of the loader, but it doubles apostrophes and the parser leaves them
  doubled, it prints line breaks as they are, and it drops extensions the loader gave an empty value.
  `OkfRoundTrip.RoundTripExactly` says exactly which metadata comes back, `FieldReadsBackExactly` and
  `ExtraReadsBackExactly` the same of each part, and `LineBreakIsLost`, `ApostropheIsLost` and `EmptyExtensionIsLost`
  name the failing inputs (`memory/okf/write.go:170-195`, `memory/okf/frontmatter.go:140-148`).
- The HTTP transport's cleanup deletes the pending request of an id, not its own. `McpHttp.OrphanedExactlyByReuse` says
  exactly when a waiting request can lose its entry this way (`pkg/mcp/transport_http.go:241-245`).
- Messages evicted because a new summary took their place are said to be summarized by a later Snapshot; they are gone
  from the window. `WindowRuns.EvictionIsSummarized` says exactly when that happens, `SummaryHasRoomExactly` how long
  a summary may be for it not to, and `SummaryCanPushOutUnfed` gives a run (`pkg/memory/window.go:148-153`).
- An empty plan is said to route to END; it makes the execute node fail, and `PlanExecute.EmptyPlanFails` says exactly
  when (`pkg/agent/planexecute.go:237-239` against `:357-359`).
- `fits` does not count the heading of the summary message; the token cap holds as `fits` measures it, and
  `WindowRuns.SnapshotTokens` bounds by how much a snapshot can exceed it (`pkg/memory/window.go:254-256`).
- `layeredPositions` says it follows conditional edges and keeps registration order; it reads static edges only and
  sorts each layer (`pkg/graph/spec.go:318-323`).
- The input watermark of ReAct relies on a digest that is empty when encoding fails, and trusts the watermark then. An
  assistant turn with malformed tool-call arguments is enough for that, and no input guard looks at it. A caller who
  then goes on with other messages gets them sent unvetted below the watermark. `ReactGuards.NothingUnvettedIsSent`
  says that keeping the vetted messages where the carried state has no digest prevents it, and `NextIsSafeExactly` which
  carried states are safe whatever the caller does; `UnencodedLetsMessagesThrough` gives the failing session, and
  `SafeExactlyWhenEncoded` says under which guards and digests no session can fail (`pkg/agent/react.go:66-73`).
- The HTTP transport looks a reply up by its id after marshalling the reply, which escapes `<`, `>`, `&` and two line
  separators inside string ids. `McpHttp.ReplyIsMatchedExactly` says that exactly the ids without these are matched
  (`pkg/mcp/transport_http.go:333-345`).

## Model

| member | source | states |
|---|---|---|
| A2ATask.Settle | pkg/a2a/server.go:227-235 | A failed handler gives a failed task with the agent's message, a state of its own that is terminal or input-required is left in place, any other becomes completed; everything else is as the handler left it |
| A2ATask.Accept | pkg/a2a/server.go:203-218 | A message goes to the end of the history, the task is working, a session given replaces the old one, and new metadata wins over old |
| A2ATask.Snapshot | pkg/a2a/server.go:290-295 | A positive limit smaller than the history gives exactly its last turns, any other all of it, and nothing else changes |
| A2AServer.TaskEntry.constructor | pkg/a2a/server.go:174-182 | A new entry holds the submitted task and its time of creation |
| A2AServer.TaskEntry.Begin | pkg/a2a/server.go:196-223 | Refuses exactly the terminal states and then changes nothing; otherwise appends the message, merges session and metadata, flips to working, and hands out the stored value |
| A2AServer.TaskEntry.Commit | pkg/a2a/server.go:239-243 | Stores what a client is promised of the handler's outcome and hands out a copy of it |
| A2AServer.Server.EvictOne | pkg/a2a/server.go:251-271 | Succeeds exactly when some stored task is terminal, and then removes exactly one, terminal and with no older terminal one beside it |
| A2AServer.Server.LookupOrCreate | pkg/a2a/server.go:163-185 | A known id gives its entry and leaves the store alone; an unknown one gets a fresh entry, in place of an evictable one when the store is full, or is refused exactly when the store is full of active tasks; the cap holds |
| A2AProtocol.StepKeepsInv | pkg/a2a/server.go:163-243 | Every locked section of every request keeps: the cap, each entry under its key while not terminal, working exactly while a handler runs, one holder per entry, a scan's choice still terminal and oldest |
| A2AProtocol.RunKeepsInv | pkg/a2a/server.go:148-296 | The invariant holds in every state of every interleaving |
| A2ARuns.RunningTaskIsStored | pkg/a2a/server.go:187-245 | While a handler runs, its entry is in the store under its id, in state working, with the task the handler was given |
| A2ARuns.OneHandlerPerId | pkg/a2a/server.go:187-191 | At most one handler runs per id, also across eviction and re-creation of the id |
| A2ARuns.StoreIsBounded | pkg/a2a/server.go:166-169 | The store never exceeds maxTasks |
| A2ARuns.EvictionDropsOnlyTerminal | pkg/a2a/server.go:251-271 | Whatever leaves the store in any step is terminal at that moment, although it was judged earlier |
| A2ARuns.EvictionTakesTheOldest | pkg/a2a/server.go:254-265 | What leaves the store is no younger than any task its scan found terminal |
| A2ARuns.StepFollowsLifeCycle | pkg/a2a/server.go:190-244 | Every change of a stored task's state is a move of the A2A life cycle |
| A2ARuns.TerminalIsForever | pkg/a2a/server.go:196-202 | A task in a terminal state never changes again |
| A2ARuns.HistoryOnlyGrows | pkg/a2a/server.go:203-240 | With append-only handlers an entry's history at any time is a prefix of its history later |
| A2ARuns.GetsSeeGrowingHistories | pkg/a2a/server.go:273-296 | Two full-history gets of one entry, one after the other, see histories each a prefix of the next |
| A2ARuns.AcceptedExactlyOnce | pkg/a2a/server.go:196-223 | The message of every send that was not refused stands in its entry's history, recorded there exactly once |
| A2ARuns.AcceptedInProcOrder | pkg/a2a/server.go:187-203 | Of two accepted sends into one entry, the one that took the processing lock first stands earlier in the history |
| A2AAnswers.SendAnswersForItsHandler | pkg/a2a/server.go:227-244 | In any run, when a handler is done, what is stored under the id and what is answered are one task: failed with the agent's message after an error, else in the handler's own terminal or input-required state, else completed, and otherwise as the handler left it |
| A2AAnswers.SendStartsOnTheStoredTask | pkg/a2a/server.go:192-223 | A handler starts on the stored task with the message taken in; a completed, failed or canceled task is refused with its own code and stays as it is |
| A2AAnswers.SendFindsItsEntry | pkg/a2a/server.go:163-185 | A send goes to the entry stored under its id, or to a fresh submitted task of that id, or of a fresh one |
| A2AAnswers.FullMeansAllActive | pkg/a2a/server.go:166-169 | A send is told that the store is full only when no stored task was terminal when it looked, and the store is then as it was |
| A2AAnswers.ArrivalsAreChecked | pkg/a2a/server.go:148-158 | Exactly messages without parts and ids that are too long are refused on arrival, and gets without an id |
| A2AAnswers.GetFindsItsId | pkg/a2a/server.go:281-287 | A get reads the entry stored under its id, or is told that there is none |
| A2AAnswers.GetReadsTheStore | pkg/a2a/server.go:288-296 | A get hands out the stored task with exactly the last turns it asked for |
| A2AAnswers.OthersAreLeftAlone | pkg/a2a/server.go:187-243 | A step changes no entry but that of a request inside its processing lock, and no other request |
| A2AAnswers.AnswersStay | pkg/a2a/server.go:244 | A reply given is never changed by what comes later |
| GraphTypes.VisitsAreBounded | pkg/graph/runnable.go:375-456 | Any graph stops after at most one node execution per step left |
| GraphTypes.InvariantHolds | pkg/graph/runnable.go:375-456 | A property kept by every step of control holds at every node execution and where the run ends |
| GraphTypes.StatePropertyHolds | pkg/graph/runnable.go:439-448 | A property every successful node keeps holds of every state passed on and of the state returned, a failed node's state being discarded |
| GraphTypes.VisitsFollowEdges | pkg/graph/runnable.go:248-278 | Successive node executions are joined by the resolved outgoing edge |
| GraphTypes.AlikeRunsAreOne | pkg/graph/runnable.go:375-456 | Graphs whose nodes answer alike in all states that can occur have the same runs |
| GraphBuilder.Builder.constructor | pkg/graph/graph.go:65-73 | A new builder is empty and valid |
| GraphBuilder.Builder.AddNode | pkg/graph/graph.go:101-120 | Registers the node, or records an error and changes nothing else, exactly in the listed cases |
| GraphBuilder.Builder.AddEdge | pkg/graph/graph.go:129-152 | Registers the edge, or records an error, exactly in the listed cases |
| GraphBuilder.Builder.AddConditionalEdge | pkg/graph/graph.go:158-181 | The same for a plain router |
| GraphBuilder.Builder.AddConditionalEdges | pkg/graph/graph.go:197-231 | The same for a router with a branch map |
| GraphBuilder.Builder.InterruptBefore | pkg/graph/graph.go:82-95 | Gates the node, or records an error for a reserved name |
| GraphBuilder.Builder.Compile | pkg/graph/runnable.go:98-195 | Accepts exactly the graphs with an entry, no recorded error and every edge in order, and returns the builder's own maps |
| GraphBuilder.EdgesResolve | pkg/graph/runnable.go:248-278 | In an accepted graph a resolved edge leads to a node or END, and only routers can be stuck |
| GraphBuilder.CompiledRunsAreSound | pkg/graph/runnable.go:342-456 | No run of an accepted graph fails for want of an outgoing edge or from a static or branch-map target; an unknown node arises only from the answer of the last node's plain router |
| GraphRun.MemoryCheckpointer.constructor | pkg/graph/checkpoint.go:100-119 | Starts with no history and the given retention limit |
| GraphRun.MemoryCheckpointer.Save | pkg/graph/checkpoint.go:137-156 | Appends a faithful copy and trims to the limit, or fails and changes nothing |
| GraphRun.MemoryCheckpointer.Load | pkg/graph/checkpoint.go:220-228 | The latest checkpoint of the run, or none |
| GraphRun.LoadAfterSave | pkg/graph/checkpoint.go:137-156 | A save just made is what the next Load returns, whatever the retention limit |
| GraphRun.LatestAreKept | pkg/graph/checkpoint.go:137-156 | A checkpointer keeps exactly the latest checkpoints of a run, as many as its limit says, in order |
| GraphRun.OtherRunsAreKept | pkg/graph/checkpoint.go:137-156 | Saves of other runs leave a run's checkpoints alone |
| GraphRun.SaveCheckpoint | pkg/graph/runnable.go:480-488 | Nothing without a checkpointer; otherwise one save, reported as failed exactly when the state cannot be copied |
| GraphRun.RunTurn | pkg/graph/runnable.go:375-456 | One iteration of the executor does what one turn of the semantics says |
| GraphRun.RunLoop | pkg/graph/runnable.go:342-456 | The loop returns the final state and error of RunFrom and leaves exactly its checkpoints |
| GraphRun.InvokeWith | pkg/graph/runnable.go:292-297 | Refuses a checkpointer without a run id; otherwise runs from the entry |
| GraphRun.Resume | pkg/graph/runnable.go:305-328 | Its four refusals, and otherwise the run from the loaded checkpoint with its gate bypassed once |
| GraphResume.PauseIsSaved | pkg/graph/runnable.go:399-408 | A run that pauses has saved, last of all, the point where it stopped |
| GraphResume.GatedIsPrefix | pkg/graph/runnable.go:375-456 | A gated run is the ungated one up to its pause, and the ungated one goes on from there |
| GraphResume.ResumedRunIsUngatedRun | pkg/graph/runnable.go:305-328 | Resumed as often as it pauses, a gated run visits the same nodes with the same states, ends the same way and saves the same checkpoints, those of the pauses apart, as the run without gates, for every retention limit |
| GraphResume.ResumedRunIsBounded | pkg/graph/runnable.go:395-397 | Over the whole chain of resumes no more nodes are executed than the step cap allows one run, and the chain ends |
| GraphResume.UngatedNeverPauses | pkg/graph/runnable.go:399-408 | Without gates no run is interrupted |
| GraphOutcomes.GatesHold | pkg/graph/runnable.go:399-408 | No node behind a gate is executed, but for the first one of a run that is told to pass its gate |
| GraphOutcomes.GatePauses | pkg/graph/runnable.go:399-408 | A run that is to begin behind a gate pauses in front of it, with steps left and a state that can be saved |
| GraphOutcomes.GateStopsTheRun | pkg/graph/runnable.go:399-408 | Where the run without gates would first pass one, the gated run has paused: in front of that node, with its state, having executed what comes before |
| GraphOutcomes.PauseIsAtAGate | pkg/graph/runnable.go:399-408 | A run pauses nowhere else |
| GraphOutcomes.RunsEndRight | pkg/graph/runnable.go:375-456 | Every run ends at END, with all steps used, in front of a gate or an unknown node, for a state that cannot be saved, or with its last node's or edge's own error, and returns the state it had there |
| GraphOutcomes.CallersCapHolds | pkg/graph/runnable.go:342-398 | No run executes more nodes than the caller's cap, the graph's or the default of 100 allows, and one stopped for it has executed that many |
| GraphOutcomes.SavesTellTheRun | pkg/graph/runnable.go:375-456 | A run saves one checkpoint in front of each node execution, with its number, name and state, and one at END or at a pause, and nothing else |
| GraphOutcomes.EdgesExactly | pkg/graph/runnable.go:248-278 | An edge leads to a node exactly by its static target, by its branch map's target for the router's answer, or by that answer when it is END or a node |
| GraphOutcomes.StuckExactly | pkg/graph/runnable.go:248-278 | An edge that leads nowhere is reported for the reason there is |
| GraphStream.StreamTurn | pkg/graph/runnable.go:519-674 | One round of the streaming executor saves and ends as one turn of the semantics, and announces that turn |
| GraphStream.RunStream | pkg/graph/runnable.go:519-674 | The streaming executor makes the same saves as the plain one and its events tell that same run |
| GraphStream.StreamIsWellFormed | pkg/graph/runnable.go:519-674 | Every event list is RunStart, then NodeStart NodeEnd EdgeTraversed repeated, then RunEnd, or a prefix of that closed by exactly one Error; each node starts with the state and number of the hop to it and ends with its own result, each edge is the one taken, and an error is the one to be expected there |
| Layering.CompiledGraphsAreJoined | pkg/graph/spec.go:71-121 | The description of an accepted graph names each node once, joins only listed nodes, START and END, and nothing leaves END |
| Layering.BuildAdjacency | pkg/graph/spec.go:325-329 | The adjacency map holds exactly the static edges |
| Layering.WalksAreShort | pkg/graph/spec.go:331-338 | Without cycles no walk from START is longer than the clamp allows |
| Layering.Relax | pkg/graph/spec.go:338-356 | Terminates on every description, cyclic or not; every depth is the length of some walk within the clamp, and every edge is relaxed unless the clamp stopped it |
| Layering.ClampNeverFires | pkg/graph/spec.go:344-355 | Without cycles every edge out of a reached node leads strictly deeper: nothing was clamped |
| Layering.DepthIsLongestWalk | pkg/graph/spec.go:339-356 | Exactly the nodes START leads to have a depth, and it is the length of their longest walk |
| Layering.Place | pkg/graph/spec.go:361-384 | Unreached nodes get depth 1, and END one past the deepest other node unless it is deeper already |
| Layering.FillColumns | pkg/graph/spec.go:386-399 | Each column is the sorted list of the nodes with that depth |
| Layering.NoGaps | pkg/graph/spec.go:339-399 | Every column up to the deepest holds some node besides END |
| Layering.LayeredPositions | pkg/graph/spec.go:324-401 | Every node in exactly one column, END alone in the last, columns in name order; without cycles columns are longest walks, edges go strictly rightward, unreached nodes stand in column 1, and no column is empty |
| Schema.ToolResults | pkg/agent/react.go:253-254 | One result per call, in order, with the call's id |
| React.Vet | pkg/agent/react.go:187-202 | The vetting loop sends exactly what the watermark and the guards let through |
| React.NewReAct | pkg/agent/react.go:162-295 | Refuses a negative cap; otherwise the builder accepts and yields the model and tools graph |
| React.SoftCapStrikesFirst | pkg/agent/react.go:260-293 | No ReAct run with non-negative counters ends at the runtime's step cap |
| React.EndIsComplete | pkg/agent/react.go:229-238 | A run that reaches END is flagged as truncated or has a last turn without tool calls |
| React.RunIsATranscript | pkg/agent/react.go:181-289 | In every run each model turn adds one answer of the provider to exactly the messages of the state, passed by the output guards, each tools turn adds one result of its tool for every pending call in order, and control goes as the answer and the cap say |
| React.ModelFailsOnlyFor | pkg/agent/react.go:181-228 | A model turn fails only for a negative watermark, a rejected user message, the provider, or a rejected answer |
| React.ToolsFailOnlyFor | pkg/agent/react.go:243-252 | A tools turn fails only without tools or pending calls |
| React.Run | pkg/agent/react.go:304-325 | Returns the final text of the run from the non-empty prompts and the input; no error means that run was not truncated and its last turn, when the assistant's, has no tool calls and is that text; truncation is the iteration error, and the step cap is never the error |
| ReactGuards.WatermarkCoversHistory | pkg/agent/react.go:187-202 | What the model node sends has been vetted up to its end |
| ReactGuards.CarriedWatermark | pkg/agent/react.go:187-204 | In any session that keeps what was vetted where the state has no digest, the state carried over has its digest's history, or without one the messages below the watermark, vetted to the end |
| ReactGuards.NothingUnvettedIsSent | pkg/agent/react.go:181-239 | Over any sequence of invocations from a fresh state, however turns end and whatever the digest cannot encode, every user message sent to the provider has passed all input guards, as long as the caller, where the carried state has a watermark and no digest, begins with the messages below the watermark |
| ReactGuards.ProviderSeesTheMessages | pkg/agent/react.go:206-220 | A model turn depends on the provider only through its answer to the messages of the state, and not at all when it is blocked |
| ReactGuards.ProviderNeverSeesUnvetted | pkg/agent/react.go:187-220 | In sessions as in NothingUnvettedIsSent, providers that differ only on histories with an unvetted user message lead to the same outcomes |
| ReactGuards.NextIsSafeExactly | pkg/agent/react.go:187-191 | From a carried state whose digest stands for vetted history, every next invocation sends only vetted messages if and only if there is a digest, or nothing was vetted yet, or the guards reject no user message |
| ReactGuards.SessionGoesOnSafelyExactly | pkg/agent/react.go:187-191 | The same of the state any such session ends in |
| ReactGuards.UnencodedLetsMessagesThrough | pkg/agent/react.go:66-73 | For every history that passes the guards and is not encoded, a session of two invocations from a fresh state sends a rejected user message, put where a vetted one stood |
| ReactGuards.SafeExactlyWhenEncoded | pkg/agent/react.go:66-73 | With a digest that tells encoded histories apart, no session at all sends an unvetted user message if and only if every history the guards let through is encoded, or the guards reject no user message |
| ReactGuards.CheckedExactlyOnce | pkg/agent/react.go:187-202 | In sessions that only append and do not fail, each user message the caller passed is checked, and none twice |
| Swarm.DetectHandoff | pkg/council/swarm.go:449-458 | A detected handoff is one the agent declared |
| Swarm.PartitionHandoffCalls | pkg/council/swarm.go:474-486 | The loop splits calls into domain calls and refusals, both in order |
| Swarm.AcknowledgeHandoff | pkg/council/swarm.go:503-522 | The loop answers every call of a handoff turn, in order |
| Swarm.Activate | pkg/council/swarm.go:283-375 | The loop of an activation is the agent node |
| Swarm.Validate | pkg/council/swarm.go:136-190 | Accepts exactly the configurations with distinct usable names, a known start and known handoff targets |
| Swarm.NewSwarm | pkg/council/swarm.go:136-220 | Succeeds exactly on valid configurations, with the graph of agents and trap, accepted by Compile |
| SwarmRuns.AcknowledgeAnswers | pkg/council/swarm.go:503-522 | A handoff's acknowledgements are tool results with the multiset of the calls' ids |
| SwarmRuns.TurnResultsAnswer | pkg/council/swarm.go:356-367 | Tool results and refusals together carry the multiset of the calls' ids |
| SwarmRuns.AppendTurn | pkg/council/swarm.go:283-375 | A turn with the results of its calls extends a well-formed log to a well-formed log |
| SwarmRuns.CommittedLogsAreWellFormed | pkg/council/swarm.go:283-375 | In every state passed on or returned, each assistant turn with tool calls is followed by results with the same multiset of ids |
| SwarmRuns.ActivationsFollowHandoffs | pkg/council/swarm.go:181-278 | The activated agents are a path in the declared handoff graph that begins at the start agent |
| SwarmRuns.SwarmRunsEndWell | pkg/council/swarm.go:241-278 | No run ends at the step cap, each activation counts one hop and none but the first begins with the hops used up, the trap does and never meets an unknown target, and a run without error that began with no final answer ends on an assistant turn without tool calls, whose text is the final answer |
| SwarmActivation.ActivationTells | pkg/council/swarm.go:283-375 | An activation is a sequence of rounds: the model is shown its own prompt, the shared log without others' prompts and all that was said since; all of it and the result of every call end up in the log; it ends with an answer, with the first declared handoff, with the model's error, or with its rounds used up |
| SwarmActivation.FirstHandoffDecides | pkg/council/swarm.go:449-458 | Control goes to the first declared handoff among the calls, and stays exactly when there is none |
| SwarmActivation.ResultsAreExpected | pkg/council/swarm.go:356-367 | The results of a turn that keeps control are the tools' answers and the refusals, one for each call, and nothing else |
| SwarmActivation.AcknowledgedInOrder | pkg/council/swarm.go:503-522 | Each call of a handoff turn is acknowledged in its place, the handoff as such and the others as skipped |
| SwarmActivation.NonSystemFilters | pkg/council/swarm.go:428-442 | Exactly the system messages of the shared log are not shown, the others in order |
| SwarmActivation.VisitsAreActivations | pkg/council/swarm.go:241-258 | In a run each state is the previous agent's activation of the state before, and control goes on as the state it left says |
| SwarmActivation.AnswerIsAnActivation | pkg/council/swarm.go:241-258 | So does the state a run without error ends in |
| Supervisor.SupervisorCompiles | pkg/council/supervisor.go:134-258 | The supervisor's graph is one Compile accepts |
| Supervisor.SupervisorRunsEndWell | pkg/council/supervisor.go:173-271 | No run ends at the step cap, a run without error has a non-empty answer, each consultation counts one hop and none but the first begins with the hops used up, and the trap does |
| Supervisor.RunIsARecord | pkg/council/supervisor.go:173-258 | A run is made of consultations, that name a worker and its task or the answer, and delegations, that record the worker's output under its name and task |
| Supervisor.DelegationsComeBack | pkg/council/supervisor.go:173-258 | What the supervisor delegates is done by that worker with that task, and the supervisor next sees its output |
| Supervisor.NodesFailExactly | pkg/council/supervisor.go:173-250 | The supervisor fails exactly when its reply is neither an answer nor names a worker, and a worker when its run does |
| PlanExecute.PlanCompiles | pkg/agent/planexecute.go:189-340 | The plan-and-execute graph is one Compile accepts |
| PlanExecute.PlanSoftCapStrikesFirst | pkg/agent/planexecute.go:309-338 | No run with a non-negative counter ends at the step cap |
| PlanExecute.EmptyPlanFails | pkg/agent/planexecute.go:237-239 | The execute node is entered with an empty plan exactly when the first plan is empty and steps and saves allow getting there; the run then ends with that node's error, after two node executions |
| PlanExecute.RunIsARecord | pkg/agent/planexecute.go:213-326 | A run is made of the plan for the vetted input, of steps that take the first of the plan and record its output, and of the replanner's answers, vetted when final |
| PlanExecute.PlanIsDoneInOrder | pkg/agent/planexecute.go:236-277 | When the replanner keeps to the plan, what is done and what is left are at all times the first plan, in order |
| PlanExecute.NodesFailExactly | pkg/agent/planexecute.go:213-307 | A node fails exactly without input or plan, at a guard, or with the model behind it |
| LineDiff.LcsIsLongest | cmd/galdor/spellbook.go:236-252 | No common subsequence is longer than the table entry |
| LineDiff.FillTable | cmd/galdor/spellbook.go:237-252 | The nested loops fill the table with the entries for all pairs of suffixes |
| LineDiff.ScriptCommon | cmd/galdor/spellbook.go:253-275 | The common lines of any script are a common subsequence and fix how many lines it marks as changed |
| LineDiff.NoDiffIsShorter | cmd/galdor/spellbook.go:234-276 | A script with as many common lines as the table says marks no more lines than any other |
| LineDiff.Backtrace | cmd/galdor/spellbook.go:253-275 | The backtrace spells both texts and has as many common lines as the table says |
| LineDiff.Diff | cmd/galdor/spellbook.go:234-276 | Both texts can be read off the diff, the number of its common lines is the first table entry, and no diff of them marks fewer lines |
| OkfGraph.InlinksReverseOutlinks | memory/okf/graph.go:21-34 | Inlinks are exactly the reversed outlinks, for distinct concept ids |
| OkfGraph.Bundle.constructor | memory/okf/bundle.go:221-258 | A new bundle has its concepts and no graph yet |
| OkfGraph.Bundle.BuildGraph | memory/okf/graph.go:21-34 | Fills both adjacency maps with the concepts' links, once |
| OkfGraph.Bundle.Outlinks | memory/okf/graph.go:38-41 | The concept's outlinks in document order |
| OkfGraph.Bundle.Inlinks | memory/okf/graph.go:45-50 | The concept's inlinks, each as often as it occurs, in name order |
| OkfGraph.WithinIsPath | memory/okf/graph.go:52-79 | Being within so many links is having a path of at most that many |
| OkfGraph.SearchStep | memory/okf/graph.go:64-77 | One round of the search finds exactly the nodes one link further, each once |
| OkfGraph.Bundle.Neighborhood | memory/okf/graph.go:56-79 | Exactly the concepts at distance 1 to depth, each once, the nearer first |
| OkfRetrieve.GraphExpander.constructor | memory/okf/graph.go:89-106 | A new expander has its settings and no index yet |
| OkfRetrieve.GraphExpander.BuildChunkIndex | memory/okf/graph.go:110-122 | Each document under its id with its first chunk |
| OkfRetrieve.GraphExpander.Expand | memory/okf/graph.go:209-234 | Exactly the concepts at distance 1 to depth along the chosen links, each once with its shortest distance, the nearer first |
| OkfRetrieve.GraphExpander.BestScores | memory/okf/graph.go:164-176 | Every id outside the base that some hit reaches, with the best decayed score any hit offers it |
| OkfRetrieve.GraphExpander.RankedIds | memory/okf/graph.go:179-188 | The ids by score and then name, whatever order the map is walked in |
| OkfRetrieve.GraphExpander.Retrieve | memory/okf/graph.go:141-198 | Passes failures, empty answers and the case without a bundle through; otherwise the base hits unchanged, then exactly the indexed neighbours outside the base with their best scores, ranked |
| OkfRetrieve.ExpansionIsDetermined | memory/okf/graph.go:177-197 | Only one list meets that promise |
| Hybrid.KeyIdentifies | pkg/memory/hybrid.go:103-108 | Two chunks have one fusion key exactly when they have one id, or no id and one place in one document, for NUL-free ids |
| Hybrid.FuseList | pkg/memory/hybrid.go:100-115 | One source's results add 1/(rrfK+rank+1) each to their key's score, and new keys are ordered as first seen |
| Hybrid.FuseAll | pkg/memory/hybrid.go:87-116 | Over all sources each score is the sum over all occurrences; the first nil or failing source stops the fusion with its error |
| Hybrid.SortedAccs | pkg/memory/hybrid.go:118-127 | All accumulators by score and then first-seen order, whatever order the map is walked in |
| Hybrid.Retrieve | pkg/memory/hybrid.go:56-137 | The first K of the ranking of all fused results, or the first problem |
| Hybrid.RankingIsUnique | pkg/memory/hybrid.go:118-127 | There is only one such ranking |
| Hybrid.AboveEverywhere | pkg/memory/hybrid.go:100-115 | A chunk ranked above another in every source that lists the other has the higher fused score |
| Hybrid.AbovePrecedes | pkg/memory/hybrid.go:100-127 | So it comes first in the ranking |
| Window.EvictFrom | pkg/memory/window.go:187-198 | The fewest evictions after which the rest fits |
| Window.Window.constructor | pkg/memory/window.go:23-48 | A new window is empty |
| Window.Window.Append | pkg/memory/window.go:68-72 | Adds the message at the end |
| Window.Window.AppendAll | pkg/memory/window.go:75-79 | Adds the messages at the end |
| Window.Window.CheckFits | pkg/memory/window.go:237-265 | The counting loop decides exactly whether both caps hold |
| Window.Window.EvictionPlan | pkg/memory/window.go:187-198 | The leading system message and the fewest evictions that make the rest fit |
| Window.Window.Begin | pkg/memory/window.go:94-107 | Phase 1: the plan, and a copy of exactly the messages it evicts when there is a summarizer |
| Window.Window.EnforceCaps | pkg/memory/window.go:161-182 | Evicts the fewest messages that bring the window within its caps |
| Window.Window.BuildSnapshot | pkg/memory/window.go:203-222 | Leading system message, summary, the rest |
| Window.Window.Finish | pkg/memory/window.go:118-156 | Phase 3: folds the summary, drops the planned prefix, enforces the caps, hands out the snapshot |
| WindowRuns.DropsWhatWasCopied | pkg/memory/window.go:118-147 | With any Appends in between, the prefix dropped in phase 3 is the one copied in phase 1 and the leader still leads |
| WindowRuns.StepKeepsInv | pkg/memory/window.go:68-198 | Every step keeps the window a leading system message and a tail of what was appended, and the summarized ranges disjoint, in order, copied right, gone, and without the leader |
| WindowRuns.RunKeepsInv | pkg/memory/window.go:68-198 | So it is in every reachable state |
| WindowRuns.SnapshotKeepsTheCaps | pkg/memory/window.go:118-156 | Every snapshot is the leader, the summary and a tail of what was appended; as long as anything evictable is left in it, it fits both caps as fits measures them and is no longer than MaxMessages |
| WindowRuns.SummaryIsAllAnswers | pkg/memory/window.go:120-126 | In every reachable state the summary is everything the summarizer answered, in order, with blank lines between |
| WindowRuns.SnapshotTellsAllAnswers | pkg/memory/window.go:203-222 | So every snapshot tells all of it, in a system message of its own right behind the leading one |
| WindowRuns.NothingIsEvictedNeedlessly | pkg/memory/window.go:187-198 | Nothing is evicted from messages whose snapshot keeps to both caps, with a slot for a summary to come |
| WindowRuns.SnapshotTokens | pkg/memory/window.go:203-265 | A snapshot weighs what fits measures, with the summary's heading on top: at most 8 tokens over the cap when it fits |
| WindowRuns.HeadingIsNotCounted | pkg/memory/window.go:254-256 | A summary that fits and whose snapshot is over the token cap |
| WindowRuns.LeaderStays | pkg/memory/window.go:129-147 | A leading system message is never evicted |
| WindowRuns.EvictionIsSummarized | pkg/memory/window.go:148-155 | A Snapshot gives everything it evicts to the summarizer exactly when there is one to give its plan to and enforcing the caps evicts nothing more |
| WindowRuns.SummaryHasRoomExactly | pkg/memory/window.go:94-155 | With a summarizer and nothing appended since the plan, enforcing the caps evicts nothing more exactly when nothing evictable is left, there is no token cap, or the folded summary fits into the tokens the plan leaves |
| WindowRuns.EverythingIsSummarized | pkg/memory/window.go:88-156 | Over a run of such Snapshots no message leaves unsummarized |
| WindowRuns.SummaryCanPushOutUnfed | pkg/memory/window.go:148-155 | A run in which messages leave unsummarized |
| McpClient.Client.constructor | pkg/mcp/client.go:69-81 | No calls, nothing pending, open |
| McpClient.Client.Register | pkg/mcp/client.go:258-271 | A new id and a fresh empty channel stored under it |
| McpClient.Client.Forget | pkg/mcp/client.go:272 | Removes the id |
| McpClient.Client.Route | pkg/mcp/client.go:326-348 | Takes the channel of the pending call whose id a method-less frame carries, and none otherwise |
| McpClient.Client.Deliver | pkg/mcp/client.go:349 | Puts the frame into an empty channel |
| McpClient.Client.Fail | pkg/mcp/client.go:320-325 | Records the reason and closes |
| McpClient.Client.Close | pkg/mcp/client.go:86-93 | Closes |
| McpClient.StepKeepsInv | pkg/mcp/client.go:248-352 | Every step keeps ids unique, pending channels untouched, and every message its call's own |
| McpClient.RunKeepsInv | pkg/mcp/client.go:248-352 | So it is in every state of every interleaving of calls, frames and closing |
| McpClient.EveryAnswerIsItsOwn | pkg/mcp/client.go:277-296 | A call that returns an answer returns a method-less frame with its own id |
| McpClient.AnswersWereReceived | pkg/mcp/client.go:277-352 | A call that returns an answer returns a frame as it was received |
| McpClient.ReturnedIsForgotten | pkg/mcp/client.go:258-296 | A call that has returned has no entry left, and is told of a closed connection only when it is closed |
| McpClient.IdsAreNeverReused | pkg/mcp/client.go:258 | No two calls share an id |
| McpClient.DispatcherNeverBlocks | pkg/mcp/client.go:348-350 | Each reply channel gets at most one message, so handing over never blocks |
| McpClient.FirstReplyArrives | pkg/mcp/client.go:326-350 | The first reply to a pending call reaches its channel and changes no other call |
| McpHttp.Transport.constructor | pkg/mcp/transport_http.go:47-63 | Nothing pending |
| McpHttp.Transport.Register | pkg/mcp/transport_http.go:229-237 | Files the request under its id, or turns a duplicate of a pending id away |
| McpHttp.Transport.Unregister | pkg/mcp/transport_http.go:241-245 | Deletes by id |
| McpHttp.Transport.Take | pkg/mcp/transport_http.go:346-351 | Takes the waiting request with the frame's id out of the map |
| McpHttp.StepKeepsInv | pkg/mcp/transport_http.go:182-366 | Every step keeps each pending id its own request's, untouched, and every frame on its way bound for a request with its id and an empty channel |
| McpHttp.EveryReplyIsItsOwn | pkg/mcp/transport_http.go:182-293 | Whatever ids are reused, a POST is only answered with a frame of its own id, at most once, and a notification never |
| McpHttp.RepliesWereSent | pkg/mcp/transport_http.go:254-366 | A POST is answered with a frame as it was sent |
| McpHttp.SendNeverBlocks | pkg/mcp/transport_http.go:358-365 | A Send that took a request finds room in its channel |
| McpHttp.OrphanedExactlyByReuse | pkg/mcp/transport_http.go:241-245 | A filed request can lose its entry while it waits exactly when another request of its id still has its cleanup to run |
| McpHttp.FreshIdIsSafe | pkg/mcp/transport_http.go:229-245 | A request whose id no unfinished request has is filed, and no cleanup threatens it |
| McpHttp.FreshRequestGetsItsReply | pkg/mcp/transport_http.go:322-366 | With such an id, a frame with that id sent while the request waits reaches exactly that request, whatever came between |
| McpHttp.ReplyIsMatchedExactly | pkg/mcp/transport_http.go:333-351 | A reply carrying the id of a filed request is taken for it exactly when the id holds none of the characters that marshalling escapes |
| McpHttp.ReuseCanBeFiled | pkg/mcp/transport_http.go:229-245 | A run that leads to the dangerous reuse |
| OkfText.ParseFrontmatter | memory/okf/frontmatter.go:52-96 | The loop over lines with its pending block computes the fold of the line reader |
| OkfBlocks.BlockListIsParsed | memory/okf/frontmatter.go:70-80 | A key followed by one dash line per item, with blank lines and comments between, behind any lines and before lines of other keys, is mapped to exactly those items, coerced and in order |
| OkfBlocks.BlockListIsLoaded | memory/okf/bundle.go:166-190 | In a file, such tags are loaded joined with commas, and such a list under an extension key in its inline form |
| OkfBlocks.TwoItemsMakeABlock | memory/okf/frontmatter_test.go:54-63 | The two-item list of the tests is such a list |
| OkfBlocks.OtherLinesAreSkipped | memory/okf/frontmatter.go:67-84 | Blank lines, comments, items before any key, and lines without a bare key change nothing |
| OkfBlocks.QuotesAreStripped | memory/okf/frontmatter.go:140-148 | One pair of surrounding quotes of either kind is taken off a scalar |
| OkfBlocks.PlainIsItself | memory/okf/frontmatter.go:140-148 | A text without surrounding quotes or brackets is taken as it stands, trimmed |
| OkfBlocks.OddKindsAreLoaded | memory/okf/bundle.go:166-183 | A single tag is loaded as one tag, and a list in place of a scalar as none |
| OkfText.SplitFrontmatter | memory/okf/frontmatter.go:27-48 | Takes the text apart at its first two delimiter lines, or calls all of it body |
| OkfBlocks.UnframedIsBody | memory/okf/frontmatter.go:27-43 | A text has frontmatter exactly when its first line and a later one are delimiters, and is all body otherwise |
| OkfText.ExtraKeys | memory/okf/write.go:60-69 | Exactly the extension keys, in name order |
| OkfText.WriteScalar | memory/okf/write.go:170-178 | Appends the line of a non-empty value, and nothing for an empty one |
| OkfText.WriteTags | memory/okf/write.go:33-37 | Appends the tag line when there are tags |
| OkfText.WriteExtra | memory/okf/write.go:40-51 | Appends an extension key's line, lists verbatim |
| OkfText.Marshal | memory/okf/write.go:27-56 | The builder's appends print the document with its extension keys in name order |
| OkfValues.ScalarReadsBack | memory/okf/write.go:184-195 | What YamlScalar prints of a value, on its own, parses to that value exactly when it has no apostrophe and no white space at its edges, unless something else makes the printer quote it |
| OkfValues.ApostropheIsDoubled | memory/okf/frontmatter.go:140-148 | A scalar with an apostrophe is read back with it doubled |
| OkfValues.ListReadsBack | memory/okf/frontmatter.go:123-134 | An inline list comes back from parsing and printing as it was exactly when it is the printed form of items without commas, edge white space or a pair of quotes |
| OkfValues.TagsReadBack | memory/okf/bundle.go:175-190 | Tags come back exactly when they are the joined form of such items, none of them empty |
| OkfValues.CsvReadsBack | memory/okf/graph.go:237-249 | The comma-joined metadata form gives such items back |
| OkfLoader.PrintedTakenApart | memory/okf/frontmatter.go:27-48 | A printed document is taken apart into its lines and its body |
| OkfLoader.ParsePrinted | memory/okf/frontmatter.go:52-96 | Parsing printed lines gives the table of their keys and values |
| OkfLoader.ParsedIsClean | memory/okf/frontmatter.go:52-96 | Whatever the frontmatter, its keys are bare identifiers and no value holds a line break |
| OkfLoader.LoadConcept | memory/okf/bundle.go:152-198 | The loader's metadata: standard fields, title fallback, every other key as an extension |
| OkfRoundTrip.FieldReadsBackExactly | memory/okf/write.go:170-195 | A standard field comes back from Marshal and load as it was if and only if it has no line break and is empty or a readable scalar; the title if it is besides not empty or what the loader falls back to; the tags if they are the joined form of plain items; for other values without line breaks and an id without one |
| OkfRoundTrip.ExtraReadsBackExactly | memory/okf/write.go:40-51 | An extension comes back as it was if and only if its key is a bare identifier and no standard field, and its value is a printed list of plain items or a readable, non-empty scalar, without line breaks |
| OkfRoundTrip.RoundTripExactly | memory/okf/write.go:27-56 | Loading what Marshal prints gives back every standard field and exactly the extensions with their values if and only if every one of them meets its condition; then the body comes back too, up to trailing line breaks |
| OkfRoundTrip.LineBreakIsLost | memory/okf/write.go:170-178 | A standard field with a line break never comes back as it was |
| OkfRoundTrip.ApostropheIsLost | memory/okf/write.go:194 | A standard scalar field with an apostrophe never comes back as it was, where the other values hold no line break |
| OkfRoundTrip.EmptyExtensionIsLoaded | memory/okf/bundle.go:183-190 | The loader makes an empty extension of a line with a key and no value |
| OkfRoundTrip.EmptyExtensionIsLost | memory/okf/write.go:170-173 | Printing and loading such a document drops that extension |
| OkfRoundTrip.OrdinaryMetadataIsPrintable | memory/okf/bundle.go:175-190 | Ordinary metadata meets these conditions |
| OkfRoundTrip.PrintLoadPrint | memory/okf/write.go:27-56 | Printing, loading and printing again is printing once, for metadata that meets these conditions but for extensions without a value |
| Text.JoinOfSplit | cmd/galdor/spellbook.go:235 | Joining what was split at a separator gives the text back |
| Text.SplitOfJoin | memory/okf/frontmatter.go:44 | Splitting joined parts gives the parts back when none holds the separator |
| Text.ItoaInjective | pkg/memory/hybrid.go:141-161 | Different integers print differently |
| JsonScan.IndexOfText | internal/store/metrics.go:343-357 | The first place of the needle, or -1 when there is none |
| JsonScan.ExtractRaw | internal/store/metrics.go:304-339 | The loops read, behind the first place of the needle, a string up to its closing quote or a bare value up to a comma or brace |
| JsonScan.ParseIntPrefix | internal/store/metrics.go:377-401 | The loop reads the sign and the leading digits, or nothing |
| JsonScan.ExtractInt | internal/store/metrics.go:285-297 | The integer read from what the scan found |
| JsonScan.IntReadsBack | internal/store/metrics.go:377-401 | A printed integer, with or without a fraction, is read as that integer |
| JsonScan.NoDigitNoInt | internal/store/metrics.go:377-401 | A value is read as an integer exactly when it begins with a digit, or a minus and a digit |
| JsonObjects.FrontPiece | internal/store/metrics.go:304-309 | At one piece of a printed object the needle stands exactly at a key with its colon, or at a closing quote before a gap that spells the key and a string that begins with a colon; never inside a string |
| JsonObjects.FindIsFound | internal/store/metrics.go:343-357 | The scan stops at the first such place |
| JsonObjects.OrdinaryKeysAreSafe | internal/store/metrics.go:304-309 | A key that does not begin with a delimiter is never ambiguous |
| JsonObjects.PresentKeyPlace | internal/store/metrics.go:304-309 | For a key of the object the scan stops at that key's own place if and only if no gap before it spells the key with a colon behind |
| JsonObjects.UnambiguousHasNoGap | internal/store/metrics.go:304-309 | An unambiguous key has no such gap |
| JsonObjects.PresentKeyIsFound | internal/store/metrics.go:304-339 | Without such a gap before it, a key with a scalar value is answered with exactly the printed value, whatever the strings of the object contain and whatever follows |
| JsonObjects.PresentKeyCanBeMisread | internal/store/metrics.go:304-339 | An object with the key in which the lookup reads inside another key |
| JsonObjects.AbsentKeyIsNotFound | internal/store/metrics.go:304-309 | For an unambiguous absent key it answers nothing |
| JsonObjects.PresentIntIsFound | internal/store/metrics.go:285-297 | Without such a gap before it, an integer printed under the key is read as that integer |
| JsonObjects.AbsentKeyIsFoundExactly | internal/store/metrics.go:304-339 | An absent key is found exactly when a gap between two strings spells it, the second begins with a colon, and that string has more to offer or is not the last |
| JsonObjects.AbsentKeyCanBeFound | internal/store/metrics.go:304-339 | An object in which an absent key is found |

## Left out

- HTTP, SSE and stdio plumbing, session and Origin headers, subprocesses, storage and provider adapters: input and
  output around the logic.
- JSON encoding and decoding, SHA-256, UUIDs, gob, regular expressions: abstracted as a digest that tells apart what it
  encodes, fresh ids, a predicate saying which states a checkpointer can copy faithfully, frames with their id and
  method, links as given.
- Clocks: times are parameters of the A2A steps and absent elsewhere; timeouts and cancellation are steps that give up.
  In the graph runtime cancellation and hooks are left out, and a panic is a node or router that fails.
- Fields that only timestamp a task's status or a checkpoint.
- Aliasing of Go slices and maps: the model works on values, so that a handler's copy or a snapshot cannot change what
  is stored. That the copies in `pkg/a2a/protocol.go:225-267` are deep enough is not part of this model.
- Integer width: integers are unbounded, in step counters, ids and parsed numbers alike. Floating point: scores and
  decays are reals; nothing is claimed about rounding.
- Bytes and encodings: strings are sequences of characters, and token estimates count those.
- The sort package is modelled by an insertion sort that is proved to sort.
- `RunOptions` beyond step cap, run id, resume override and checkpointer; concurrent use of one checkpointer; its
  `History` and `Reset` methods.
- The streaming executor with a consumer that stops reading.
- Prompts, payloads and parsing of model replies: a planner, router or agent answers with an already parsed decision.
- `NewSupervisor` and `NewPlanAndExecute` as builders: their graphs are given as values, with the proof that Compile
  accepts such graphs, and their configuration checks are not modelled.
- The task text of a handoff plays no part in any claim.
- `WriteBundle`, index and log files, link resolution: formatting around the concept files.
- `extractAttr`'s unescaping, percentiles, the SQL around the scan.
- In the layout, the guard for a depth past the last column: it cannot happen, and the model does without it.
- Layering.Relax: does not say which nodes of a cyclic description are reached, because the clamp can cut some off.
- OkfGraph.Bundle.Neighborhood: does not state the order among concepts at one distance.
- JsonObjects.PresentKeyPlace: is stated for keys that print as themselves, because the scan looks for the key as it is
  and never for its escaped form; the keys of the object may hold escapes, but no quotes.
- OkfRoundTrip.RoundTripExactly: is stated for ids without line breaks, since the title can be taken from the id.
