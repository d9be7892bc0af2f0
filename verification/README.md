# Needle-factory, modelled and proved in Dafny

Needle-factory runs DOT graphs as pipelines. These modules model the code that decides what
runs, in which order and with which result, and prove what that code promises:

* **The pipeline engine** (`Engine`, `EngineTurns`, `EngineRuns`, `EngineLimits`,
  `EngineResume`, `PipelineEngines`). The engine is a state machine driven by what the world answers: the
  reply of the handler, the completions recorded by branches meanwhile, the decision of the
  troubleshooter, a cancellation. Answers are arbitrary, so a claim about every sequence of
  answers is a claim about every run. `Engine` is the specification; `PipelineEngines` holds
  the class whose methods update its fields in place, each proved equal to its part of it.
  `EngineTurns` says of every kind of turn, without naming the specification's own functions,
  which context, books, counters, checkpoint and node it leaves.
* **Graph algorithms** (`Graphs`, `Topology`, `RetryReset`, `EdgeSelection`,
  `EdgeConditions`): breadth-first searches with stop nodes, the nearest common fan-in, the
  depth-first closure behind `needle retry`, and the cascade that picks the next edge, with
  what a condition means and which edge is the chosen one stated on its own.
* **The DOT front end** (`DotLexing`, `DotParsing`, `DotPrinting`, `DotSources`,
  `DotSpellings`, `GraphBuilding`, `BuiltGraphs`, `BuiltFromAst`, `EdgeDefaults`,
  `Pipelines`): the lexer object with its cursor and one-token peek, the recursive-descent
  parser object, a canonical printer that exists for the round trip, and the builder that
  expands chains and nested subgraphs. `DotSources` is the concrete syntax with what it stands
  for, `DotSpellings` the ways its tokens can be written; `BuiltFromAst` says what of the AST
  each node has. `Pipelines` joins them to the engine.
* **Protocols around a run** (`ParallelBranches`, `ParallelHandling`, `ParallelThreads`,
  `BranchRuns`, `RunGuards`, `TroubleshootBackup`, `BackupTransactions`, `FanInMerging`): threads whose
  steps interleave in any order, move-only releasers over a shared map, a transaction over a
  modelled git repository, and the cherry-pick merge.
* **Text and trees** (`VariableExpansion`, `VariableMeanings`, `VariableTransforms`,
  `JsonPaths`, `Json`, `Checkpoints`, `YamlScalars`, `TextLines`, `Separated`).

What comes from outside is a parameter: handlers, edge conditions as read by their grammar,
node and graph hashes, the size limit of `Context::set` (`clip`), timestamps, the git calls
that may fail (an oracle), the threads' scheduler (a list of choices).

## Where the code and its comments disagree

The model follows the code.

* A stage that ends in `SKIP` enters the completed list (src/engine/pipeline_engine.cpp:189),
  although the comment at src/engine/pipeline_engine.cpp:301 says only successes do. Because
  resume restores every completed node as a success, a goal gate left unsatisfied by a skip
  passes after a resume (`EngineResume.SkippedGatePassesAfterResume`).
* Edge defaults are collected by the parser, and the builder says they are applied later, but
  nothing applies them (`EdgeDefaults.EdgeDefaultsIgnored`, `EdgeDefaults.EdgeDefaultLost`);
  which edges still carry what was promised is `EdgeDefaults.PromiseKeptExactly`.
* Success is meant to need every goal gate. The check keeps the unsatisfied gate in a string
  and takes "" for none, while ids can sanitize to "", so such a gate is passed over and the
  gates behind it are not looked at (`EngineRuns.NamelessGateGoesUnnoticed`,
  `Pipelines.NamelessGateExists`). What is enforced is `EngineRuns.GatesEnforcedExactly`;
  which pipelines are affected is `Pipelines.NamedExactly`.
* `pick_lexical` looks at every edge that passed the filter, not only the heaviest ones, so a
  tie in weight can be won by a lighter edge (`EdgeSelection.TieIgnoresWeight`); exactly when
  the winner is of greatest weight is `EdgeSelection.WinnerIsHeaviestExactly`.
* The reset of `needle retry` is meant to clear the context keys of the removed nodes. Its
  test also picks every key as long as the node's id, because a subtraction wraps to `npos`,
  and it misses some keys of the node (`RetryReset.ClearsUnrelatedKey`); exactly when it is
  right is `RetryReset.TestIsRightExactly`, and for the whole reset
  `RetryReset.ResetClearsExactly`.
* Resume writes the path of the graph file back into the context, from which a loop restart
  has taken it, so a condition that reads the path can send a resumed run elsewhere
  (`EngineResume.ResumeRestoresThePath`).
* Later defaults are meant to override earlier ones. For a node declared in a subgraph the
  first default in force wins instead, so the subgraph's own loses to an enclosing one
  (`BuiltGraphs.InnerDefaultLosesForDeclaredNodes`); exactly when the promise is kept is
  `BuiltGraphs.DefaultPromiseKeptExactly`.
* A fan-in is found only within 999999 edges; graphs with fewer nodes are never affected
  (`Topology.FanInChoiceOnSmallGraph`). A fan-in whose id is "" reads as no fan-in
  (`Topology.NamelessFanInReadsAsNone`).
* Releasing a run erases it from the map before the releaser's own flag is cleared, so for a
  moment two releasers can both have the flag set; the map still excludes
  (`RunGuards.FlagLagsBehindTheMap`).
* An agent that commits a change and then undoes it in the files blocks its own rollback
  (`BackupTransactions.CommittedThenUndoneIsRefused`).
* Branches keep their results under keys that contain their names, so an update of a later
  branch, such as one called "parallel", can land on what is kept of an earlier one; exactly
  when is `ParallelHandling.ReadableExactly`. A branch whose id is "" is also lost from the
  list the fan-in reads (`ParallelHandling.NamelessBranchDropped`).
* Merging configurations is not associative and expanding variables is not idempotent
  (`JsonPaths.MergeNotAssociative`, `VariableExpansion.SecondExpansionDiffers`); when they are
  is `JsonPaths.MergeGroupsExactly` and `VariableExpansion.SecondExpansionUnchanged`.

## Model

| member | source | states |
|---|---|---|
| EngineRuns.EveryRunIsGood | src/engine/pipeline_engine.cpp:437-913 | over every run on a graph whose recovery edges end in nodes (all edges, when troubleshooting can promote a node), through all failure routes, restarts and re-entries: the current node is a node of the graph, the completed list has no repeats and is covered by outcomes and hashes, no failure count passes the limit, and success means the exit was recorded complete and the goal gates are satisfied as far as the check enforces them, all of them when none has an empty id |
| EngineRuns.StepGood | src/engine/pipeline_engine.cpp:447-912 | one turn keeps that invariant, whatever completions concurrent branches recorded during it, and the condition on the graph |
| EngineRuns.GatesEnforcedExactly | src/engine/pipeline_engine.cpp:857-876 | the check succeeds exactly when every gate is satisfied or the first unsatisfied one has an empty id, which the test for an empty string passes over; with named gates, exactly when every gate is satisfied |
| EngineRuns.NamelessGateGoesUnnoticed | src/engine/pipeline_engine.cpp:857-876 | the failing input: a run whose unsatisfied gate has an empty id returns success |
| EngineRuns.RunOrigin | src/engine/pipeline_engine.cpp:437-913 | the graph of a run is at any time the one it started on or one that troubleshooting reloaded |
| Engine.FirstTarget | src/engine/pipeline_engine.cpp:677-697 | the first usable target of the cascade: those before it are empty or missing, and there is none exactly when all are |
| Engine.FirstUnsatisfied | src/engine/pipeline_engine.cpp:857-872 | the first gate in node order without a satisfying outcome, none exactly when every gate has one |
| EngineRuns.LaunchedRunIsGood | src/engine/pipeline_engine.cpp:207-294 | a run started afresh has the invariant throughout, with the gates enforced as there |
| EngineRuns.ResumedRunIsGood | src/engine/pipeline_engine.cpp:296-435 | so has a run resumed on a closed graph from a checkpoint the engine wrote, read back from its JSON; it starts from the same completed list |
| EngineRuns.RecordAllKeeps | src/engine/pipeline_engine.cpp:185-203 | any sequence of completions keeps the list free of repeats and covered by outcomes and hashes |
| EngineRuns.EdgeTargetExists | src/engine/pipeline_engine.cpp:762-812 | the edge taken leads to a node on a closed graph, and for a recovery already when recovery edges end in nodes |
| EngineRuns.AtFailureGood | src/engine/pipeline_engine.cpp:536-705 | a failing turn keeps the invariant through cycle detection, troubleshooting, conditional recovery and the retry-target cascade |
| EngineRuns.AtDoneGood | src/engine/pipeline_engine.cpp:707-812 | so does a turn that completes a node, with the fan-in jump and the loop restart |
| EngineRuns.AtExitGood | src/engine/pipeline_engine.cpp:824-903 | reaching the exit and checking the gates, one with an empty id not counting, ends well or re-enters at a node |
| EngineRuns.DanglingEdgeSkipsTheExit | src/engine/pipeline_engine.cpp:667-675 | why recovery edges must end in nodes: one to a missing node lets a run return success with the exit never recorded |
| EngineTurns.StageDone | src/engine/pipeline_engine.cpp:707-812 | a turn whose stage succeeds, partly succeeds or skips leaves a context in which every key of the reply's updates reads as its stored value, the status key as the status, and every other key as before; the node is recorded on top of the completions of branches, the checkpoint holds all of that, and the run goes to the fan-in a parallel stage names or along the edge chosen over that context, with the loop restart |
| EngineTurns.StageFails | src/engine/pipeline_engine.cpp:536-705 | a failing turn stores the updates and the status, counts its signature once and ends in a cycle exactly when the limit is reached; else the troubleshooter's decision, the conditional edge and the four retry targets are followed, with the checkpoint each route saves |
| EngineTurns.StageRetries | src/engine/pipeline_engine.cpp:498-535 | a stage that asks for a retry stays, with its counter one higher and nothing stored, exactly while its count is below the limit its attributes give; else it completes as a partial success if it permits that, and otherwise ends the run |
| EngineTurns.StageBroken | src/engine/pipeline_engine.cpp:475-494 | a stage without a handler, or whose handler raises an error, ends the run with that error |
| EngineTurns.ExitReached | src/engine/pipeline_engine.cpp:824-903 | whatever the handler of the exit answers, the exit is recorded as a success and saved, with the updates of an answer in the context, and the gates are checked |
| EngineTurns.GatesAreChecked | src/engine/pipeline_engine.cpp:857-903 | the first unsatisfied gate decides: the run goes to the first usable of its two and the graph's two retry targets, in this order, or ends; without one it succeeds |
| EngineTurns.NothingRuns | src/engine/pipeline_engine.cpp:437-460 | a cancelled turn ends the run and changes nothing; one that stands nowhere only checks the gates |
| EngineTurns.LaunchStands | src/engine/pipeline_engine.cpp:207-294 | a fresh run stands on the first start node and ends at the first exit, with empty books and counts, the caller's context with the graph path, and the limit the graph's attribute gives if it is a positive number |
| EngineTurns.ResumeStands | src/engine/pipeline_engine.cpp:296-423 | a resume is refused exactly as stated there, and otherwise has the checkpoint's list, hashes, counters and context with every completed node a success; it stands on the checkpoint's node or, if that has completed, where a plain success with the selected label leads |
| EngineTurns.TargetRetries | src/engine/pipeline_engine.cpp:677-697 | the node's retry target comes before its fallback, and both before the graph's two; the first that names a node is taken |
| EngineTurns.RestartKeeps | src/engine/pipeline_engine.cpp:776-790 | a loop restart keeps exactly the keys that begin with "var." or "graph." |
| EngineTurns.SaveWrites | src/engine/pipeline_engine.cpp:1140-1184 | a checkpoint names its node and time and holds lists, hashes, counters and context, the graph's hash and the configured files, and a worktree for every branch the context names one for |
| EngineTurns.RecordedInOrder | src/engine/pipeline_engine.cpp:185-203 | completions are recorded one after another in their order |
| EngineLimits.StepCounts | src/engine/pipeline_engine.cpp:556-568 | a turn adds one to the signature of its failure and to no other, and changes the retry counters only by the node's own retry and those of subgraphs |
| EngineLimits.CountersAreTheLog | src/engine/pipeline_engine.cpp:556-568 | the counters are exactly the failures of the run so far: neither restart nor gate re-entry resets one |
| EngineLimits.FailuresAreBounded | src/engine/pipeline_engine.cpp:556-568 | with troubleshooting off, N nodes and at most K error prefixes among the failures of any one node, a run has at most N\*K\*(limit-1) failures while going and one more in all |
| EngineLimits.RetriesStayWithinPolicy | src/engine/retry_controller.cpp:7-22 | over a run no node is retried more often than its policy allows, with the retries of subgraphs that pass the same test on the same counters |
| EngineResume.ResumeTakesTheSameEdge | src/engine/pipeline_engine.cpp:296-423 | resuming from a success's checkpoint, written to JSON and read back, restores the completed list and continues at the node the uninterrupted run continues at, for a non-parallel node without suggestions whose label is the selected one, unless the edge restarts the loop; also after a loop restart, which takes the graph path out of the context, if no condition on an edge out of the node reads that path |
| EngineResume.SuccessIsJustSaved | src/engine/pipeline_engine.cpp:711-763 | this is the state in which the engine chooses the edge out of a success |
| EngineResume.NotBlockedOnSameGraph | src/engine/pipeline_engine.cpp:346-362 | a resume on an unedited graph holding all completed nodes is not refused |
| EngineResume.ChoiceAlike | src/engine/edge_selector.cpp:8-47 | the choice of an edge depends on nothing of an outcome but status, label and suggestions |
| EngineResume.ChoiceBesidePath | src/engine/edge_selector.cpp:49-86 | nor on the graph path in the context, if no condition reads it |
| EngineResume.GateVerdictAfterResume | src/engine/pipeline_engine.cpp:296-310 | which gates are satisfied after a resume: those before, and those whose node completed with another outcome |
| EngineResume.SkippedGatePassesAfterResume | src/engine/pipeline_engine.cpp:301-310 | a gate that a skip left unsatisfied is satisfied after a resume |
| EngineResume.ResumeForgetsSuggestions | src/engine/pipeline_engine.cpp:404-411 | with a suggested next node a resume can take another edge: why the condition is needed |
| EngineResume.ResumeRestoresThePath | src/engine/pipeline_engine.cpp:318-323 | why the path must not be read: two edges on which the path that resume writes back turns the choice |
| PipelineEngines.PipelineEngine.RecordNodeCompletion | src/engine/pipeline_engine.cpp:185-203 | the fields become those of the recording step, found by the loop over the list |
| PipelineEngines.PipelineEngine.RecordAttempts | src/engine/retry_controller.cpp:12-14 | each recorded attempt adds one to its node's counter |
| PipelineEngines.PipelineEngine.SelectNextEdge | src/engine/pipeline_engine.cpp:1122-1138 | the selector's choice among the outgoing edges; a selector from the configuration is of the same class, which has no fields and no virtual member, and chooses the same |
| PipelineEngines.PipelineEngine.SaveCheckpoint | src/engine/pipeline_engine.cpp:1140-1184 | the checkpoint saved holds the state's lists, counters and context |
| PipelineEngines.PipelineEngine.Complete | src/engine/pipeline_engine.cpp:707-762 | refines the completing turn: context, record, save, fan-in jump or next edge; what that leaves is EngineTurns.StageDone |
| PipelineEngines.PipelineEngine.AdvanceTo | src/engine/pipeline_engine.cpp:763-812 | refines the move along the next edge, with the loop restart |
| PipelineEngines.PipelineEngine.Fail | src/engine/pipeline_engine.cpp:536-575 | refines the failing turn: context updates, signature count, cycle detection |
| PipelineEngines.PipelineEngine.Troubleshoot | src/engine/pipeline_engine.cpp:575-655 | refines the four outcomes of troubleshooting |
| PipelineEngines.PipelineEngine.RecoverFrom | src/engine/pipeline_engine.cpp:657-705 | refines recovery by a conditional edge or the cascade of retry targets |
| PipelineEngines.PipelineEngine.Execute | src/engine/pipeline_engine.cpp:475-535 | refines the handling of a reply, with retries and allow_partial |
| PipelineEngines.PipelineEngine.FindUnsatisfied | src/engine/pipeline_engine.cpp:857-872 | the loop finds the id of the first unsatisfied gate, "" when there is none |
| PipelineEngines.PipelineEngine.CheckGoalGates | src/engine/pipeline_engine.cpp:857-903 | refines the gate check: the first unsatisfied gate by its id, the empty id meaning none, and its retry target |
| PipelineEngines.PipelineEngine.Finish | src/engine/pipeline_engine.cpp:824-855 | refines the turn at the exit node, ending in that check |
| PipelineEngines.PipelineEngine.TakeTurn | src/engine/pipeline_engine.cpp:447-912 | refines one step of the state machine |
| PipelineEngines.PipelineEngine.ExecuteLoop | src/engine/pipeline_engine.cpp:437-913 | the loop over turns refines the run of the state machine, whose turns are pinned by EngineTurns.StageDone, StageFails, StageRetries and ExitReached, and has its invariant, success meaning the exit complete and the gates enforced as above |
| PipelineEngines.PipelineEngine.LaunchOn | src/engine/pipeline_engine.cpp:207-294 | refines the launch and is refused exactly when the start or the exit is missing |
| PipelineEngines.PipelineEngine.RunGraph | src/engine/pipeline_engine.cpp:207-294 | a run refines the machine's run from its launch and has the invariant when the graph's recovery edges end in nodes, success meaning the exit complete and the gates enforced as above |
| PipelineEngines.PipelineEngine.RestoreFrom | src/engine/pipeline_engine.cpp:296-423 | restoring refines the machine's resume and is refused exactly when it is |
| PipelineEngines.PipelineEngine.SkipCompleted | src/engine/pipeline_engine.cpp:397-420 | a completed node is stepped past along the edge a plain success takes |
| PipelineEngines.PipelineEngine.ResumeFrom | src/engine/pipeline_engine.cpp:296-435 | a resumed run refines the machine's run and has the invariant on a closed graph, success meaning the exit complete and the gates enforced as above |
| Topology.CollectReachable | src/engine/subgraph_topology.cpp:6-39 | exactly the nodes with a path from the start that leaves no stop node; terminates by unvisited nodes, then queue |
| Topology.CollectLoopBody | src/engine/subgraph_topology.cpp:131-142 | exactly the nodes reachable from the first body node without leaving the manager |
| Topology.FanInsFrom | src/engine/subgraph_topology.cpp:50-82 | exactly the fan-ins reachable without crossing a fan-in |
| Topology.ShortestDistance | src/engine/subgraph_topology.cpp:104-126 | a queue search returns the length of a shortest walk, and none exactly when there is none |
| Topology.FindCommonFanIn | src/engine/subgraph_topology.cpp:41-129 | "" when no fan-in is common to all branches, the one that is common, or the common fan-in nearest to any branch start within the initial distance, ties to the least id |
| Topology.PickNearest | src/engine/subgraph_topology.cpp:100-128 | the nested loops over fan-ins and starts find that minimum |
| Topology.FanInChoiceIgnoresOrder | src/handlers/parallel_handler.cpp:57-144 | that answer is unique and does not depend on the order of the branches, so the handler's copy of the search computes the same |
| Topology.FanInChoiceOnSmallGraph | src/engine/subgraph_topology.cpp:102-103 | with no more nodes than the initial distance the answer is the nearest common fan-in, missing nodes or not; it reads as "none" exactly when there is none or the nearest has an empty id |
| Topology.NamelessFanInReadsAsNone | src/handlers/parallel_handler.cpp:162-171 | a graph whose branches meet at a fan-in with an empty id, for which the answer reads as none |
| Topology.ShortestWalkIsShort | src/engine/subgraph_topology.cpp:104-126 | a shortest walk visits no node twice, so it is shorter than the number of nodes |
| RetryReset.ReachableFrom | src/model/graph.cpp:134-150 | the stack search, duplicates and all, returns exactly the transitive closure |
| RetryReset.ResetCompleted | src/cli/router.cpp:1903-1916 | the survivors are the completed nodes not reachable from the target, in their original order |
| RetryReset.NoSurvivorBehindTarget | src/cli/router.cpp:1903-1914 | no successor of a removed node survives |
| RetryReset.WithoutKeepsOrder | src/cli/router.cpp:1907-1913 | cut the list anywhere: the survivors of the front come before those of the back |
| RetryReset.ClearsKeyExactly | src/cli/router.cpp:1919-1927 | which context keys one removed node's test picks, as an equivalence |
| RetryReset.TestIsRightExactly | src/cli/router.cpp:1919-1927 | the test tells whether a key belongs to a node, its id being an inner or the last component, exactly when the key is not as long as the id and the id as last component is not preceded by something that begins like it |
| RetryReset.ClearKeys | src/cli/router.cpp:1918-1927 | the loops over all keys and all removed nodes empty exactly the keys some removed node's test picks |
| RetryReset.ResetClearsExactly | src/cli/router.cpp:1918-1927 | the reset clears the keys that belong to some removed node and no others exactly when, for every key not empty already: if it belongs to some, one of them does not miss it or is as long; if to none, none is as long |
| RetryReset.ClearsUnrelatedKey | src/cli/router.cpp:1919-1927 | two keys on which "clear the keys of removed nodes" fails, one each way |
| EdgeSelection.FilterByCondition | src/engine/edge_selector.cpp:49-86 | the loop keeps the matching edges, or the unconditional ones when none matches; which edges match is EdgeConditions.JudgedByMeaning |
| EdgeSelection.PickHighestWeight | src/engine/edge_selector.cpp:117-152 | the one edge that outweighs every other, or none on a tie |
| EdgeSelection.PickLexical | src/engine/edge_selector.cpp:154-166 | the first edge with the least target |
| EdgeSelection.Select | src/engine/edge_selector.cpp:8-47 | the cascade of the five steps; the edge it picks is the chosen one of EdgeConditions.ChoiceIsTheChosen |
| EdgeSelection.ChoiceRespectsConditions | src/engine/edge_selector.cpp:8-86 | an edge is chosen exactly when one is not rejected; it is one of the candidates, and matches unless none does |
| EdgeSelection.HeaviestWins | src/engine/edge_selector.cpp:38-42 | without preference the single heaviest edge is chosen |
| EdgeSelection.TieGoesToLeastTarget | src/engine/edge_selector.cpp:44-46 | without preference or single heaviest edge, the least target wins |
| EdgeSelection.WinnerIsHeaviestExactly | src/engine/edge_selector.cpp:36-47 | without preference the edge chosen is of greatest weight exactly when one edge outweighs the others or the one with the least target is of greatest weight |
| EdgeSelection.TieIgnoresWeight | src/engine/edge_selector.cpp:148-166 | three edges on which the tie is won by the lightest |
| EdgeConditions.ClauseMeans | include/needle/model/condition.h:28-52 | a clause holds exactly when what its variable reads, the status name, the label, the context's value or nothing for any other variable, equals its value letter by letter whatever the case, or, with "!=", does not |
| EdgeConditions.OperatorsOppose | include/needle/model/condition.h:43-46 | of "=" and "!=" with the same variable and value exactly one holds |
| EdgeConditions.OutcomeClause | include/needle/model/condition.h:31-32 | `outcome=` holds exactly of the name of the status, in any case |
| EdgeConditions.ContextClause | include/needle/model/condition.h:35-37 | `context.key=` compares what the context holds under the key, nothing when it is not there |
| EdgeConditions.JudgedByMeaning | src/engine/edge_selector.cpp:57-79 | an edge matches exactly when its condition is read and every clause holds, and is unconditional exactly when it has none or an empty one |
| EdgeConditions.ChoiceIsTheChosen | src/engine/edge_selector.cpp:8-166 | the choice is exactly the edge with these properties, and there is none exactly when no edge is left: among the matching edges, or the unconditional ones if none matches, the first with the preferred label, else the first to the first suggestion that has an edge, else the one edge heavier than all others, else the first with the least target |
| EdgeConditions.OppositeEdges | src/engine/edge_selector.cpp:8-86 | of two edges with `outcome=value` and `outcome!=value` the first is taken exactly when the status has that name, and the second otherwise |
| EdgeConditions.ParseIntExactly | src/model/attribute_map.cpp:20-35 | a text is a number exactly when it is blanks, a sign or none, and digits that fit in 32 bits, with nothing behind them |
| EdgeConditions.WeightExactly | src/model/graph.cpp:51-54 | an edge weighs what its attribute says as a number, and nothing when it is missing or unreadable |
| Graphs.OutgoingEdges | src/model/graph.cpp:114-122 | exactly the edges out of a node, in order |
| DotLexing.DotLexer.NextToken | src/parser/dot_lexer.cpp:56-123 | the next token depends only on the position after the tokens taken so far, so no interleaving of peeks changes the sequence; every token but end-of-file advances the cursor, and line and column match the newlines passed |
| DotLexing.DotLexer.Peek | src/parser/dot_lexer.cpp:48-54 | a peek returns the token the next call will return and leaves that call's answer unchanged |
| DotLexing.DotLexer.Scanned | src/parser/dot_lexer.cpp:56-123 | the cursor scans the lexeme of the text in front of it |
| DotLexing.DotLexer.SkipWhitespaceAndComments | src/parser/dot_lexer.cpp:125-167 | the cursor stops at the first character that is no blank and starts no comment |
| DotLexing.DotLexer.ReadQuotedString | src/parser/dot_lexer.cpp:199-239 | escapes are undone, and the limit and a missing quote are errors |
| DotLexing.DotLexer.ReadHtmlString | src/parser/dot_lexer.cpp:241-274 | balanced brackets are read to the matching one |
| DotLexing.DotLexer.ReadNumber | src/parser/dot_lexer.cpp:276-303 | a sign, digits, and a point with digits |
| DotLexing.DotLexer.ReadIdentifierOrKeyword | src/parser/dot_lexer.cpp:169-197 | a word, and its keyword whatever its case |
| DotLexing.DotLexer.Advance | src/parser/dot_lexer.cpp:25-35 | one character on, with line and column |
| DotLexing.Lex | src/parser/dot_lexer.cpp:56-123 | every token but end-of-file takes at least one character |
| DotParsing.DotParser.Parse | src/parser/dot_parser.cpp:42-87 | the parser object returns what the grammar says of its tokens and stops where it stops; what that is of any source is DotSources.SourceRead and ParsesExactly |
| DotParsing.DotParser.ParseStmtInto | src/parser/dot_parser.cpp:115-181 | likewise one statement, deciding between nodes, edges, defaults and subgraphs |
| DotParsing.DotParser.ParseStmtListInto | src/parser/dot_parser.cpp:93-109 | likewise the statements up to the closing brace |
| DotParsing.DotParser.ParseEdgeStmt | src/parser/dot_parser.cpp:198-227 | likewise a chain of any length with its attributes |
| DotParsing.DotParser.ParseNodeStmt | src/parser/dot_parser.cpp:183-196 | likewise a node with its attributes |
| DotParsing.DotParser.ParseAttrList | src/parser/dot_parser.cpp:229-285 | likewise an attribute list; values of all four kinds are read as their text, see DotSources.SourceRead |
| DotParsing.DotParser.ParseSubgraph | src/parser/dot_parser.cpp:287-316 | likewise a subgraph, to any depth, by remaining input |
| DotPrinting.ParsingUndoesPrinting | src/parser/dot_parser.cpp:42-316 | reading the printed text of any AST within the lexer's limits gives exactly that AST, nothing left over |
| DotPrinting.GraphBack | src/parser/dot_parser.cpp:42-316 | the same on tokens, with nested subgraphs, defaults, chains and attributes |
| DotPrinting.SubgraphBack | src/parser/dot_parser.cpp:287-316 | a printed subgraph parses back, its own subgraphs included |
| DotPrinting.EscapedBack | src/parser/dot_lexer.cpp:199-239 | the quoted-string reader returns s for every escaped s within the limit, in double or single quotes |
| DotPrinting.RenderedBack | src/parser/dot_lexer.cpp:56-123 | the tokens of a rendered list of tokens are that list |
| DotPrinting.ParsePrinted | src/parser/dot_parser.cpp:38-87 | the parser object, given a printed AST, returns it |
| DotSources.SourceRead | src/parser/dot_parser.cpp:42-316 | every source is read as what it stands for and what comes behind it is left: keys quoted or not, values words, quoted or HTML strings or numbers, node ids quoted or not, separators a comma, a semicolon or absent, bare and named subgraphs, default and graph statements, to any depth |
| DotSources.ParsesExactly | src/parser/dot_parser.cpp:42-316 | the parser reads a graph from tokens exactly when they are a source that stands for it followed by the rest |
| DotSpellings.TokenRead | src/parser/dot_lexer.cpp:56-303 | a token is read as what it stands for however it is spelled: keywords in any case, quotes of either kind with escapes, nested angle brackets, signed and fractional numbers, symbols and words |
| DotSpellings.GapsSkipped | src/parser/dot_lexer.cpp:125-167 | blanks and the three kinds of comment between tokens are skipped, and nothing behind them |
| DotSpellings.OpenCommentTakesAll | src/parser/dot_lexer.cpp:125-167 | a comment that never ends takes the rest of the text |
| DotSpellings.TextRead | src/parser/dot_lexer.cpp:56-303 | a text is read as its tokens, however they are spelled and spaced |
| DotSpellings.TextParses | src/parser/dot_parser.cpp:42-316 | a text whose tokens are those of a source is parsed as what the source stands for |
| DotSpellings.WordTooLong | src/parser/dot_lexer.cpp:169-197 | a word longer than the limit is an error |
| DotSpellings.QuotedTooLong | src/parser/dot_lexer.cpp:199-239 | so is a quoted string longer than its limit |
| DotSpellings.NeverClosed | src/parser/dot_lexer.cpp:199-239 | and one that is never closed |
| GraphBuilding.SanitizeNodeId | src/parser/graph_builder.cpp:201-212 | the id keeps exactly its allowed characters, in order |
| GraphBuilding.SanitizedAgain | src/parser/graph_builder.cpp:201-212 | sanitizing twice is sanitizing once |
| GraphBuilding.GraphBuilder.Build | src/parser/graph_builder.cpp:7-77 | the node table and edge list filled in place are those the AST describes; which edges those are is EdgeDefaults.EdgesFollowChains, and which nodes and values BuiltFromAst.NodesAreWritten and StatementDecides |
| GraphBuilding.GraphBuilder.ExpandEdgeChains | src/parser/graph_builder.cpp:126-139 | a chain adds an edge for each of its links, in order, from its first id to its second (EdgeDefaults.EdgesFollowChains) |
| GraphBuilding.GraphBuilder.AddTopNodes | src/parser/graph_builder.cpp:7-77 | declared nodes get their own attributes over the defaults |
| GraphBuilding.GraphBuilder.AddTopEdges | src/parser/graph_builder.cpp:7-77 | edge ends become nodes with the defaults under what they have |
| GraphBuilding.GraphBuilder.AddSubEdges | src/parser/graph_builder.cpp:141-199 | edge ends first met in a subgraph get the defaults offered there |
| GraphBuilding.GraphBuilder.ExpandSubgraph | src/parser/graph_builder.cpp:141-199 | a subgraph adds its nodes, edges and inner subgraphs with the defaults offered to it |
| BuiltGraphs.NodesOfBuilt | src/parser/graph_builder.cpp:7-77 | ids are unique, and each node has its row's attributes and the type they resolve to |
| BuiltGraphs.BuiltIsClosed | src/parser/graph_builder.cpp:7-199 | both ends of every edge are nodes, for every AST with nested subgraphs |
| BuiltGraphs.EdgeCount | src/parser/graph_builder.cpp:126-199 | there are as many edges as links in all chains at all depths |
| BuiltGraphs.AttributeValue | src/parser/graph_builder.cpp:107-124 | an attribute's value, over any order of mentions: its last explicit value, else the first default in force |
| BuiltGraphs.ExplicitBeatsDefault | src/parser/graph_builder.cpp:7-199 | in the built graph an explicit value beats every default, whatever the order of mention |
| BuiltGraphs.InnerDefaultLosesForDeclaredNodes | src/parser/graph_builder.cpp:141-199 | the graph built from a subgraph with its own default for a key: for a node declared in it the enclosing default wins, for one first met as an edge end its own, which is the one promised to both |
| BuiltGraphs.DefaultPromiseKeptExactly | src/parser/graph_builder.cpp:11-199 | a built node has the value its statements and the innermost default of its first mention with one promise exactly when it assigns the key itself or that mention is not a declaration in a subgraph whose defaults in force give the key a first value other than the last |
| EdgeDefaults.EdgesFollowChains | src/parser/graph_builder.cpp:126-139 | there is one edge for every two neighbours of a chain, at any depth and in order, and it goes from the first id to the second, both sanitized |
| BuiltFromAst.NodesAreWritten | src/parser/graph_builder.cpp:36-73 | the nodes are exactly the ids written in a node statement or a chain, at any depth, sanitized |
| BuiltFromAst.StatementDecides | src/parser/graph_builder.cpp:36-46 | a node has under a key what the last of its statements to assign it says |
| BuiltFromAst.TopDefault | src/parser/graph_builder.cpp:15-58 | a node written at top level whose statements do not assign the key has what the last `node` statement at top level to assign it says |
| BuiltFromAst.LastDefault | src/parser/graph_builder.cpp:19-26 | what default statements say of a key is what the last of them to assign it says |
| BuiltFromAst.GraphAttribute | src/parser/graph_builder.cpp:107-124 | the graph's attributes are those of the top-level `graph` statements, the last one winning |
| BuiltFromAst.TypeOfNode | src/parser/graph_builder.cpp:79-105 | the llmkit handler, then the shape in any case, decides the type; every other node runs code generation |
| BuiltFromAst.SanitizedByCharacter | src/parser/graph_builder.cpp:201-212 | letters, digits, `_`, `.` and `-` stay in an id, in their order, and nothing else |
| EdgeDefaults.EdgeDefaultsIgnored | src/parser/graph_builder.cpp:7-199 | the graph built from any AST is the one built with its edge defaults dropped at every depth |
| EdgeDefaults.PromiseKeptExactly | src/parser/graph_builder.cpp:67-139 | an edge, at any depth, carries the value its chain and the edge defaults in force promise exactly when the chain assigns the key itself or no such default names it |
| EdgeDefaults.EdgeDefaultLost | src/parser/graph_builder.cpp:67-139 | a graph of one edge with an edge default that the built edge lacks |
| Pipelines.BuiltPipelinesRunWell | src/engine/pipeline_engine.cpp:207-294 | a run on the graph built and expanded from any AST never loses its current node and succeeds only with the exit complete and the gates satisfied as far as they are enforced: all of them, when no goal gate's id sanitizes to "" |
| Pipelines.NamedExactly | src/parser/graph_builder.cpp:201-212 | a built graph, expanded or not, has a goal gate with an empty id exactly when the AST makes a node whose id sanitizes to "" a goal gate |
| Pipelines.NamelessGateDisablesTheCheck | src/engine/pipeline_engine.cpp:857-876 | such a gate comes first in the node table, so while it is unsatisfied no other gate is enforced |
| Pipelines.NamelessGateExists | src/parser/graph_builder.cpp:201-212 | an AST with such a gate |
| Pipelines.PreparedIsClosed | src/parser/graph_builder.cpp:7-199 | building and expanding give a closed graph |
| Pipelines.BuiltReloadsAreClosed | src/engine/pipeline_engine.cpp:67-85 | so do reloads during a run |
| Pipelines.BuildFromText | src/parser/graph_builder.cpp:7-77 | parsing a printed AST and building gives the graph the AST describes |
| ParallelBranches.ScheduleDoesNotMatter | src/handlers/parallel_handler.cpp:228-313 | any two interleavings that finish, and cancel each branch at the same point if they cancel, leave every branch with the same result and context |
| ParallelBranches.BranchesRunAlone | src/engine/pipeline_engine.cpp:937-1107 | whatever the interleaving, cancelled or not, with an inclusive end or not, a branch is where its own moves before and after the cancellation alone take it |
| ParallelBranches.OneAfterAnother | src/handlers/parallel_handler.cpp:228-313 | if an uncancelled interleaving finishes, running the branches one after another finishes with the same results |
| ParallelBranches.SameCompletedSet | src/engine/pipeline_engine.cpp:185-203 | the set of completed nodes does not depend on the interleaving, for interleavings that cancel alike |
| ParallelBranches.CompletedInEveryInterleaving | src/engine/pipeline_engine.cpp:185-203 | a node is completed exactly when it was before or some branch alone completes it |
| ParallelBranches.BooksStayKept | src/engine/pipeline_engine.cpp:185-203 | concurrent completions keep the list free of repeats and covered |
| ParallelBranches.SameOutcomes | src/engine/pipeline_engine.cpp:185-203 | when no node is completed by two branches, outcomes and hashes do not depend on the interleaving either |
| ParallelBranches.DisjointBodiesStayApart | src/handlers/parallel_handler.cpp:228-313 | branches whose bodies on the graph share no node never complete the same node, also with parallel and manager-loop stages in them, whose own subgraphs record nodes reachable from them before the end |
| ParallelBranches.SharedOutcomeExactly | src/engine/pipeline_engine.cpp:185-203 | the outcome recorded of a node, shared or not, is the same for every interleaving exactly when all branches that complete it publish the same last status for it |
| ParallelBranches.LastBranchDecides | src/engine/pipeline_engine.cpp:185-203 | for every branch there is an interleaving with the same moves in which its last status for a node is the one recorded |
| ParallelHandling.PlanBranches | src/handlers/parallel_handler.cpp:201-308 | finished branches are carried, failed setups skipped, the others launched in a clone of the context |
| ParallelHandling.PlanBranch | src/handlers/parallel_handler.cpp:228-297 | one branch: carried, skipped with its failure recorded, or launched with its worktree in a clone of the context |
| ParallelHandling.LaunchedContext | src/handlers/parallel_handler.cpp:235-284 | a launched branch sees the run's context, changed at most in where its worktree is |
| ParallelHandling.MergeBranches | src/handlers/parallel_handler.cpp:315-405 | the outcome is the join of the results: namespaced updates, status and output of each branch, join keys, verdict |
| ParallelHandling.Join | src/handlers/parallel_handler.cpp:351-386 | success under first_success, threshold or wait_all exactly as each is defined over the results |
| ParallelHandling.JoinIgnoresOrder | src/handlers/parallel_handler.cpp:351-386 | the verdict does not depend on the order of the branches |
| ParallelHandling.MergeIsDeterministic | src/handlers/parallel_handler.cpp:228-405 | for every uncancelled interleaving, merged updates and join status equal those of running the branches one after another |
| ParallelHandling.BranchReadable | src/handlers/parallel_handler.cpp:322-349 | after the merge a branch's status and output can be read under its own name, if no later branch's name and a dot begin its keys |
| ParallelHandling.ReadableExactly | src/handlers/parallel_handler.cpp:322-349 | for distinct targets, that holds for all results exactly when no later branch's name and a dot begin the branch's status or output key |
| ParallelHandling.ShadowsByName | src/handlers/parallel_handler.cpp:336-348 | such a name is "parallel", which always is one, or begins with "parallel." |
| ParallelHandling.FailureKept | src/handlers/parallel_handler.cpp:315-349 | a branch without an outcome keeps what its setup recorded, if no branch with an outcome has such a name |
| ParallelHandling.JoinKeysApart | src/handlers/parallel_handler.cpp:388-403 | the keys of the join itself overwrite nothing kept of a branch |
| ParallelHandling.RerunCarriesTheSuccesses | src/handlers/parallel_handler.cpp:201-214 | running the node again carries a branch exactly if it had succeeded, with its output, under the same condition on names |
| ParallelHandling.SetupRecordsHold | src/handlers/parallel_handler.cpp:228-297 | setting the branches up leaves nothing but failures under status keys, as the rerun needs |
| ParallelHandling.BranchListBack | src/handlers/fan_in_handler.cpp:87-95 | the fan-in handler reads the branches that were listed exactly when none has an empty id or a comma in it |
| ParallelHandling.NamelessBranchDropped | src/handlers/fan_in_handler.cpp:87-95 | a branch whose id sanitizes to "" is lost from the list |
| ParallelHandling.ParseBranches | src/handlers/fan_in_handler.cpp:87-95 | the non-empty fields between commas |
| ParallelThreads.BranchThread.TakeMove | src/engine/pipeline_engine.cpp:957-1043 | one step of a thread refines the move: publish under the mutex, go on with the loop unless cancelled, or run the end node |
| ParallelThreads.BranchThread.ExecuteSubgraph | src/engine/pipeline_engine.cpp:937-1107 | the loop, cancelled or not, and the inclusive end run alone record what they publish in order; the result is that of BranchRuns.FinishedRuns |
| ParallelThreads.RunThreads | src/handlers/parallel_handler.cpp:298-313 | threads run by any scheduler, and cancelled at any point, reach the state the interleaving says |
| ParallelThreads.JoinThreads | src/handlers/parallel_handler.cpp:308-313 | the results of all branches, once every thread is done |
| ParallelThreads.Execute | src/handlers/parallel_handler.cpp:153-405 | the handler from edges to outcome: nearest common fan-in, launch, join, for every schedule; the books and the cancellation are those of the interleaving; what each branch answers and what is kept of it is BranchRuns.BranchIsJoined |
| ParallelThreads.HandlerBooksAgree | src/handlers/parallel_handler.cpp:153-405 | for the branches the handler launches, nested stages included, if no node can be run by two of them before the fan-in, any two complete schedules that cancel alike leave the same outcomes, hashes and completed nodes |
| ParallelThreads.JoinedGoesToFanIn | src/engine/pipeline_engine.cpp:727-760 | after a successful join the engine records the parallel node and stands on the common fan-in, so no branch start but a fan-in is run again |
| BranchRuns.FinishedRuns | src/engine/pipeline_engine.cpp:956-1106 | a branch that finishes has run a chain of stages, each started where the chosen edge of the one before leads and in the context it left; result, context and records are those of the chain |
| BranchRuns.LastStageAnswers | src/engine/pipeline_engine.cpp:1035-1106 | a branch that ran a stage and answers without an error answers what the handler of its last stage replied, unless it gave that stage up |
| BranchRuns.BranchAnswers | src/handlers/parallel_handler.cpp:298-314 | under every schedule the answer of a launched branch is that of its own chain of stages from its target, in the context it was given |
| BranchRuns.BranchIsJoined | src/handlers/parallel_handler.cpp:298-405 | the updates of the parallel stage hold the status, output and namespaced updates of what each branch's chain answers, except where a later branch or the join itself puts something under the same key |
| BranchRuns.LastPutStays | src/handlers/parallel_handler.cpp:322-349 | under every key the merge holds what the last branch that puts something there put |
| BranchRuns.NothingPutStays | src/handlers/parallel_handler.cpp:315-349 | where no branch puts anything, the merge leaves what the setup left |
| BranchRuns.JoinKeysHold | src/handlers/parallel_handler.cpp:388-403 | the join records the fan-in, the number of branches in digits, the policy and the list of branches, and leaves every other key |
| BranchRuns.JoinDecides | src/handlers/parallel_handler.cpp:351-386 | one success under first_success, as many successes, partial ones included, as the attribute asks for, or two, under threshold, and otherwise no failure of a branch or of its setup |
| BranchRuns.SetupExactly | src/handlers/parallel_handler.cpp:201-297 | a branch whose success is in the context is carried with its output; otherwise it gets the run's context, its worktree is recorded, or the failure of its worktree is recorded under its status, output and annotation |
| BranchRuns.SetupsInOrder | src/handlers/parallel_handler.cpp:228-297 | the setups are recorded one after another, a later one winning |
| RunGuards.ActiveRunsAreTheAcquired | src/engine/run_guard.cpp:24-76 | between operations, in every interleaving of reserve, move and destroy, the map holds exactly the non-empty run ids of live acquired releasers, no two of them alike |
| RunGuards.EveryInterleavingIsExclusive | src/engine/run_guard.cpp:24-76 | the same between half-operations: every run in the map has exactly one owner |
| RunGuards.ReservedWhenUnowned | src/engine/run_guard.cpp:54-76 | in any reachable state an id can be reserved exactly when it is empty or unowned |
| RunGuards.FlagLagsBehindTheMap | src/engine/run_guard.cpp:47-52 | the flag alone does not exclude: five steps after which two releasers have it |
| RunGuards.RunGuard.TryReserve | src/engine/run_guard.cpp:73-76 | a releaser is made exactly when the run is available, and then holds it |
| RunGuards.RunGuard.TryAcquire | src/engine/run_guard.cpp:54-65 | true exactly when the run is available, which then is marked active |
| RunGuards.RunGuard.Release | src/engine/run_guard.cpp:67-71 | the run is no longer active; an empty id changes nothing |
| RunGuards.GuardReleaser.Move | src/engine/run_guard.cpp:31-35 | the new releaser has what the source had, and the source is left free |
| RunGuards.GuardReleaser.Assign | src/engine/run_guard.cpp:37-45 | what was held is released, what the source held is taken, the source is left free; nothing on self-assignment |
| RunGuards.GuardReleaser.ReleaseIfAcquired | src/engine/run_guard.cpp:47-52 | the run is erased if held, and the releaser is free |
| RunGuards.AssignInSteps | src/engine/run_guard.cpp:37-45 | assignment is erase, clear and move, one after another |
| TroubleshootBackup.Workspace.CaptureInto | src/engine/troubleshoot_backup.cpp:144-228 | refines capture, its branch deleted again on every later failure |
| TroubleshootBackup.Workspace.Snap | src/engine/troubleshoot_backup.cpp:170-196 | refines what capture asks of the repository, in order of the calls that may fail |
| TroubleshootBackup.Workspace.StoreFiles | src/engine/troubleshoot_backup.cpp:198-221 | the session files are written in order up to the first that cannot be |
| TroubleshootBackup.Workspace.RecordTouch | src/engine/troubleshoot_backup.cpp:230-252 | refines the recording of the agent's changes |
| TroubleshootBackup.Workspace.Preflight | src/engine/troubleshoot_backup.cpp:315-370 | refines the checks before anything is touched |
| TroubleshootBackup.Workspace.RollbackTo | src/engine/troubleshoot_backup.cpp:254-405 | refines rollback |
| BackupTransactions.FailedCaptureLeavesNoBranch | src/engine/troubleshoot_backup.cpp:163-221 | a failed capture leaves the repository as it was when the delete works, and at most its own branch otherwise |
| BackupTransactions.SuccessfulCapture | src/engine/troubleshoot_backup.cpp:144-228 | a capture adds only its branch, at the current commit, and records commit, branch, untracked and modified files |
| BackupTransactions.RollbackRestoresOrRefuses | src/engine/troubleshoot_backup.cpp:254-405 | a refused rollback has touched nothing; a successful one leaves the tracked files equal to the recorded commit and other files alone |
| BackupTransactions.RollbackExactly | src/engine/troubleshoot_backup.cpp:315-359 | with git working, a rollback succeeds exactly when the branch is the recorded one and every dirty file was modified before or by the agent |
| BackupTransactions.ReportExactly | src/engine/troubleshoot_backup.cpp:360-403 | the drift is exactly the untracked files absent at capture; the lost edits are the recorded files still dirty |
| BackupTransactions.TransactionRestores | src/engine/troubleshoot_backup.cpp:144-405 | capture, any edits of files and index, recording and rollback restore the captured commit and the branches |
| BackupTransactions.CommittedThenUndoneIsRefused | src/engine/troubleshoot_backup.cpp:348-359 | a change committed and then undone in the files makes rollback refuse |
| TextLines.SplitLines | src/engine/troubleshoot_backup.cpp:72-89 | the character loop cuts the text as specified |
| TextLines.WriteText | src/engine/troubleshoot_backup.cpp:116-121 | each name on a line of its own |
| TextLines.SplitBack | src/engine/troubleshoot_backup.cpp:43-89 | a listing of plain names comes back from a command's output |
| TextLines.LinesBack | src/engine/troubleshoot_backup.cpp:116-132 | a list of plain names comes back from a session file |
| TextLines.FirstLineBack | src/engine/troubleshoot_backup.cpp:134-140 | a plain name comes back as a file's first line |
| FanInMerging.MergeBranches | src/engine/fan_in_merger.cpp:29-72 | the nested loops compute the merge of the sorted branches |
| FanInMerging.PickCommits | src/engine/fan_in_merger.cpp:45-58 | the commits are picked in order up to the first that fails |
| FanInMerging.OrderDoesNotMatter | src/engine/fan_in_merger.cpp:34-35 | the result does not depend on the order in which the branches are given |
| FanInMerging.AscendingUnique | src/engine/fan_in_merger.cpp:34-35 | a list of names has one sorted order |
| FanInMerging.SuccessPicksEverything | src/engine/fan_in_merger.cpp:37-60 | a merge that succeeds has picked every commit of every branch with a worktree, branches in name order |
| FanInMerging.ConflictReport | src/engine/fan_in_merger.cpp:45-57 | a conflict report splits the sorted branches into those applied, the one that failed and those pending; the repository is as the failed pick left it |
| FanInMerging.ParseConflictingFiles | src/engine/fan_in_merger.cpp:11-24 | the files of the lines that mark a conflict, in their order and with repetitions |
| FanInMerging.ReportsCut | src/engine/fan_in_merger.cpp:11-24 | cut the listing anywhere: the files of the front come before those of the back, none lost or merged |
| VariableExpansion.ExtractIdentifier | src/engine/variable_expansion_transform.cpp:69-83 | the longest run of identifier characters without trailing punctuation |
| VariableExpansion.ResolveVariable | src/engine/variable_expansion_transform.cpp:86-142 | the value of a name; terminates because the goal never expands itself |
| VariableExpansion.ExpandVariables | src/engine/variable_expansion_transform.cpp:177-250 | the loop replaces the references and appends the unresolved ones to the collector |
| VariableExpansion.SegmentsSpellTheText | src/engine/variable_expansion_transform.cpp:177-250 | cutting a text into references and characters loses nothing |
| VariableExpansion.UnresolvedTextUnchanged | src/engine/variable_expansion_transform.cpp:177-250 | if no template reference resolves, the text is unchanged and the collector gets exactly its non-late-bound template references, left to right |
| VariableExpansion.SilentWhenResolved | src/engine/variable_expansion_transform.cpp:177-250 | nothing is collected exactly when every early-bound template reference resolves |
| VariableExpansion.SecondExpansionDiffers | src/engine/variable_expansion_transform.cpp:177-250 | expansion is not idempotent: a dollar sign before a reference can make a new reference of its value |
| VariableExpansion.SecondExpansionUnchanged | src/engine/variable_expansion_transform.cpp:177-250 | expanding twice is expanding once for every text that settles: read once from left to right, nothing in a value resolves or is left open at its end, and a value extends no dollar sign or kept name before it and closes no brace left open |
| VariableExpansion.LeftAloneExactly | src/engine/variable_expansion_transform.cpp:177-250 | a text, such as one already expanded, is left alone exactly when none of its references resolves, if what they stand for does not begin with a dollar sign |
| VariableExpansion.OneReferenceExactly | src/engine/variable_expansion_transform.cpp:177-250 | for a text with one reference, expanding twice is expanding once exactly when nothing resolves in its value and the text behind it, if what the references there stand for does not begin with a dollar sign |
| VariableExpansion.ExpandPlaceholders | src/engine/variable_expansion_transform.cpp:31-66 | the loop fills the placeholders and unescapes escaped braces |
| VariableExpansion.UnknownKeysPassThrough | src/engine/variable_expansion_transform.cpp:21-66 | a text with no known key and no escape is unchanged, whatever else stands in braces |
| VariableMeanings.ReferencesExactly | src/engine/variable_expansion_transform.cpp:152-173 | only `goal` and names that begin with "var.", "context." or "human." and go on are references; those late-bound are the human ones and the context ones outside "context.config." |
| VariableMeanings.PlainMeans | src/engine/variable_expansion_transform.cpp:117-142 | a "var." name reads the context under its whole name, "var.repo_dir" the worktree of a branch first; a "context." name reads the context under what follows; any other the context, then the graph |
| VariableMeanings.GoalMeans | src/engine/variable_expansion_transform.cpp:88-115 | the goal is the node's, or the graph's when that is empty, with the names in it expanded once |
| VariableMeanings.GoalName | src/engine/variable_expansion_transform.cpp:94-114 | a name in the goal becomes its value; `$goal`, and a name without a value, stay |
| VariableMeanings.IdentifierExactly | src/engine/variable_expansion_transform.cpp:69-83 | an identifier is the longest run without the punctuation at its end, or all of it when nothing else would be left |
| VariableMeanings.BracedReads | src/engine/variable_expansion_transform.cpp:185-208 | a braced reference ends at the first closing brace |
| VariableMeanings.SegmentExactly | src/engine/variable_expansion_transform.cpp:183-247 | without braces a reference is a dollar sign with an identifier that begins with a letter or `_`; every other character stands for itself |
| VariableMeanings.ReferenceBecomes | src/engine/variable_expansion_transform.cpp:183-247 | a reference in front of a text, braced or not, becomes its value if it is a template reference with one and stays as written otherwise, is reported exactly when it is early-bound without a value, and the text behind it is expanded on its own |
| VariableMeanings.CharacterStays | src/engine/variable_expansion_transform.cpp:241-246 | any other character is copied, and so is a dollar sign that no name or closed brace follows |
| VariableMeanings.PlaceholderMeans | src/engine/variable_expansion_transform.cpp:42-60 | a placeholder becomes what the context has for its key with "needle." before it, blanks around the key aside, and stays when there is nothing |
| VariableMeanings.CharactersCopied | src/engine/variable_expansion_transform.cpp:36-64 | an escaped pair of braces loses its backslash and opens nothing |
| VariableMeanings.AttributesBecome | src/engine/variable_expansion_transform.cpp:283-301 | every attribute of every node becomes its value with placeholders filled and then references expanded; ids, types, edges and the graph's attributes stay |
| VariableTransforms.VariableExpansionTransform.Apply | src/engine/variable_expansion_transform.cpp:258-304 | every attribute of every node is expanded in name order, and the reports are collected in order |
| VariableTransforms.VariableExpansionTransform.ApplyToNode | src/engine/variable_expansion_transform.cpp:280-301 | one node's attributes in name order, each seeing what those before it have become |
| VariableTransforms.TransformKeepsClosed | src/engine/variable_expansion_transform.cpp:258-304 | the transform keeps ids, edges and closedness |
| VariableTransforms.SettledGraphUnchanged | src/engine/variable_expansion_transform.cpp:258-304 | a graph in which nothing can be expanded is unchanged |
| JsonPaths.WalkPath | src/config/needle_config.cpp:178-188 | the loop reads the value at the path, null when there is none |
| JsonPaths.DeepMerge | src/config/needle_config.cpp:44-60 | the recursive loop over the source's fields computes the merge |
| JsonPaths.SetPath | src/config/needle_config.cpp:190-208 | the descent segment by segment, with objects made on the way, sets the value at the path |
| JsonPaths.RemovePath | src/config/needle_config.cpp:210-224 | the descent ends early when the path is missing, and otherwise takes its last field away |
| JsonPaths.NeedleConfig.Get | src/config/needle_config.cpp:178-188 | reads the configuration at the path |
| JsonPaths.NeedleConfig.Set | src/config/needle_config.cpp:190-208 | afterwards the path reads as the value and every path apart from it as before; an empty path changes nothing |
| JsonPaths.NeedleConfig.Remove | src/config/needle_config.cpp:210-224 | afterwards the path is absent, every path apart from it reads as before, and the tree changed exactly when the path was there |
| JsonPaths.NeedleConfig.EnsureDefaults | src/config/needle_config.cpp:166-172 | the defaults are merged under the data |
| JsonPaths.WalkAfterSet | src/config/needle_config.cpp:178-208 | after setting, the path reads as the value, and paths below it as the value's parts |
| JsonPaths.WalkBesideSet | src/config/needle_config.cpp:178-208 | every path that is neither prefix nor extension reads as before |
| JsonPaths.SetsCommute | src/config/needle_config.cpp:190-208 | two paths apart can be set in either order with the same tree |
| JsonPaths.RemoveTakesAway | src/config/needle_config.cpp:210-224 | after removal the path is absent; the tree changes exactly when it was present |
| JsonPaths.WalkBesideRemove | src/config/needle_config.cpp:210-224 | unrelated paths read as before |
| JsonPaths.MergeIdempotent | src/config/needle_config.cpp:44-60 | merging the same source again changes nothing |
| JsonPaths.SourceLeavesReadable | src/config/needle_config.cpp:44-60 | every non-object value of the source is readable at its path |
| JsonPaths.UnmentionedKept | src/config/needle_config.cpp:44-60 | what the source does not speak of reads as before |
| JsonPaths.DefaultsOnce | src/config/needle_config.cpp:166-172 | filling in defaults twice is filling them in once |
| JsonPaths.DefaultsUnderTheUser | src/config/needle_config.cpp:166-172 | a user's value wins and a missing one reads as the default |
| JsonPaths.SegmentsOfJoined | src/config/needle_config.cpp:23-40 | a list of segments can be written as a path exactly when none is empty or has a dot |
| JsonPaths.MergeNotAssociative | src/config/needle_config.cpp:44-60 | three trees on which the grouping of merges matters |
| JsonPaths.MergeGroupsExactly | src/config/needle_config.cpp:44-60 | the grouping of three merges does not matter exactly when, wherever the first and third tree hold objects and the second does not, the third covers every field of the first |
| JsonPaths.NothingLeftExactly | src/config/needle_config.cpp:44-60 | a merge leaves nothing of the destination exactly when the source has every field of it, and likewise below |
| Separated.SplitFields | src/config/needle_config.cpp:23-40 | the character loop cuts the text at the separator, empty segments dropped |
| Separated.FieldsOfJoined | src/config/needle_config.cpp:23-40 | cutting undoes joining exactly when no field is empty or contains the separator |
| Separated.NonEmptyFieldsBack | src/config/needle_config.cpp:23-40 | of joined fields without separators the non-empty ones come back, in order |
| Checkpoints.RoundTrip | src/engine/checkpoint_manager.cpp:10-98 | reading the JSON of any checkpoint gives it back, its retry counters being machine integers |
| Checkpoints.CollectStrings | src/engine/checkpoint_manager.cpp:76-88 | the loop collects exactly the entries of an object whose values are all strings, and fails on any other |
| Checkpoints.CollectInts | src/engine/checkpoint_manager.cpp:66-71 | likewise for counters that are numbers |
| Checkpoints.CollectStringItems | src/engine/checkpoint_manager.cpp:59-65 | the loop collects the strings of a list in order and skips anything else |
| Checkpoints.InMemoryCheckpointWriter.Save | src/engine/checkpoint_manager.cpp:145-148 | the path then stands for the checkpoint, every other path for what it did |
| Checkpoints.InMemoryCheckpointWriter.Load | src/engine/checkpoint_manager.cpp:150-158 | the checkpoint last saved at the path comes back whole through its JSON, its counters being machine integers; an error for a path never saved |
| YamlScalars.YamlString | src/engine/recovery_report.cpp:13-26 | the character loop prints the quoted scalar |
| YamlScalars.YamlNullableString | src/engine/recovery_report.cpp:28-31 | the word null stands for the empty text |
| YamlScalars.YamlScalarToString | src/server/http_server.cpp:71-88 | the index loop reads a scalar as specified |
| YamlScalars.TrimCopy | src/server/http_server.cpp:64-69 | the text without blanks at either end |
| YamlScalars.PrintedReadsBack | src/engine/recovery_report.cpp:13-31 | a printed scalar, nullable or not, reads back as the text with each line break a space, for every text |
| YamlScalars.UnchangedWithoutLineBreaks | src/engine/recovery_report.cpp:13-31 | it comes back unchanged exactly when it has no line break |
| YamlScalars.PrintedIsOneLine | src/engine/recovery_report.cpp:13-26 | a printed scalar never leaves its line |

## Left out

- Handlers, backends, the troubleshooting agent's own work, events, logs, stage directories, pausing, backoff delays and the clock: their results are the arbitrary answers of the engine's model.
- Error and report texts are reduced to the cases that produce them.
- The grammar of edge conditions is a parameter; only the evaluation of its clauses is modelled.
- The rejection of a run whose graph has unresolved `$var` references (src/engine/pipeline_engine.cpp:219-228) is left out: the model starts after it.
- The stylesheet transforms the command line applies between building a graph and running it; they assign attributes, so a pipeline's goal gates are those after them.
- A handler run by a branch is a function of node and context that may record completions of its own; what it does to other shared state is not modelled.
- ParallelThreads.HandlerBooksAgree: that a nested stage records only nodes reachable from its own is a condition on the handlers, which are not part of the model.
- EngineResume.ResumeTakesTheSameEdge: stated for a graph that differs from the saved run's at most in node attributes; the conditions on label, suggestions, parallel nodes and loop restarts are what the checkpoint does not carry.
- Checkpoints.RoundTrip: stated for retry counters within 32 bits, which is how the source holds them.
- EngineLimits.FailuresAreBounded: stated for troubleshooting off, because a reloaded graph brings new nodes.
- EngineRuns.ResumedRunIsGood: stated for closed graphs, because a resume steps past its completed node along any edge.
- VariableExpansion.SecondExpansionUnchanged: a one-way condition on texts with several references; the equivalences are VariableExpansion.OneReferenceExactly for one reference and VariableExpansion.LeftAloneExactly for a text already expanded.
- EngineLimits.RetriesStayWithinPolicy: stated for troubleshooting off, because a reloaded graph brings other policies; that subgraphs pass the retry test is a condition on the answers, whose handlers are not part of the model.
- ParallelHandling.BranchReadable: stated for distinct targets, because two edges to the same node share their keys.
- BackupTransactions.RollbackExactly: stated for file names that git prints unquoted and on one line each.
- JsonPaths.NeedleConfig.Set: the references into the tree are a path of objects with a field left open, rebuilt from the bottom, so sharing between subtrees is not captured; the same holds for Remove and DeepMerge. Saving the file afterwards is left out.
- DotPrinting.ParsingUndoesPrinting: stated for default attributes of nodes, edges and the graph, which are the only ones the grammar has.
- Checkpoint files, their JSON text and their atomic replacement; the checkpoint is a JSON value.
- Distances and lengths are unbounded integers; the wrap-around of `size_t` is modelled where the retry reset depends on it.
- The merge of worktrees leaves out the removal of worktrees after success and the text of `git status`.
- Configuration files, redaction of keys and environment variables; HTTP, the command line and the other commands.
