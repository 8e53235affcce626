# principles: the agent scheduling engine, modelled in Dafny

This project models the scheduling engine of the `principles` agent
framework. The engine runs a set of named agents. Each agent calls a language
model, normalises the model's reply into a status record and may publish data
for the agents after it. The model covers:

- **Dependency ordering** (`DependencyOrder`): `resolveDependencies`, the
  Kahn topological sort both orchestrators share. It is modelled as an
  imperative method over the `graph` and `inDegree` maps, with its
  building, queue-filling and draining loops.
- **Levels** (`Levels`): `groupAgentsByLevels` of the user-objective
  orchestrator. It gives each agent the level one above its dependencies'
  and buckets the agents by level; dependencies missing from the order leave
  holes in the JavaScript array.
- **The user-objective orchestrator** (`ObjectiveOrchestrator`):
  - `processPrompt` runs the levels in turn;
  - `executeAgentWithRetries` is the retry loop with linear backoff;
  - `shouldExecuteAgent` and `synthesizeCode` are modelled too;
  - the final answer is read out of the synthesis agent's entry.
- **The agent-planner orchestrator** (`PlannerOrchestrator`):
  - `processPrompt` runs the agents one at a time;
  - `synthesizeCode` merges every agent's data key by key and collects the
    errors, then hands the merge to the model.
- **Shared state** (`Assessment`): `assessmentResults` (one status record per
  agent) and `agentOutputs` (the data of every agent that reported success).
- **The agent registry** (`Registry`): a class over a name-to-agent map.
- **Reply normalisation** (`AgentReplies`): the block every agent class
  wraps around its model call. It is modelled once, on the Problem Analysis
  Agent. It yields `INVALID_JSON`, `INCOMPLETE_OUTPUT`, `PROCESSING_FAILED`
  or the parsed reply.
- **The prompt-decomposition pipeline** (`DecompositionAgents`,
  `Refinement`): the guards and reply checks of its five leaf agents, and
  the bounded refine/finalize loop of `OrchestrationAgent.run`.
- **String utilities** (`StringUtils`, `ResponseUtils`):
  `escapeUnescapedBackticks`, `cleanOpenAIResponse` and
  `getSystemMessageContent`.
- **Configuration bookkeeping of agent generation** (`AgentGeneration`):
  the required-field check, append-if-absent by id, and the synthesis and
  orchestrator dependency lists built by `handleAgentGeneration`.

JavaScript values are the `Json` datatype of `JsValues`. An object is a list
of properties in which the first occurrence of a key counts. The objects the
model reads come from `JSON.parse`, which keeps the last of duplicate keys,
so they are taken to have distinct keys; for those both rules agree.
Exceptions are `Error(message)`, `TypeError` and `SyntaxError`. A call that may throw
returns an `Outcome`: `Returned(value)` or `Threw(exception)`.

Every language-model call is an input of the model. A reply is `CallThrew`,
or `Completed` with `Unparseable` (what `JSON.parse` rejects) or
`Parsed(value)`. A loop that asks the model several times takes a function
from the request's index to its reply. An agent's `processPrompt` is an
oracle too: it maps the agent, the attempt number and the `agentOutputs`
it was given to its outcome.

A few properties of the code that shape the model:

- Agents receive the whole `agentOutputs` map, not just their declared
  dependencies' data. `ObjectiveOrchestrator.LevelSeesEarlierOutputs` and
  `PlannerOrchestrator.AgentSeesEarlierOutputs` state what they see.
- The sort reports a cycle whenever fewer ids come out than were requested.
  It therefore also fails on a repeated id, and on the empty id, which the
  loop dequeues and skips. The queue is first in, first out, and the initial
  queue follows `Object.keys` order, which for the ids modelled is request
  order. Ids that name keys every object inherits are outside the model
  (see "Left out").
- A missing or failed synthesis entry does not give an error result. Reading
  `data.properties…` out of it throws a TypeError
  (`ObjectiveOrchestrator.NoSynthesisNoAnswer`).

## Model

| member | source | states |
|---|---|---|
| StringUtils.CollapseDouble | src/utils/stringUtils.ts:9 | the second replacement never touches the first character |
| StringUtils.EscapeBareCount | src/utils/stringUtils.ts:9 | the first replacement keeps the number of backticks |
| StringUtils.EscapeBareEscapes | src/utils/stringUtils.ts:9 | after the first replacement every backtick is preceded by a backslash |
| StringUtils.EscapeBareLast | src/utils/stringUtils.ts:9 | the first replacement ends with the input's last character |
| StringUtils.CollapseDoubleKeeps | src/utils/stringUtils.ts:9 | the second replacement keeps backticks escaped (past the first character) and keeps their number |
| StringUtils.EscapesEveryBacktick | src/utils/stringUtils.ts:8-10 | in the output every backtick is preceded by a backslash, and there are as many backticks as in the input |
| StringUtils.NoBacktickUnchanged | src/utils/stringUtils.ts:9 | a text without backticks comes back unchanged from each replacement and from the whole function |
| StringUtils.EscapeBareNoBacktick | src/utils/stringUtils.ts:9 | the first replacement leaves a text without backticks unchanged |
| StringUtils.CollapseNoBacktick | src/utils/stringUtils.ts:9 | the second replacement leaves a text without backticks unchanged |
| StringUtils.EscapeBareSnoc | src/utils/stringUtils.ts:9 | the first replacement on one more character appends what that character becomes, given the character before it |
| StringUtils.EscapeBareAppend | src/utils/stringUtils.ts:9 | the first replacement works on the two sides of a text separately when the left side does not end in a backslash |
| StringUtils.CollapseDoubleAppend | src/utils/stringUtils.ts:9 | the second replacement works on the two sides separately when the left side does not end in a backslash |
| StringUtils.EscapeAppend | src/utils/stringUtils.ts:8-10 | the whole escaping works on the two sides separately when the left side does not end in a backslash |
| StringUtils.EscapeLoneBacktick | src/utils/stringUtils.ts:8-10 | a backtick alone becomes an escaped backtick |
| StringUtils.EscapeKeptPair | src/utils/stringUtils.ts:8-10 | an escaped backtick alone is kept |
| StringUtils.EscapeDoublePair | src/utils/stringUtils.ts:8-10 | a backtick behind two backslashes alone comes out behind one |
| StringUtils.EscapedBacktickKept | src/utils/stringUtils.ts:8-10 | in any text `p` + backslash-backtick + `q` with `p` not ending in a backslash, the escaped backtick is kept as it is and `p` and `q` are escaped on their own |
| StringUtils.DoubleBackslashCollapsed | src/utils/stringUtils.ts:8-10 | in any text `p` + two backslashes + backtick + `q` with `p` not ending in a backslash, the backtick comes out behind one backslash and `p` and `q` are escaped on their own |
| StringUtils.BareBacktickEscaped | src/utils/stringUtils.ts:8-10 | in any text `p` + backtick + `q` with `p` not ending in a backslash, the backtick gains one backslash and `p` and `q` are escaped on their own |
| JsValues.Trim | src/utils/responseUtils.ts:32 | `trim` removes exactly the leading and trailing white space: the result is a slice of the input whose ends are not white space, and everything cut off is white space |
| JsValues.Member | src/agent-planner-agents/ProblemAnalysisAgent.ts:34 | reading a property throws exactly when the value is null or undefined |
| JsValues.Lookup | src/agent-planner-agents/ProblemAnalysisAgent.ts:109 | a key is found exactly when some property has it, and the value found belongs to such a property |
| JsValues.Utf16Length | src/utils/responseUtils.ts:53 | a string's `length` counts one unit per character of the Basic Multilingual Plane and two per other character, so it lies between the number of characters and twice that |
| JsValues.Utf16LengthBmp | src/utils/responseUtils.ts:53 | for a text of Basic Multilingual Plane characters `length` is the number of characters |
| JsValues.ConversionExamples | src/prompt-decomposition-agents/IntegrationAgent.ts:56 | converting a parsed value to text throws for an object with its own `toString` key and for an array holding such a value at any depth, and never for a primitive or for an object whose only unusual key is `valueOf` |
| ResponseUtils.StripQuotes | src/utils/responseUtils.ts:12-14 | one pair of quotes goes exactly when the text starts and ends with `"` (a lone quote becomes empty); otherwise the text is unchanged |
| ResponseUtils.StripQuotesInverse | src/utils/responseUtils.ts:12-14 | stripping the quotes off a quoted text gives the text back |
| ResponseUtils.StripFence | src/utils/responseUtils.ts:26-28 | an opening fence is removed only at the start: the result is a piece of the input, and equals it when the input does not start with the fence |
| ResponseUtils.StripFenceInverse | src/utils/responseUtils.ts:26-28 | a fence, white space and a text give back the text: all the white space after the fence goes |
| ResponseUtils.StripClosingFence | src/utils/responseUtils.ts:29 | a closing fence goes only when it is the last three characters |
| ResponseUtils.StripClosingFenceInverse | src/utils/responseUtils.ts:29 | a text followed by a closing fence gives back the text |
| ResponseUtils.Unfence | src/utils/responseUtils.ts:26-29 | the three opening fences, tried once each in order, then the closing fence, leave a contiguous piece of the input |
| ResponseUtils.RemoveEscapedNewlines | src/utils/responseUtils.ts:30 | deleting `\n` pairs adds no character and leaves a text without backslashes unchanged |
| ResponseUtils.RemoveNewlines | src/utils/responseUtils.ts:31 | the characters left are exactly the input's other than line feed, and a text without line feeds is unchanged |
| ResponseUtils.RemoveNewlinesAppend | src/utils/responseUtils.ts:31 | the deletion works on the parts of a text separately, so (with the next row) it deletes exactly the line feeds and keeps every other character in order |
| ResponseUtils.RemoveNewlinesChar | src/utils/responseUtils.ts:31 | one character is deleted exactly when it is a line feed |
| ResponseUtils.RemoveEscapedNewlinesAppend | src/utils/responseUtils.ts:30 | deleting backslash-`n` pairs works on the parts of a text separately when the left part does not end in a backslash |
| ResponseUtils.RemoveEscapedNewlinesPieces | src/utils/responseUtils.ts:30 | a backslash-`n` pair alone is deleted and a single character is kept |
| ResponseUtils.CleanedShape | src/utils/responseUtils.ts:9-35 | in both modes the result has no white space at either end; by default it holds no line feed |
| ResponseUtils.PreservedIsSlice | src/utils/responseUtils.ts:16-23 | keeping line breaks, the result is one contiguous piece of the raw reply |
| ResponseUtils.ModesAgree | src/utils/responseUtils.ts:16-32 | with neither line feeds nor backslashes in the reply the two modes give the same result |
| ResponseUtils.FencedJsonExample | src/utils/responseUtils.ts:25-34 | a fenced JSON reply comes out as its body |
| ResponseUtils.AssistantTexts | src/utils/responseUtils.ts:45-52 | the filter throws a TypeError exactly when an assistant message has no content part |
| ResponseUtils.FirstLongest | src/utils/responseUtils.ts:53-55 | the pick is one of the texts and no text has a greater UTF-16 `length`, or "" when there are none |
| ResponseUtils.FirstLongestIsFirst | src/utils/responseUtils.ts:53 | a stable sort by decreasing UTF-16 `length` puts first the earliest of the longest texts |
| ResponseUtils.GetSystemMessageContent | src/utils/responseUtils.ts:42-56 | the call throws exactly when the filter does |
| ResponseUtils.SystemMessageIsLongest | src/utils/responseUtils.ts:42-56 | the content is an assistant text no other assistant text exceeds in UTF-16 `length`, or "" when there is none |
| ResponseUtils.AstralTextsCountDouble | src/utils/responseUtils.ts:53-55 | three characters outside the Basic Multilingual Plane outrank five inside it, since `length` counts UTF-16 code units |
| Registry.AgentRegistry.constructor | src/scaffold/registry/AgentRegistry.ts:6 | a new registry is empty |
| Registry.AgentRegistry.RegisterAgent | src/scaffold/registry/AgentRegistry.ts:13-15 | the name now maps to the agent, replacing any earlier one; every other name keeps its agent |
| Registry.AgentRegistry.GetAgent | src/scaffold/registry/AgentRegistry.ts:20-22 | an agent is returned exactly for a registered name, and it is the registered one |
| Registry.AgentRegistry.GetFunctions | src/scaffold/registry/AgentRegistry.ts:27-30 | the agent's function list when it has one, [] when the agent is unknown or has none |
| Registry.RegistryScenario | src/scaffold/registry/AgentRegistry.ts:13-22 | re-registering a name replaces its agent, leaves other names alone, and an unknown name gives undefined |
| AgentReplies.ErrorRecord | src/agent-planner-agents/ProblemAnalysisAgent.ts:100-105 | the error metadata carries its agent id, status "error" and its code, and is complete when the id is non-empty |
| AgentReplies.ErrorRecordFails | src/agent-planner-agents/ProblemAnalysisAgent.ts:100-105 | no error record reports success |
| AgentReplies.Validated | src/agent-planner-agents/ProblemAnalysisAgent.ts:109-117 | reading fields of null throws; incomplete metadata is replaced by INCOMPLETE_OUTPUT, so what comes back is always complete |
| AgentReplies.ProcessPrompt | src/agent-planner-agents/ProblemAnalysisAgent.ts:30-137 | throws only for a missing or null context; otherwise responds with the prompt id, empty content and metadata with a truthy `agentId` and `status` |
| AgentReplies.FailedReplyOutcomes | src/agent-planner-agents/ProblemAnalysisAgent.ts:96-136 | a failed call or a parsed null gives PROCESSING_FAILED, an unparseable reply INVALID_JSON |
| AgentReplies.ParsedReplyOutcomes | src/agent-planner-agents/ProblemAnalysisAgent.ts:109-124 | a parsed reply is passed on when complete, INCOMPLETE_OUTPUT otherwise |
| AgentReplies.ErrorCodesDiffer | src/agent-planner-agents/ProblemAnalysisAgent.ts:103-133 | the three error records have distinct codes |
| AgentReplies.UnknownStatusPassedOn | src/agent-planner-agents/ProblemAnalysisAgent.ts:109-124 | a reply whose status is neither success nor error is passed on unchanged |
| Assessment.FromMetadata | src/user-agent-objective-agents/OrchestratorAgent.ts:111-117 | the response's metadata is the entry, and its `data` is published exactly when the status is "success" |
| Assessment.Failure | src/user-agent-objective-agents/OrchestratorAgent.ts:120-134 | an orchestrator error entry is an error record and publishes nothing |
| Assessment.RecordConsistent | src/user-agent-objective-agents/OrchestratorAgent.ts:111-117 | recording a new agent keeps `agentOutputs` exactly the data of the successful entries |
| DependencyOrder.EntryEdges | src/user-agent-objective-agents/OrchestratorAgent.ts:183-189 | one edge per listed dependency |
| DependencyOrder.DependsOnMeans | src/user-agent-objective-agents/OrchestratorAgent.ts:181-191 | an agent depends on `d` exactly when one of its configuration entries lists `d` |
| DependencyOrder.InCountRemove | src/user-agent-objective-agents/OrchestratorAgent.ts:208-209 | sorting `c` removes from an in-degree exactly the edges `c` releases |
| DependencyOrder.InCountZero | src/user-agent-objective-agents/OrchestratorAgent.ts:196 | an in-degree is zero exactly when no counted edge enters the agent |
| DependencyOrder.ReadyAmong | src/user-agent-objective-agents/OrchestratorAgent.ts:194-199 | the initial queue holds exactly the keys with in-degree zero, without repetition |
| DependencyOrder.WithoutEmpty | src/user-agent-objective-agents/OrchestratorAgent.ts:205 | the dequeued ids other than the empty one, in order |
| DependencyOrder.BlockedPreventsOrder | src/user-agent-objective-agents/OrchestratorAgent.ts:216-222 | no order that respects the dependencies contains a blocked set of agents |
| DependencyOrder.NoBlockedPrefix | src/user-agent-objective-agents/OrchestratorAgent.ts:216-222 | no position of a respecting order holds a member of a blocked set |
| DependencyOrder.ResolveDependencies | src/user-agent-objective-agents/OrchestratorAgent.ts:165-223 | on success a permutation of the requested ids in which every requested dependency comes first; first in, first out: the initially ready ids in request order, then the ids each sorted id releases, in the order they were sorted; failure (for ids that are not inherited object keys) only for repeated or empty ids or a blocked set (a cycle) |
| DependencyOrder.Drain | src/user-agent-objective-agents/OrchestratorAgent.ts:203-214 | the loop sorts every dequeued non-empty id after its dependencies; the dequeued ids are the initial queue followed by what each sorted id released, in turn; an id never dequeued still has an unsorted dependency |
| DependencyOrder.DrainStep | src/user-agent-objective-agents/OrchestratorAgent.ts:203-214 | one turn of the loop keeps its invariant, dequeuing one id and keeping the dequeued-then-queued ids equal to the initial queue followed by the release log |
| DependencyOrder.SkipStep | src/user-agent-objective-agents/OrchestratorAgent.ts:205 | dequeuing the empty id keeps the loop invariant with the order and in-degrees unchanged |
| DependencyOrder.TakeStep | src/user-agent-objective-agents/OrchestratorAgent.ts:204-213 | dequeuing a non-empty id appends it to the order and appends what it releases to both the queue and the release log |
| DependencyOrder.NewGraph | src/user-agent-objective-agents/OrchestratorAgent.ts:175-178 | every requested id starts with no dependents and in-degree 0, keys in first-request order |
| DependencyOrder.AddEdges | src/user-agent-objective-agents/OrchestratorAgent.ts:181-191 | the built maps count exactly the edges between requested ids |
| DependencyOrder.AddEntryEdges | src/user-agent-objective-agents/OrchestratorAgent.ts:183-190 | one entry's dependencies are added in order |
| DependencyOrder.AddEdge | src/user-agent-objective-agents/OrchestratorAgent.ts:185-188 | an edge counts only when its dependency is requested, and raises the in-degree only of a requested agent |
| DependencyOrder.ReadyQueue | src/user-agent-objective-agents/OrchestratorAgent.ts:194-199 | the initial queue is the keys with in-degree zero, in key order |
| DependencyOrder.SkipEmpty | src/user-agent-objective-agents/OrchestratorAgent.ts:205 | dequeuing the empty id changes nothing else |
| DependencyOrder.TakeCurrent | src/user-agent-objective-agents/OrchestratorAgent.ts:204-206 | a dequeued id has its requested dependencies sorted and joins the order |
| DependencyOrder.ReleaseDependents | src/user-agent-objective-agents/OrchestratorAgent.ts:208-213 | each dependent loses one in-degree and is enqueued once it reaches zero: the queue gains exactly the dependents released, in neighbour order |
| DependencyOrder.ReleaseOne | src/user-agent-objective-agents/OrchestratorAgent.ts:209-212 | one neighbour loses one in-degree and is enqueued exactly when it is requested, no unsorted requested id points at it any more, and it is not listed again later in the same list |
| DependencyOrder.ReleasedHead | src/user-agent-objective-agents/OrchestratorAgent.ts:208-213 | what a list of neighbours releases is what its first releases, then what the rest release |
| DependencyOrder.LogStep | src/user-agent-objective-agents/OrchestratorAgent.ts:203-214 | dequeuing the head and appending what it releases keeps the queue's history |
| DependencyOrder.ReleaseLogSnoc | src/user-agent-objective-agents/OrchestratorAgent.ts:203-214 | sorting one more id appends what it releases to the release log |
| DependencyOrder.Enqueue | src/user-agent-objective-agents/OrchestratorAgent.ts:210-212 | enqueuing a neighbour whose in-degree reaches zero keeps the drain loop's invariant: nothing is queued twice and every queued id has its requested dependencies sorted |
| DependencyOrder.ProcessCurrent | src/user-agent-objective-agents/OrchestratorAgent.ts:206-209 | sorting an id moves its outgoing edges from the counts to the neighbours still to decrement |
| DependencyOrder.SortedRespects | src/user-agent-objective-agents/OrchestratorAgent.ts:203-218 | an order sorted after its dependencies respects the configuration |
| DependencyOrder.StuckIsBlocked | src/user-agent-objective-agents/OrchestratorAgent.ts:217-222 | the requested ids left unsorted form a blocked set, hence contain a cycle |
| DependencyOrder.ResolvedOrderUnblocked | src/user-agent-objective-agents/OrchestratorAgent.ts:217-218 | a resolved order holds every requested id and rules out a blocked set |
| Levels.ConfigFor | src/user-agent-objective-agents/OrchestratorAgent.ts:240 | the entry found has the requested id |
| Levels.ConfigForIsLast | src/user-agent-objective-agents/OrchestratorAgent.ts:240 | `Object.fromEntries` keeps the last entry for an id, and finds one exactly when some entry has it |
| Levels.LevelsOf | src/user-agent-objective-agents/OrchestratorAgent.ts:242-249 | one level per position of the order |
| Levels.LevelCount | src/user-agent-objective-agents/OrchestratorAgent.ts:250-253 | the levels array is longer than every level assigned |
| Levels.AtLevel | src/user-agent-objective-agents/OrchestratorAgent.ts:250-253 | a bucket is empty exactly when no position has its level |
| Levels.GroupAgentsByLevels | src/user-agent-objective-agents/OrchestratorAgent.ts:232-257 | throws a TypeError exactly when an agent has no configuration entry; otherwise level `l` of the result holds, in order, the agents given level `l`, or a hole |
| Levels.LevelAbove | src/user-agent-objective-agents/OrchestratorAgent.ts:245-248 | the loop computes one above the highest level among the dependencies, 0 without any |
| Levels.Place | src/user-agent-objective-agents/OrchestratorAgent.ts:250-253 | the agent is pushed onto its level, which is created first, with holes below when needed |
| Levels.PlaceKeepsGrouped | src/user-agent-objective-agents/OrchestratorAgent.ts:250-253 | pushing an agent keeps the array the buckets of the agents visited |
| Levels.DepLevelIsMax | src/user-agent-objective-agents/OrchestratorAgent.ts:245-248 | a level is above every dependency's level, attained by one of them, and 0 exactly without dependencies |
| Levels.LevelCountAttained | src/user-agent-objective-agents/OrchestratorAgent.ts:250-253 | the top level is taken by some agent |
| Levels.LevelsOfPrefix | src/user-agent-objective-agents/OrchestratorAgent.ts:242-254 | a level depends only on the agents visited before it |
| Levels.LevelAt | src/user-agent-objective-agents/OrchestratorAgent.ts:243-249 | each level is computed from the levels of the agents visited before it |
| Levels.LevelMapMeaning | src/user-agent-objective-agents/OrchestratorAgent.ts:249 | `agentLevels` holds exactly the visited agents, each at its last visit's level |
| Levels.DependenciesRunEarlier | src/user-agent-objective-agents/OrchestratorAgent.ts:245-249 | in an order without repetition, a dependency visited earlier has a strictly lower level |
| Levels.LevelZeroIffIndependent | src/user-agent-objective-agents/OrchestratorAgent.ts:244-249 | level 0 exactly for an agent without dependencies |
| Levels.AtLevelMeans | src/user-agent-objective-agents/OrchestratorAgent.ts:253 | an agent is in a level's bucket exactly when one of its visits got that level |
| Levels.LevelBelow | src/user-agent-objective-agents/OrchestratorAgent.ts:245-249 | with dependencies visited first, an agent above level 0 has an agent exactly one level below it |
| Levels.LevelsBelowTaken | src/user-agent-objective-agents/OrchestratorAgent.ts:245-253 | every level up to an agent's own is taken by an agent visited no later |
| Levels.NoHoles | src/user-agent-objective-agents/OrchestratorAgent.ts:250-253 | with dependencies visited first, the array of levels has no holes |
| Levels.ResolvedOrderVisitsDepsFirst | src/user-agent-objective-agents/OrchestratorAgent.ts:77-86 | a resolved order over agents that request all their dependencies visits dependencies first |
| Levels.MissingDependencyLeavesHole | src/user-agent-objective-agents/OrchestratorAgent.ts:247-251 | a dependency missing from the order puts its dependent at level 1 and leaves level 0 a hole |
| ObjectiveOrchestrator.ShouldExecuteAgent | src/user-agent-objective-agents/OrchestratorAgent.ts:266-269 | every agent is executed |
| ObjectiveOrchestrator.RetryReturnsFirst | src/user-agent-objective-agents/OrchestratorAgent.ts:282-285 | the first attempt that does not throw is the answer |
| ObjectiveOrchestrator.RetryRethrowsLast | src/user-agent-objective-agents/OrchestratorAgent.ts:286-291 | when every permitted attempt throws, the last error is rethrown |
| ObjectiveOrchestrator.ExecuteAgentWithRetries | src/user-agent-objective-agents/OrchestratorAgent.ts:280-296 | at most `maxRetries` calls, every call before the last threw, the result is the last call's, a throw only after `maxRetries` calls; waits of 1000, 2000, … ms between calls and none after the last |
| ObjectiveOrchestrator.AgentRun | src/user-agent-objective-agents/OrchestratorAgent.ts:95-135 | an agent's data is published exactly when its entry reports success |
| ObjectiveOrchestrator.AgentRunEntries | src/user-agent-objective-agents/OrchestratorAgent.ts:103-126 | a registered agent's entry is EXECUTION_FAILED with the last retry's message when every retry threw, EXECUTION_FAILED with a TypeError's message when the completion log cannot convert its status to text (nothing is published then), and otherwise its metadata, published exactly when the status is "success" |
| ObjectiveOrchestrator.UnregisteredNotFound | src/user-agent-objective-agents/OrchestratorAgent.ts:127-134 | an unregistered agent's entry is AGENT_NOT_FOUND |
| ObjectiveOrchestrator.AfterLevelDomain | src/user-agent-objective-agents/OrchestratorAgent.ts:93-140 | a level adds entries for its agents and no other |
| ObjectiveOrchestrator.AfterLevelResults | src/user-agent-objective-agents/OrchestratorAgent.ts:93-140 | each agent of a level gets its run with the level-start outputs; other entries stay |
| ObjectiveOrchestrator.AfterLevelEntry | src/user-agent-objective-agents/OrchestratorAgent.ts:112 | one agent's entry after a level |
| ObjectiveOrchestrator.AfterLevelMember | src/user-agent-objective-agents/OrchestratorAgent.ts:112 | an agent of the level gets its run with the level-start outputs |
| ObjectiveOrchestrator.AfterLevelOther | src/user-agent-objective-agents/OrchestratorAgent.ts:112 | an agent outside the level keeps its entry |
| ObjectiveOrchestrator.AfterLevelOutputs | src/user-agent-objective-agents/OrchestratorAgent.ts:115-117 | a level publishes nothing for agents outside it |
| ObjectiveOrchestrator.AfterLevelsLast | src/user-agent-objective-agents/OrchestratorAgent.ts:89-141 | the last level runs with the outputs of all the levels before it |
| ObjectiveOrchestrator.AfterLevelConsistent | src/user-agent-objective-agents/OrchestratorAgent.ts:111-117 | running a level of new agents keeps outputs in step with entries |
| ObjectiveOrchestrator.OneRecordPerAgent | src/user-agent-objective-agents/OrchestratorAgent.ts:89-141 | every scheduled agent, and no other, gets an entry |
| ObjectiveOrchestrator.LevelSeesEarlierOutputs | src/user-agent-objective-agents/OrchestratorAgent.ts:103-106 | an agent's entry is its run with the outputs of all earlier levels, not only its dependencies' |
| ObjectiveOrchestrator.PublishedIffSucceeded | src/user-agent-objective-agents/OrchestratorAgent.ts:115-117 | `agentOutputs` holds exactly the data of the agents whose entry reports success |
| ObjectiveOrchestrator.AtLevelDistinct | src/user-agent-objective-agents/OrchestratorAgent.ts:253 | a level of an order without repetition repeats no agent |
| ObjectiveOrchestrator.ScheduledStep | src/user-agent-objective-agents/OrchestratorAgent.ts:89 | the first `k` levels are the first `k - 1` plus level `k - 1` |
| ObjectiveOrchestrator.ScheduledTake | src/user-agent-objective-agents/OrchestratorAgent.ts:89-90 | a hole adds no agents |
| ObjectiveOrchestrator.ScheduledPrefix | src/user-agent-objective-agents/OrchestratorAgent.ts:86 | the first `k` levels hold exactly the agents with a level below `k` |
| ObjectiveOrchestrator.ScheduledPrefixDistinct | src/user-agent-objective-agents/OrchestratorAgent.ts:86 | no agent is scheduled twice |
| ObjectiveOrchestrator.LevelsDisjoint | src/user-agent-objective-agents/OrchestratorAgent.ts:86 | no agent is at two levels |
| ObjectiveOrchestrator.ScheduleCoversOrder | src/user-agent-objective-agents/OrchestratorAgent.ts:86 | the levels hold every agent of the order, each once when the order has no repetition |
| ObjectiveOrchestrator.SynthesizeCode | src/user-agent-objective-agents/OrchestratorAgent.ts:304-306 | an answer only when the synthesis agent has an entry |
| ObjectiveOrchestrator.Project | src/user-agent-objective-agents/OrchestratorAgent.ts:147 | reading a property of undefined or null throws a TypeError, and nothing else throws |
| ObjectiveOrchestrator.ProjectNest | src/user-agent-objective-agents/OrchestratorAgent.ts:147 | objects nested along the path give back the innermost value |
| ObjectiveOrchestrator.NoSynthesisNoAnswer | src/user-agent-objective-agents/OrchestratorAgent.ts:144-147 | without the synthesis agent the run throws a TypeError |
| ObjectiveOrchestrator.ExecuteLevel | src/user-agent-objective-agents/OrchestratorAgent.ts:93-140 | the level loop gives every agent the level-start outputs and stores each agent's run as `AgentRun` and `AgentRunEntries` describe, including the throw of the completion log |
| ObjectiveOrchestrator.ExecuteLevels | src/user-agent-objective-agents/OrchestratorAgent.ts:89-141 | the levels run in turn, holes skipped |
| ObjectiveOrchestrator.ProcessPrompt | src/user-agent-objective-agents/OrchestratorAgent.ts:68-156 | throws "Circular dependency…" exactly without a valid order, before any agent runs; throws a TypeError for an unconfigured agent; otherwise every requested agent gets one entry and the answer is read from the synthesis entry |
| ObjectiveOrchestrator.OutputsFollowEntries | src/user-agent-objective-agents/OrchestratorAgent.ts:111-117 | after a run `agentOutputs` holds exactly the data of the successful agents |
| PlannerOrchestrator.AgentRun | src/agent-planner-agents/OrchestratorAgent.ts:94-126 | an agent's data is published exactly when its entry reports success |
| PlannerOrchestrator.UnregisteredNotFound | src/agent-planner-agents/OrchestratorAgent.ts:118-126 | an unregistered agent's entry is AGENT_NOT_FOUND |
| PlannerOrchestrator.ThrowingAgentFails | src/agent-planner-agents/OrchestratorAgent.ts:109-117 | a throwing agent's entry is PROCESSING_FAILED with the error's message, with no retry |
| PlannerOrchestrator.OneRecordPerAgent | src/agent-planner-agents/OrchestratorAgent.ts:91-127 | every agent of the order, and no other, gets an entry |
| PlannerOrchestrator.AfterAgentsKeys | src/agent-planner-agents/OrchestratorAgent.ts:103 | each agent adds its own entry |
| PlannerOrchestrator.AfterAgentsStep | src/agent-planner-agents/OrchestratorAgent.ts:103 | an agent leaves the other entries alone |
| PlannerOrchestrator.LaterAgentsKeep | src/agent-planner-agents/OrchestratorAgent.ts:91-127 | later agents leave an agent's entry alone |
| PlannerOrchestrator.AgentSeesEarlierOutputs | src/agent-planner-agents/OrchestratorAgent.ts:98-100 | an agent's entry is its run with the outputs of every earlier successful agent |
| PlannerOrchestrator.AfterAgentsLast | src/agent-planner-agents/OrchestratorAgent.ts:98-108 | the last agent runs with the outputs of those before it |
| PlannerOrchestrator.PublishedIffSucceeded | src/agent-planner-agents/OrchestratorAgent.ts:106-108 | `agentOutputs` holds exactly the data of the agents whose entry reports success |
| PlannerOrchestrator.AfterAgentsPrefix | src/agent-planner-agents/OrchestratorAgent.ts:91-127 | one more agent stores its run with the outputs so far |
| PlannerOrchestrator.EntryError | src/agent-planner-agents/OrchestratorAgent.ts:212-219 | an entry contributes no error exactly when it has truthy `data` that is an object |
| PlannerOrchestrator.ErrorStrings | src/agent-planner-agents/OrchestratorAgent.ts:229 | the errors become an array of the same strings |
| PlannerOrchestrator.KeyValuesAppend | src/agent-planner-agents/OrchestratorAgent.ts:220-225 | a key's values in a concatenation are those of each part, in turn |
| PlannerOrchestrator.PushAllHeld | src/agent-planner-agents/OrchestratorAgent.ts:220-225 | pushing appends under each key the values paired with it, and creates a key only when it gets a value |
| PlannerOrchestrator.PushHeld | src/agent-planner-agents/OrchestratorAgent.ts:221-224 | one push appends under its own key only |
| PlannerOrchestrator.KeyValuesLast | src/agent-planner-agents/OrchestratorAgent.ts:220 | a key's values: those before the last pair, then the last pair's |
| PlannerOrchestrator.MergeValues | src/agent-planner-agents/OrchestratorAgent.ts:211-227 | every key holds, in entry order, the values the valid entries give it; a key no valid entry has is absent |
| PlannerOrchestrator.ErrorsAppend | src/agent-planner-agents/OrchestratorAgent.ts:212-219 | the errors of concatenated entries are those of each part, in turn |
| PlannerOrchestrator.MergeErrors | src/agent-planner-agents/OrchestratorAgent.ts:212-219 | one error per invalid entry, in entry order |
| PlannerOrchestrator.ErrorsKey | src/agent-planner-agents/OrchestratorAgent.ts:228-230 | `errors` is set exactly when an error was recorded (or some data has an `errors` key), and then holds the messages; other keys keep their values |
| PlannerOrchestrator.ObjectKeyOnce | src/agent-planner-agents/OrchestratorAgent.ts:220 | an object's entries give each of its keys once, with its value |
| PlannerOrchestrator.ObjectValues | src/agent-planner-agents/OrchestratorAgent.ts:220-225 | an object's data contributes to a key exactly its value for that key |
| PlannerOrchestrator.PushAllAsWrittenAgrees | src/agent-planner-agents/OrchestratorAgent.ts:220-225 | the push as written throws a TypeError exactly on an inherited key, and otherwise agrees with the own-key push |
| PlannerOrchestrator.MergeAsWrittenAgrees | src/agent-planner-agents/OrchestratorAgent.ts:211-227 | the merge as written throws a TypeError exactly when some data has an inherited key, and otherwise agrees with the merge |
| PlannerOrchestrator.ConstructorKeyThrows | src/agent-planner-agents/OrchestratorAgent.ts:220-225 | data with a `constructor` key makes the merge as written throw, while the intended merge collects it |
| PlannerOrchestrator.SynthesisResult | src/agent-planner-agents/OrchestratorAgent.ts:231-311 | a failed call, an unparseable reply or a parsed null gives the fallback object; otherwise the reply's `agents` |
| PlannerOrchestrator.PushEntries | src/agent-planner-agents/OrchestratorAgent.ts:220-225 | the inner loop pushes every pair in turn |
| PlannerOrchestrator.MergeOutputs | src/agent-planner-agents/OrchestratorAgent.ts:207-230 | the merge loop builds the merged values and attaches the errors |
| PlannerOrchestrator.EntriesOf | src/agent-planner-agents/OrchestratorAgent.ts:211 | the entries follow the order the agents were recorded in |
| PlannerOrchestrator.ExecuteAgents | src/agent-planner-agents/OrchestratorAgent.ts:91-127 | agents run one at a time, each seeing the outputs before it |
| PlannerOrchestrator.ExecuteAgent | src/agent-planner-agents/OrchestratorAgent.ts:94-126 | one agent's run is stored, its data published on success |
| PlannerOrchestrator.ProcessPrompt | src/agent-planner-agents/OrchestratorAgent.ts:69-137 | throws "Circular dependency…" exactly without a valid order, before any agent runs; otherwise every requested agent gets one entry in the resolved order and the answer is the synthesis of the merged outputs, merged by the corrected `MergeOutputs` (the code as written rejects on an inherited data key, see Findings) |
| DecompositionAgents.Abort | src/prompt-decomposition-agents/OrchestrationAgent.ts:22 | an agent's error is passed on with its message |
| DecompositionAgents.ExtractIntent | src/prompt-decomposition-agents/IntentExtractionAgent.ts:8-53 | a blank prompt is refused; success exactly for a parsed string `intent`, carrying it and truthy `parameters` (default `{}`); otherwise the matching error |
| DecompositionAgents.BlankPromptNotSent | src/prompt-decomposition-agents/IntentExtractionAgent.ts:9-11 | a blank prompt is refused whatever the model would say |
| DecompositionAgents.DeriveTruths | src/prompt-decomposition-agents/FundamentalTruthsAgent.ts:8-67 | an empty intent is refused; success exactly when `truths` and `relationships` are arrays, returned unchanged; otherwise the matching error |
| DecompositionAgents.Decompose | src/prompt-decomposition-agents/DecompositionAgent.ts:8-53 | empty intent or truths are refused; a parsed array is the subtasks; otherwise the matching error |
| DecompositionAgents.DecisionNamed | src/prompt-decomposition-agents/RefinementDecisionAgent.ts:51 | exactly the three decision strings are recognised |
| DecompositionAgents.Decide | src/prompt-decomposition-agents/RefinementDecisionAgent.ts:8-59 | empty intent or subtasks are refused; success exactly for a recognised decision, with its notes; otherwise the matching error |
| DecompositionAgents.DecideIgnoresTruths | src/prompt-decomposition-agents/RefinementDecisionAgent.ts:9 | empty truths are not refused |
| DecompositionAgents.DescribedAll | src/prompt-decomposition-agents/IntegrationAgent.ts:20-84 | the loop succeeds exactly when every subtask converts to text for its prompt (line 56) and every reply parses, with the parse of reply `i` for subtask `i` |
| DecompositionAgents.DescribedStops | src/prompt-decomposition-agents/IntegrationAgent.ts:52-83 | the first subtask that cannot be converted to text, or whose reply does not parse, decides the result |
| DecompositionAgents.IntegrationOutcomes | src/prompt-decomposition-agents/IntegrationAgent.ts:14-95 | success echoes the inputs and pairs each subtask with its parse; at the first bad subtask, one that cannot be converted to text throws a TypeError, a failed request is rethrown, and an unparseable reply names its subtask |
| DecompositionAgents.Integrate | src/prompt-decomposition-agents/IntegrationAgent.ts:8-96 | one request per subtask in order, none when refused, each made only after its subtask converted to text; it stops before the request for a subtask that cannot be converted (throwing a TypeError) or after the first reply that does not parse |
| Refinement.Iteration | src/prompt-decomposition-agents/OrchestrationAgent.ts:32-53 | a round decomposes with the current truths, records one decision, and re-derives the truths only on `refine_truths` |
| Refinement.TallyStep | src/prompt-decomposition-agents/OrchestrationAgent.ts:31-54 | a successful round keeps the counts and the provenance of truths and subtasks |
| Refinement.RoundsEnd | src/prompt-decomposition-agents/OrchestrationAgent.ts:31-54 | a completed loop ends on `finalize` or after the fifth round |
| Refinement.RunIntegratesOnce | src/prompt-decomposition-agents/OrchestrationAgent.ts:19-57 | a run past the loop integrates once with the last subtasks and current truths, after 1 to 5 rounds, with one truth derivation more than `refine_truths` decisions; only the last decision may be `finalize` |
| Refinement.RefinedTruthsPairing | src/prompt-decomposition-agents/OrchestrationAgent.ts:48-56 | after a last `refine_truths`, new truths are paired with subtasks decomposed from the old ones |
| Refinement.EmptyTruthsRefused | src/prompt-decomposition-agents/OrchestrationAgent.ts:56 | re-derived empty truths make the integration refuse |
| Refinement.EarlyErrorStops | src/prompt-decomposition-agents/OrchestrationAgent.ts:21-25 | an early error is the result, whatever later replies would be |
| Refinement.Round | src/prompt-decomposition-agents/OrchestrationAgent.ts:32-53 | the loop body performs one round |
| Refinement.Run | src/prompt-decomposition-agents/OrchestrationAgent.ts:19-57 | `run` settles to the run outcome the lemmas above describe |
| AgentGeneration.HasIdMeans | src/services/agentGenerationService.ts:332 | `some` finds an id exactly when an entry at some index has it |
| AgentGeneration.HasIdPush | src/services/agentGenerationService.ts:332-339 | a present id stays present |
| AgentGeneration.AppendIfAbsentKeeps | src/services/agentGenerationService.ts:332-339 | the list keeps its prefix and gains the entry exactly when its id was absent |
| AgentGeneration.PlanAgents | src/services/agentGenerationService.ts:90-108 | an empty or missing plan throws "No agents…"; other non-iterables throw a TypeError; an array's elements are the agents |
| AgentGeneration.Characters | src/services/agentGenerationService.ts:108 | a string iterates over its characters |
| AgentGeneration.MissingFieldsMembers | src/services/agentGenerationService.ts:247-249 | a field is missing exactly when required and absent |
| AgentGeneration.MissingFieldsInOrder | src/services/agentGenerationService.ts:247-249 | the missing fields keep the required order |
| AgentGeneration.StepOutcomes | src/services/agentGenerationService.ts:212-321 | one pass throws exactly when the reply throws (a failed call, a reply that is not an object, or a complete reply the code generator cannot write from: `instructions +=` at line 273 or the template's `${className}`, `${name}` or `${id}` cannot convert the value to text, or a truthy `tools` is neither an array nor a string and has no `includes`, each a TypeError); an unparseable or incomplete reply is skipped |
| AgentGeneration.StepAccepted | src/services/agentGenerationService.ts:292-339 | an accepted reply records its id and appends its entry if absent |
| AgentGeneration.FirstThrow | src/services/agentGenerationService.ts:212-258 | the first throwing reply, if any |
| AgentGeneration.ConfiguredThrows | src/services/agentGenerationService.ts:212-321 | the loop throws exactly when some reply throws (including instructions, a class name, a name or an id that cannot be converted to text and a `tools` value the code generator cannot read), with the first one's exception |
| AgentGeneration.ConfiguredIds | src/services/agentGenerationService.ts:292-303 | the configured ids are those of the accepted replies, in order |
| AgentGeneration.ConfiguredAccepted | src/services/agentGenerationService.ts:332-339 | an accepted agent appends its entry if its id is absent |
| AgentGeneration.ConfiguredOther | src/services/agentGenerationService.ts:230-257 | a skipped agent leaves the list alone |
| AgentGeneration.ConfiguredPrefix | src/services/agentGenerationService.ts:332-339 | existing entries are never changed or reordered |
| AgentGeneration.ConfiguredFresh | src/services/agentGenerationService.ts:332-339 | no appended entry repeats an earlier id |
| AgentGeneration.FreshStep | src/services/agentGenerationService.ts:332-339 | appending only absent ids keeps the appended ids fresh |
| AgentGeneration.ConfiguredFrom | src/services/agentGenerationService.ts:333-338 | every appended entry is an accepted agent's, named by its class with path `./agents/<className>.js` |
| AgentGeneration.FromStep | src/services/agentGenerationService.ts:333-338 | one more reply keeps the appended entries traced to accepted replies |
| AgentGeneration.ConfiguredCovers | src/services/agentGenerationService.ts:332-339 | every accepted agent with a primitive id has an entry |
| AgentGeneration.Finish | src/services/agentGenerationService.ts:385-566 | a failed or unparseable output-format reply is rethrown, then a failed overview call; the generation finishes exactly when the format parses and the overview call completes, with the synthesis and orchestrator entries assembled |
| AgentGeneration.FinishIds | src/services/agentGenerationService.ts:483-485 | in the assembled result the orchestrator's primary agents are the configured ids then the synthesis agent, and the orchestrator is created last |
| AgentGeneration.FinishEntries | src/services/agentGenerationService.ts:428-514 | in the assembled result the synthesis entry (depending on the configured ids) and the orchestrator entry (depending on its primary agents) are appended if absent, and both ids end up present |
| AgentGeneration.NoPlanStops | src/services/agentGenerationService.ts:93-95 | an empty or missing plan stops before any reply is asked for |
| AgentGeneration.ThrowPersists | src/services/agentGenerationService.ts:583-586 | a throw ends the generation whatever later agents reply |
| AgentGeneration.ThrowStays | src/services/agentGenerationService.ts:583-586 | one more agent after a throw changes nothing |
| AgentGeneration.HandleAgentGeneration | src/services/agentGenerationService.ts:70-587 | the generation settles to the outcome the lemmas above describe, including a TypeError from a field the code generator cannot convert to text or a `tools` value it cannot read, and a throw from the overview call |
| AgentGeneration.ConfigureAgent | src/services/agentGenerationService.ts:212-339 | the loop body performs one pass, throwing a TypeError, in the source's order, for instructions that `+=` cannot convert, a `tools` value without `includes`, and a class name, name or id the template cannot insert |

## Left out

- Language-model calls, `JSON.parse` and `JSON.stringify` are not modelled. Each reply is an input: a failed call, an unparseable reply or a parsed value. The prompt texts are left out, and so is console logging.
- Concurrency: `Promise.all` within a level is modelled as running the level's agents one after another, each seeing `agentOutputs` as it stood at level start. That is exact for first attempts. What a retry sees depends on timing and is not modelled.
- `setTimeout` backoff: the waits are returned as a list of delays in milliseconds; no clock is modelled.
- Registration by `require(path)` in the orchestrators' constructors is left out (src/user-agent-objective-agents/OrchestratorAgent.ts:38-58, src/agent-planner-agents/OrchestratorAgent.ts:37-59). The registry is passed in already filled.
- Agents' `processPrompt` behaviour is an oracle input; the agent classes other than the Problem Analysis Agent repeat its normalisation block with their own id and are not modelled separately.
- File-system work in `handleAgentGeneration` is left out:
  - the empty-directory check (lines 76-83);
  - `loadAgentsConfig`, `writeFileSync` and `updateAgentsConfig`;
  - the overview's text and writing it; the overview call is modelled only for whether it throws.
- Agent generation's instruction assembly and escaping, and the text the code generators `generatePrimaryAgent` and `generateOrchestratorAgent` build, are left out. What in them can throw is modelled, by `AgentGeneration.GeneratorThrows`: `instructions +=` (src/services/agentGenerationService.ts:273), `tools && tools.includes("apiTool")` (src/templates/GenericAgentTemplate.ts:40) and the insertion of the class name, name and id into the template (src/templates/GenericAgentTemplate.ts:52-72). The orchestrator's template inserts only ids that have already been inserted once.
- `getUserObjective` and `getAgentPlan` only call the model; the plan they return is an input.
- Engine error messages: the text of a TypeError or SyntaxError is not modelled. `MessageOf` gives the error's name instead.
- JavaScript objects: the ordering of integer-like keys in `Object.keys`/`Object.entries` is not modelled; keys keep insertion order.
- Strict equality of ids: two objects or arrays are never strictly equal, because every one compared is freshly parsed. `AgentGeneration.StrictEquals` therefore treats them as distinct references.
- `Number` values are integers; floating point is not modelled.
- DependencyOrder.ResolveDependencies: ids that name keys every JavaScript object inherits (`__proto__`, `toString`, `constructor`, …) are not modelled; the model treats every id as an own key of `graph` and `inDegree`. In the code a dependency `toString` that is not requested finds an inherited function in `graph` and `push` throws a TypeError, and a requested `__proto__` never becomes a key of `inDegree`.
- Levels.GroupAgentsByLevels: the same inherited keys are not modelled; an unconfigured id such as `constructor` finds an inherited function in `agentConfigs` instead of throwing, and a dependency `toString` reads a function from `agentLevels`, which turns the level into NaN.
- JavaScript's sort is modelled as stable (as modern engines implement it). `getSystemMessageContent` then returns the first of the longest texts.

## Findings

| source | as written | input that shows it | evidently intended | confidence | as-written member | corrected member |
|---|---|---|---|---|---|---|
| src/agent-planner-agents/OrchestratorAgent.ts:220-225 | `if (!finalOutput[key])` sees a key every object inherits, such as `constructor`, as present, so `finalOutput[key].push(value)` calls `push` on a function and throws a TypeError; the whole synthesis step rejects | one assessment entry whose `data` is `{"constructor": "Planner"}` | test for an own key and collect the value like any other | not executed | PlannerOrchestrator.ConstructorKeyThrows | PlannerOrchestrator.MergeOutputs |
