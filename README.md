# mmt_flight_mcp in Dafny

A model of the core of mmt_flight_mcp, a multi-agent assistant built on
LangGraph, with proofs about the model. The core has three parts.

- **Supervisor routing.** A supervisor node asks an LLM which agent should
  run next. It strips and lower-cases the reply and falls back to "FINISH"
  for anything off its menu. Conditional edges route to the named agent or
  to the end, and every agent returns to the supervisor. There are three
  entry points:
  - `mainllm.py`: math and weather agents;
  - `mainllmv2.py`: the agents of `AGENT_CONFIG`;
  - `workflow/langgraph_system.py`: a class holding an agent registry.

  Each builds the graph with `StateGraph` and streams one query through it.
  `mainllm.py` and `mainllmv2.py` pass a recursion limit of 100. The
  class-built graph is streamed from `main.py` with no limit set, so
  LangGraph's default applies. The model takes the limit as a parameter.
- **The model registry** in `core/model_settings.py`. It builds a client's
  keyword arguments from a `ModelConfig`, registers, switches, looks up and
  lists models.
- **Flight-record assembly**:
  - the flight-search tool in `mcp_tool/flight_search_server.py` reads a
    saved MakeMyTrip page into records and answers with a message or JSON;
  - three scrapers (`scrapper/{mmt,expedia,ixigo}/data_extraction.py`)
    turn listing cards into record dicts.

Module by module:

- `Wrappers`: `Option`, `Result` and `Outcome`.
- `Text`: Python's `str.strip()`, `str.lower()` (ASCII letters), `str.split(sep)` and `sep.join`.
- `PyDict`: Python dicts as insertion-ordered keys plus a map. A dict literal is `FromPairs`: a repeated key keeps its first position and takes its last value.
- `Workflow`: the graph state (`messages`, `next`), node updates and their merge, the two routing functions, and the `StateGraph` builder. The builder is a class whose methods update its node, entry and edge fields.
- `SupervisorAgent`: the supervisor node's reply normalisation.
- `Executor`: how a compiled graph runs.
  - The LLM is a script of replies, and each agent is a function from the conversation to the messages it adds.
  - `Run` is the reference semantics and `Stream` is the streaming loop proved equal to it.
  - `RunFollowsReplies` shows that the nodes visited depend only on the supervisor's decisions.
- `GraphBuilder`: the registry-driven graph construction shared by `mainllmv2.py` and `workflow/langgraph_system.py`.
- `MainLlm`, `MainLlmV2`, `LanggraphSystem`: the three entry points.
- `ModelRegistry`: `ModelConfig`, the keyword-argument dict, the registry as a value (`Register`, `Switch`, `GetCurrent`, `ListModels`), and the `ModelSettings` class whose methods are proved against those functions.
- `FlightRecords`: record values, the nine-key flight record and its dict, MakeMyTrip cards, and the records kept by a loop that skips cards that raise.
- `FlightSearchServer`, `MmtExtraction`, `ExpediaExtraction`, `IxigoExtraction`: the four extractors.
  - Each loop is an imperative method proved equal to a function over the cards.
  - Variables carried from one card to the next are explicit loop state, and an unassigned variable raises `NameError` when read.

HTML parsing is abstracted: a card is a record of what each BeautifulSoup
lookup finds in it (a text, a list of texts, or nothing). Texts read with
`get_text(strip=True)` are given already stripped; texts read with
`.text.strip()` are stripped by `Text.Strip`.

## Behaviour worth noting

- **The recursion limit and missing edges raise.** When a run uses up the recursion limit, LangGraph raises `GraphRecursionError`. It raises as well when a routing function returns a key its edge map lacks. Either error propagates out of the `async for` loop of `run_multi_agent_system`, so no event is returned. The model reports these runs as `LimitReached` and `Invalid`, each with the nodes run so far.
- **Every agent returns to the supervisor.** No agent node ends the run itself. The run ends only when the supervisor's decision routes to the end.
- **The supervisor's menu is fixed.** It does not follow the agents a graph registers:
  - it offers `conversation_agent`, which no graph registers (`MainLlmV2.ConversationReplyEnds`);
  - the class-based graph routes only to the math and weather agents, although the menu also offers `flight_search_agent` (`LanggraphSystem.FlightSearchReplyEnds`).

  A reply naming such an agent passes the supervisor and then ends the run.

## Model

| member | source | states |
|---|---|---|
| Text.Strip | agents/supervisor_agent.py:47 | the result neither starts nor ends with whitespace |
| Text.Lower | agents/supervisor_agent.py:47 | same length; every character is lower-cased and nothing else changes |
| Text.StripIgnoresPadding | agents/supervisor_agent.py:47 | whitespace around a reply never changes its `strip()` |
| Text.StripLowerCommute | agents/supervisor_agent.py:47 | stripping and lower-casing commute |
| Text.JoinSplit | scrapper/expedia/data_extraction.py:55-56 | joining the pieces of `split(sep)` with `sep` gives back the string |
| Text.SplitPiecesFree | scrapper/expedia/data_extraction.py:55-56 | no piece of `split(sep)` contains `sep` |
| Text.SplitPair | scrapper/expedia/data_extraction.py:55-56 | `(a + sep + b).split(sep) == [a, b]` when a character of `sep` occurs in neither piece |
| Text.SplitAtFirst | scrapper/expedia/data_extraction.py:55-56 | `(x + sep + y).split(sep) == [x, y]` when the first occurrence of `sep` follows `x` and `y` holds none |
| Text.SplitAbsent | scrapper/expedia/data_extraction.py:71-72 | a string without the separator splits into a one-element list |
| PyDict.Assign | core/model_settings.py:55 | `d[k] = v`: the value is bound; the key order is kept for an old key, or extended for a new one |
| PyDict.FromPairsKeys | core/model_settings.py:36-41 | a dict literal's keys are its keys in first-occurrence order |
| PyDict.FromPairsLastWins | core/model_settings.py:36-41 | in a dict literal, the last value written for a key wins |
| PyDict.FromDistinctPairs | mcp_tool/flight_search_server.py:130-140 | a literal with distinct keys holds exactly those keys, in order, each with its own value |
| PyDict.RepeatedPair | scrapper/mmt/data_extraction.py:101-112 | repeating an earlier entry that nothing in between rebinds does not change the dict |
| Workflow.Apply | mainllm.py:28-29 | merging a node's update appends exactly its messages and replaces `next` with the new value; absent keys keep their value |
| Workflow.RouteAfterSupervisor | mainllm.py:169-178 | the route is a routable agent name or the end |
| Workflow.RouteAfterAgent | mainllm.py:181-188 | the route is the supervisor or the end |
| Workflow.MissingNextEnds | mainllm.py:171-188 | a `next` never set reads as "FINISH", which ends the run from the supervisor and from every agent |
| Workflow.AgentReturnsToSupervisor | mainllm.py:148-155 | after an agent the conversation is extended by its messages and the route goes back to the supervisor |
| Workflow.StateGraph.constructor | mainllm.py:196 | a builder with no nodes, entry edges or conditional edges |
| Workflow.StateGraph.AddNode | mainllm.py:199-201 | adds one node under a fresh name; edges unchanged |
| Workflow.StateGraph.AddStartEdge | mainllm.py:204 | adds the START edge; nodes and conditional edges unchanged |
| Workflow.StateGraph.AddConditionalEdges | mainllm.py:207-215 | sets the conditional edge leaving one node; nodes and entry unchanged |
| Workflow.StateGraph.Compile | mainllm.py:236 | `compile()` refuses a builder with no edge from START or with an edge from or to an undeclared node; otherwise it gives the graph of the builder's nodes and edges |
| Workflow.CompilableWellFormed | mainllm.py:236 | a well-formed graph with an entry compiles; a compiled graph is well formed exactly when every routing result has an edge |
| SupervisorAgent.Normalize | agents/supervisor_agent.py:46-51 | the token is on the menu or is "FINISH" |
| SupervisorAgent.SupervisorNode | agents/supervisor_agent.py:9-53 | the update sets `next` to an on-menu token or "FINISH" and leaves the messages alone |
| SupervisorAgent.AgentsMenuLowerCase | agents/supervisor_agent.py:50 | both menus are lower-case |
| SupervisorAgent.NormalizeIgnoresPadding | agents/supervisor_agent.py:47 | replies differing only in surrounding whitespace give the same token |
| SupervisorAgent.NormalizeIgnoresCase | agents/supervisor_agent.py:47 | replies equal up to case give the same token |
| SupervisorAgent.NormalizeAcceptsToken | agents/supervisor_agent.py:47-51 | a padded reply equal to a menu token up to case yields that token |
| SupervisorAgent.PaddedCapitalisedReply | agents/supervisor_agent.py:47-51 | `"  Weather_Agent\n"` yields "weather_agent" |
| SupervisorAgent.FinishInAnyCase | agents/supervisor_agent.py:47-51 | "FINISH" in any case yields the menu token "finish" |
| SupervisorAgent.UnknownReplyFinishes | agents/supervisor_agent.py:50-51 | "banana" yields "FINISH" on both menus |
| SupervisorAgent.EmptyReplyFinishes | agents/supervisor_agent.py:50-51 | the empty reply yields "FINISH" |
| SupervisorAgent.ProseReplyFinishes | agents/supervisor_agent.py:50-51 | prose that mentions an agent yields "FINISH" |
| SupervisorAgent.FallbackExactlyOffMenu | agents/supervisor_agent.py:47-51 | "FINISH" is on no lower-case menu, and comes out exactly when the stripped, lower-cased reply is off the menu |
| Executor.Live | agents/supervisor_agent.py:41-53 | the live supervisor always sets `next` and never adds messages |
| Executor.Dispatch | mainllm.py:169-178 | after a supervisor call the run goes to a routable agent or to the end |
| Executor.RunWithinLimit | mainllm.py:269 | a run executes at most as many nodes as the recursion limit |
| Executor.RunAppendsOnly | mainllm.py:271 | a completed run's conversation extends the input conversation |
| Executor.LiveDispatch | mainllm.py:169-178 | with the live supervisor, the run goes to the stripped, lower-cased reply when it is routable, else to the end |
| Executor.RunFollowsReplies | mainllm.py:254-276 | the run is the reference run determined only by the supervisor's decisions; it completes exactly when a decision ends it within the limit, and never meets a key without an edge |
| Executor.LeadingTrace | mainllm.py:254-276 | the trace for `n` agent-naming decisions followed by an ending one has `2n + 1` nodes |
| Executor.LeadingTraceAt | mainllm.py:254-276 | it alternates the supervisor and the agent its i-th decision names |
| Executor.ExpectedTraceOfLeadingReplies | mainllm.py:254-276 | with `n` agent-naming decisions then an ending one, and room in the limit, the run ends along that trace |
| Executor.EndlessDispatchHitsLimit | mainllm.py:269-271 | a supervisor that always names an agent uses up the limit: exactly `fuel` nodes run and the run does not complete |
| Executor.Stream | mainllm.py:271-274 | the streaming loop yields the reference run; when it completes, the last event is the final state |
| Executor.RunMultiAgentSystem | mainllm.py:254-276 | streaming one query from the initial state with the live supervisor gives the reference run |
| GraphBuilder.SupervisorPaths | mainllmv2.py:102-109 | the supervisor's edge map sends each agent name to its node and the end key to END |
| GraphBuilder.AddAgentNodes | mainllmv2.py:95-96 | adds one agent node per name, keeping the nodes already there |
| GraphBuilder.AddAgentEdges | mainllmv2.py:112-121 | gives every agent the edge back to the supervisor or the end |
| GraphBuilder.BuildSupervisorGraph | mainllmv2.py:88-125 | the compiled graph has the supervisor, one node per agent, START to the supervisor, and the edge maps above |
| GraphBuilder.BuiltCompiles | mainllmv2.py:88-125 | `compile()` accepts the built graph whatever keys the router returns: the START edge and every mapped edge meet declared nodes |
| GraphBuilder.BuiltIsSupervisorGraph | mainllmv2.py:102-121 | the built graph is a supervisor graph exactly when every routable key is a registered agent |
| GraphBuilder.BuiltWellFormed | mainllmv2.py:102-109 | the built graph is well formed exactly when every routable key has an edge |
| GraphBuilder.UnregisteredAgentFails | workflow/langgraph_system.py:64-77 | a routed name that was never registered has no edge, so the run stops with an error after the supervisor |
| GraphBuilder.OffRouteReplyEnds | mainllmv2.py:62-74 | with the shared supervisor, a menu reply passes unchanged; it runs its agent exactly when the router returns it, and otherwise ends the run |
| MainLlm.SupervisorGraphBuilt | mainllm.py:192-238 | the hand-built graph is the one the registry-driven builder gives for the two agents |
| MainLlm.SupervisorGraphShape | mainllm.py:192-238 | that graph is a well-formed supervisor graph |
| MainLlm.CreateSupervisorGraph | mainllm.py:192-240 | builds exactly that graph: three nodes, entry at the supervisor |
| MainLlm.RoutableOnMenu | mainllm.py:169-178 | every routable name is on the menu, and "finish" is not routable |
| MainLlm.ReplyDecides | mainllm.py:169-178 | a reply naming math or weather (up to case and padding) runs that agent; anything else ends the run |
| MainLlm.FlightSearchUnreachable | mainllm.py:138-145 | the flight-search node is not in the graph, and naming it ends the run |
| MainLlm.MathReply | mainllm.py:169-174 | "math_agent" runs the math agent |
| MainLlm.FinishReply | mainllm.py:59-61 | "FINISH" ends the run |
| MainLlm.MathThenFinish | mainllm.py:254-276 | math then finish runs supervisor, math agent, supervisor, and the conversation is the query plus the math agent's messages |
| MainLlmV2.ConfigKeysValid | config.py:2-36 | the agent configuration's keys are distinct and differ from "supervisor" and the end key |
| MainLlmV2.CreateSupervisorGraph | mainllmv2.py:88-125 | the graph is built from the configuration keys and is a well-formed supervisor graph |
| MainLlmV2.ConversationReplyEnds | mainllmv2.py:62-74 | "conversation_agent" passes the supervisor but ends the run |
| MainLlmV2.FlightSearchReply | mainllmv2.py:70-71 | "flight_search_agent" runs the flight-search agent |
| LanggraphSystem.LanggraphMultiAgentSystem.GetAgentNode | workflow/langgraph_system.py:29-45 | the node is an agent node for the given name, whatever class is passed |
| LanggraphSystem.LanggraphMultiAgentSystem.AgentNodeRuns | workflow/langgraph_system.py:33-43 | running the node invokes the agent registered under the name on the conversation so far, appends its messages and hands back to the supervisor; every entry of a valid registry runs that way |
| LanggraphSystem.LanggraphMultiAgentSystem.constructor | workflow/langgraph_system.py:14-26 | registry of the weather and then the math agent, no graph |
| LanggraphSystem.LanggraphMultiAgentSystem.CreateSupervisorGraph | workflow/langgraph_system.py:48-97 | the graph is built from the registry in its order, and is a well-formed supervisor graph when every routable name is registered |
| LanggraphSystem.FlightSearchReplyEnds | workflow/langgraph_system.py:64-68 | "flight_search_agent" passes the supervisor but ends the run |
| ModelRegistry.Configure | core/model_settings.py:15-23 | the defaults: temperature 0.7, no max tokens, no API key, no extra parameters |
| ModelRegistry.BasePairs | core/model_settings.py:36-40 | the literal's base keys are model, temperature, max_tokens, api_key |
| ModelRegistry.ConfigDict | core/model_settings.py:36-41 | the keyword arguments form a well-formed dict |
| ModelRegistry.ConfigDictKeys | core/model_settings.py:36-41 | its keys are the base keys, then the additional keys not among them; its domain is the union of both |
| ModelRegistry.AdditionalParamsOverride | core/model_settings.py:41 | an additional parameter overrides the base setting of the same name |
| ModelRegistry.BaseSettingKept | core/model_settings.py:36-40 | a base setting no additional parameter names keeps its value |
| ModelRegistry.Init | core/model_settings.py:29-32 | a fresh registry is empty, selects nothing and is consistent |
| ModelRegistry.Register | core/model_settings.py:34-60 | registration keeps the models dict well formed |
| ModelRegistry.Switch | core/model_settings.py:62-66 | fails exactly for an unregistered name; on success it selects the name and leaves the models, the client class and the config dict unchanged |
| ModelRegistry.ListModels | core/model_settings.py:74-76 | the names are distinct and are exactly the registered ones |
| ModelRegistry.RegisterConsistent | core/model_settings.py:34-60 | registration keeps the selection among the registered names |
| ModelRegistry.SwitchConsistent | core/model_settings.py:62-66 | switching keeps the registry consistent, and a failed switch reports the missing model |
| ModelRegistry.RegisterStores | core/model_settings.py:36-57 | the config dict is always rebuilt; the model is stored exactly for OpenAI when the client does not raise, else models and selection are unchanged |
| ModelRegistry.RegisterSelects | core/model_settings.py:56-57 | a truthy selection never moves; a stored model is selected when none is |
| ModelRegistry.RegisterListOrder | core/model_settings.py:55 | a new name is listed last; re-registering keeps the order |
| ModelRegistry.SwitchThenGet | core/model_settings.py:62-72 | after switching to a registered name, the lookup returns its model |
| ModelRegistry.GetCurrentTotal | core/model_settings.py:68-72 | in a consistent registry the lookup succeeds exactly when the selection is truthy, else reports "No model selected" |
| ModelRegistry.FirstRegistration | core/model_settings.py:29-57 | the first OpenAI model is listed, selected and returned with its config dict |
| ModelRegistry.EmptyNameNotSelected | core/model_settings.py:56-57 | a model named "" is listed but the lookup reports that nothing is selected |
| ModelRegistry.OnlyOpenAIRegisters | core/model_settings.py:46-51 | an Anthropic or Google registration changes neither the list nor the lookup |
| ModelRegistry.ModelSettings.constructor | core/model_settings.py:29-32 | the object starts as the fresh registry |
| ModelRegistry.ModelSettings.RegisterModel | core/model_settings.py:34-60 | the new fields are `Register` of the old ones, and stay consistent |
| ModelRegistry.ModelSettings.SwitchModel | core/model_settings.py:62-66 | the new fields are `Switch` of the old ones; on failure the error is returned and nothing changes |
| ModelRegistry.ModelSettings.GetCurrentModel | core/model_settings.py:68-72 | returns `GetCurrent` of the fields; it succeeds exactly when the selection is truthy |
| ModelRegistry.ModelSettings.ListModelNames | core/model_settings.py:74-76 | returns the registered names in order |
| FlightRecords.OrNA | mcp_tool/flight_search_server.py:128 | a missing element gives "N/A", a present one its text |
| FlightRecords.FlightKeysDistinct | mcp_tool/flight_search_server.py:130-140 | the nine record keys are distinct |
| FlightRecords.AsDict | mcp_tool/flight_search_server.py:130-140 | the record dict has exactly the nine keys in literal order, each bound to its field |
| FlightRecords.Successes | scrapper/mmt/data_extraction.py:56-116 | a skipping loop keeps at most one record per card |
| FlightRecords.SuccessesInOrder | scrapper/mmt/data_extraction.py:56-116 | the k-th record comes from the k-th card that did not raise, in card order, and every such card gives one |
| FlightSearchServer.BlockText | mcp_tool/flight_search_server.py:99-101 | the block's first `<p>` text, or "N/A" when the block or the `<p>` is missing |
| FlightSearchServer.BlockCity | mcp_tool/flight_search_server.py:102-103 | the block's city text, or "N/A" when the block or the tag is missing |
| FlightSearchServer.CardRecord | mcp_tool/flight_search_server.py:85-140 | every lookup is guarded: no card raises and no field is `None` |
| FlightSearchServer.MissingElementsGiveNA | mcp_tool/flight_search_server.py:87-128 | each missing element gives "N/A" for the fields read from it |
| FlightSearchServer.FoundTextsKept | mcp_tool/flight_search_server.py:87-128 | airline and price are stripped; times, cities and offers are kept as found |
| FlightSearchServer.GetFlights | mcp_tool/flight_search_server.py:63-146 | an unreadable page gives no records; otherwise one record per card, in card order |
| FlightSearchServer.SearchFlights | mcp_tool/flight_search_server.py:148-183 | a failed scrape gives the error message, no records give the fixed message, otherwise the records as JSON |
| MmtExtraction.DuplicateKeyCollapses | scrapper/mmt/data_extraction.py:101-112 | the second "Arrival_City" collapses into the first: the dict is the nine-key record |
| MmtExtraction.CardResult | scrapper/mmt/data_extraction.py:57-112 | a card yields a record exactly when its start, stop and end blocks and their city tags, the price span (when there is a price section) and the offers are present; otherwise it raises AttributeError |
| MmtExtraction.KeptCardFields | scrapper/mmt/data_extraction.py:59-99 | a kept card's fields: "N/A" defaults, stripped airline and price, other texts as found |
| MmtExtraction.CardResults | scrapper/mmt/data_extraction.py:56-57 | one result per card, in order |
| MmtExtraction.ExtractedInCardOrder | scrapper/mmt/data_extraction.py:56-118 | at most one record per card; records follow the cards that did not raise, in order, and all of them |
| MmtExtraction.ExtractFlightData | scrapper/mmt/data_extraction.py:37-118 | the loop returns the records of the cards that did not raise |
| MmtExtraction.RecordDict | scrapper/mmt/data_extraction.py:101-112 | the ten-entry literal builds the nine-key record dict |
| MmtExtraction.SaveToCsv | scrapper/mmt/data_extraction.py:120-134 | nothing is written for no records; otherwise the header is the nine keys and each row is one record with exactly those keys |
| MmtExtraction.ParseFlightData | scrapper/mmt/data_extraction.py:137-151 | nothing for an unreadable page, else the extracted records |
| ExpediaExtraction.PriceAfter | scrapper/expedia/data_extraction.py:79-86 | without a price column the price is unchanged, with one it is assigned |
| ExpediaExtraction.ExtractFlightData | scrapper/expedia/data_extraction.py:36-104 | the loop, with its carried variables, returns the records of the reference scan |
| ExpediaExtraction.ParseFlightData | scrapper/expedia/data_extraction.py:123-137 | nothing for an unreadable page, else the extracted records |
| ExpediaExtraction.RouteSplit | scrapper/expedia/data_extraction.py:53-56 | a route "A - B" whose first " - " follows A, with none in B, gives departure city A, arrival city B and the second label as airline |
| ExpediaExtraction.RouteWithoutSeparator | scrapper/expedia/data_extraction.py:55-56 | a route without " - " raises after setting the departure city to the whole route |
| ExpediaExtraction.LayoverSplit | scrapper/expedia/data_extraction.py:68-72 | a stop text "X in Y" whose first " in " follows X, with none in Y, gives layover duration X and city Y |
| ExpediaExtraction.LayoverTextExample | scrapper/expedia/data_extraction.py:69-72 | "1h 35m in Mumbai" splits into "1h 35m" and "Mumbai" |
| ExpediaExtraction.LayoverWithoutSeparator | scrapper/expedia/data_extraction.py:69-72 | a non-direct card without a stop div or " in " raises |
| ExpediaExtraction.DirectHasNoLayover | scrapper/expedia/data_extraction.py:67-68 | a direct flight has `None` for both layover fields |
| ExpediaExtraction.PriceRule | scrapper/expedia/data_extraction.py:79-86 | the price is the second span for two spans, the third for more, the span list for fewer, the previous price without a column |
| ExpediaExtraction.TimeDefaults | scrapper/expedia/data_extraction.py:74-76 | the times default to "N/A" when there are too few time divs |
| ExpediaExtraction.OffersAlwaysNone | scrapper/expedia/data_extraction.py:99 | no record has offers |
| ExpediaExtraction.FirstCardWithoutRouteSkipped | scrapper/expedia/data_extraction.py:90-102 | a first card without a route raises NameError and is skipped |
| ExpediaExtraction.EarlierValuesReused | scrapper/expedia/data_extraction.py:50-56 | a card without a route reuses the earlier cities; one without a price column reuses the earlier price |
| ExpediaExtraction.AfterRouteKeepsAssigned | scrapper/expedia/data_extraction.py:58-86 | the steps after the route never unassign a variable |
| ExpediaExtraction.StepKeepsAssigned | scrapper/expedia/data_extraction.py:46-86 | a card never unassigns a carried variable |
| ExpediaExtraction.AssignedNoNameError | scrapper/expedia/data_extraction.py:90-100 | once all five variables are assigned, no card raises NameError |
| ExpediaExtraction.AssignedStaysAssigned | scrapper/expedia/data_extraction.py:45-103 | once assigned, the variables stay assigned, and every later card that passes the route and layover steps gives a record |
| IxigoExtraction.DropFirst | scrapper/ixigo/data_extraction.py:31 | `[1:]`: the first listing followed by the result is the input |
| IxigoExtraction.ExtractFlightData | scrapper/ixigo/data_extraction.py:21-102 | the loop over the listings after the first returns the reference scan's records or its exception |
| IxigoExtraction.ScanKeepsFailure | scrapper/ixigo/data_extraction.py:32-100 | once the loop has raised, later listings are never read |
| IxigoExtraction.StepFields | scrapper/ixigo/data_extraction.py:36-97 | a listing passes exactly when well formed and every carried variable is assigned by it or before it; its record reads its own fields and the carried ones |
| IxigoExtraction.TracedSnoc | scrapper/ixigo/data_extraction.py:32-97 | the record-by-record description extends by one listing |
| IxigoExtraction.CompletesSnoc | scrapper/ixigo/data_extraction.py:44-70 | the completion condition extends by one listing |
| IxigoExtraction.ScanSucceeds | scrapper/ixigo/data_extraction.py:44-70 | the loop completes exactly when every listing is well formed and the first has an airline block and a time tile |
| IxigoExtraction.ScanRecords | scrapper/ixigo/data_extraction.py:32-97 | a completed loop has one record per listing; each reads its own listing and repeats the carried fields its listing does not set |
| IxigoExtraction.ExtractedRecords | scrapper/ixigo/data_extraction.py:30-97 | a page succeeds exactly when the listings after the first are well formed and the second sets every variable; then one record per listing after the first, with badge-or-"Standard" flight type, badge-or-`None` extra badges and no layover. A listing with fewer than two time headings aborts the page |
| IxigoExtraction.FirstListingDropped | scrapper/ixigo/data_extraction.py:30-31 | the first listing never affects the result |
| IxigoExtraction.Outcomes | scrapper/ixigo/data_extraction.py:124-136 | one outcome per page: unreadable, or its extraction |
| IxigoExtraction.Concat | scrapper/ixigo/data_extraction.py:136 | `extend`: the records of the pages in page order |
| IxigoExtraction.GatherStops | scrapper/ixigo/data_extraction.py:124-136 | reading stops at the first unreadable page after reading every earlier one; a full read collects all records in page order |
| IxigoExtraction.GatherStep | scrapper/ixigo/data_extraction.py:124-136 | one page: unreadable stops the run, an exception ends it, otherwise its records are appended |
| IxigoExtraction.Deduplicate | scrapper/ixigo/data_extraction.py:137 | after deduplication no two records are equal, and the set of records is unchanged |
| IxigoExtraction.ParseFlightData | scrapper/ixigo/data_extraction.py:121-139 | an exception propagates, an unreadable page stops without printing, and otherwise the deduplicated records are printed; nothing is returned |

## Left out

- LLM calls (`ChatOpenAI.ainvoke`, `create_agent`, the MCP client) are external. The supervisor's reply is a script of strings, and each agent is a function from the conversation to the messages it adds.
- LangGraph's internals, checkpointers (`InMemorySaver`), thread ids and `show_wf_image` are outside the model. The graph's semantics are restated as `Executor.Run`.
- Printing and logging are omitted: the console output of `run_multi_agent_system`, `print` in the routing functions, and `logger` calls in the extractors.
- Concurrency is omitted: the thread pool and `asyncio` in `flight_search_server.py`, and the async node functions. Nodes run one at a time.
- The Selenium scrape (`scrap_sb_sync`) and file reads are parameters: the scrape's success or error message, and each saved page's cards or `None` when unreadable.
- BeautifulSoup parsing, `prettify` and `write_html_to_file` are left out. Cards are records of what each lookup finds.
- JSON and CSV serialisation are not modelled. `SearchFlights` returns the records that would be dumped, and `SaveToCsv` returns the header and rows.
- The time/city groups that `get_flights` and the MakeMyTrip scraper compute but never store are omitted, as are `seats_left` and `flight_type` from the ixigo time tile (overwritten by the badge).
- `Text.Lower` maps only ASCII letters. Every menu and routing key is ASCII, so case mapping of other characters does not change any route.
- `ModelRegistry.Register`: the client constructor is a flag saying whether it raises. The Anthropic and Google branches raise NameError because those classes are never imported, and the handler catches it. `temperature` is a `real`, not a float.
- `FlightSearchServer.GetFlights`: the per-card `except` is unreachable because every lookup in the model is guarded.
- `IxigoExtraction.Deduplicate`: Python set iteration order is unspecified. The model keeps first occurrences but promises only contents.
- `IxigoExtraction.ParseFlightData`: the function always returns `None`. The model returns how the run ended, and `Printed` holds what is printed.
- The ixigo scraper's own `save_to_csv` is never called (its call is commented out), so it is not modelled; the MakeMyTrip one is.
- Executor.RunMultiAgentSystem: when the recursion limit is used up, or a routing key has no edge, the source raises. The `LimitReached` and `Invalid` results stand for that error, and the `event` returned beside them is not a value the source returns.
- Agent results: an agent node returns the agent's whole conversation (`result["messages"]`), and LangGraph's `add_messages` merges it into the state by message id. The messages already in the state keep their place, so the merge appends only the new ones. The model's agent returns only those new messages, and `Workflow.Apply` appends them; `Executor.RunAppendsOnly` relies on this.
