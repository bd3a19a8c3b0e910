# Agent orchestration core, modelled in Dafny

This project models the agent-orchestration engine of a customer-service bot
platform, together with the small validators and normalisers around it.

A user message goes first to an orchestrator (router) agent. The router's
model reply is decoded and read as a directive. The directive decides one of
the following:

- the router answers itself;
- it hands off to a human;
- it asks a clarifying question;
- it forwards to a specialist agent;
- it forwards through a coordinator agent, which may redirect once more.

Every model call reports token usage, and the router returns the running
total. Model replies are often malformed, so two repair functions sit in
front of every decision:

- `extract_json` digs a JSON object out of fenced or prose-wrapped text;
- `clean_reply_text` peels contract wrappers, brackets and quotes off a reply.

Retrieval (RAG) context can be added to an agent's prompt. A debug record
reports why it was or was not used.

The repository holds two copies of the routing helpers:

- `src/core/orchestration.py`, called the **core** copy here;
- `src/frontend/views/bot_tests.py`, called the **live** copy, which the playground pages actually call.

The copies have drifted apart. Both are modelled, and the datatype
`Repair.Copy` selects one, so every difference is explicit and some are
proved.

Modules, one per concern of the source:

| module | file | models |
|---|---|---|
| `Wrappers` | wrappers.dfy | `Option` / `Result` |
| `PyText` | pytext.dfy | the Python `str` operations the source uses: strip, lower/upper, find, split/join, `int()` and `str()` on integers |
| `PyValue` | pyvalue.dfy | decoded JSON / Python values, dict lookup, truthiness, `repr`/`str` (printability within Latin-1), `_string_or_none` |
| `ReplyPatterns` | reply_patterns.dfy | the regular expressions of the reply clean-up, with their exact match semantics |
| `Repair`, `RepairProperties` | repair.dfy | `extract_json` and `clean_reply_text` in both copies, and their properties |
| `Payload` | payload.dfy | `sum_usage`, the payload predicates, `_summarize_payload`, `_map_agents_by_role` |
| `Architecture` | architecture.dfy | the role/destination/action enums and the contract models with their validators; `render_context`, `build_agent`, `resolve_role_label` |
| `Rag` | rag.dfy | the retrieval debug record, `_get_rag_context`, context formatting, `_pick_rag_source`, `_truncate_text`, `_parse_chroma_host` |
| `Routing` | routing.dfy | `run_agent_raw`, `run_agent_reply`, both coordinator flows, the router and `run_orchestrator_reply` |
| `Simulation` | simulation.dfy | the auto-simulation stop rule |
| `Registry` | registry.dfy | agent and bot normalisers, `update_agent`, `update_bot`, `replace_bot_agents` |
| `Accounts` | accounts.dfy | user normalisers, `_serialize_user`, `verify_credentials`, `_update_user_impl`, the first-user form |
| `Providers` | providers.dfy | provider detection, API-key lookup and masking, the early returns of the connection test |
| `Integrations` | integrations.dfy | `upsert_config` normalisation and the Chatwoot webhook classification |
| `Overview` | overview.dfy | `_mask_value` and `_status_icon` |

Everything outside the process becomes a function-typed parameter (an
oracle):

- the language model call and its usage report;
- the Chroma query;
- `json.loads` and `ast.literal_eval`;
- Unicode NFKD decomposition, and `str.isalnum` on non-ASCII characters;
- `urlparse(...).hostname` and `.port`;
- PBKDF2 hash and verify;
- the HTTP send to Chatwoot;
- settings and environment lookups;
- database reads, and the uniqueness and existence checks.

Each stateful operation is a pure function of the values those calls return.

Behaviour of the code worth knowing, modelled as written:

- `clean_reply_text` is not idempotent: a quoted, bracketed reply loses its quotes on one pass and its brackets on the next (`RepairProperties.CleanNotIdempotent`).
- The dict fallback of `clean_reply_text` takes the first string among the top-level values only; nested lists and dicts are not searched (`Repair.FirstText`).
- The docstring at `src/core/orchestration.py:383-392` lists triple quotes among what the clean-up removes. The core copy's patterns `^['\"]3\s*` and `['\"]3\s*$` at `src/core/orchestration.py:404-405` match a quote followed by the digit 3, not three quotes. The live copy uses `{3}`. Both are modelled as written (`RepairProperties.TripleQuotesByCopy`).
- The first-user form checks for an empty username after the 3-20 length check has already rejected it, so that branch is dead (`Accounts.EmptyUsernameUnreachable`).

## Model

| member | source | states |
|---|---|---|
| PyValue.StringOrNone | src/core/orchestration.py:533-538 | missing or `None` gives nothing; a string gives its strip, and nothing exactly when blank; any text returned is non-empty and already stripped |
| PyValue.EscapeChar | src/core/orchestration.py:533-538 | within Latin-1, `str()` of a list or dict writes a character of a contained string as it stands exactly when Python counts it printable and it is neither the quote nor the backslash; any other character becomes a backslash escape |
| PyValue.ContainersAreText | src/core/orchestration.py:533-538 | a list or dict, even an empty one, is never read as missing text: `str()` of it opens with its bracket |
| PyText.ParseIntToString | src/frontend/views/bot_tests.py:1542 | `int(str(i)) == i` for every integer, so a port written out in decimal is read back as itself |
| ReplyPatterns.TagPrefixEnd | src/core/orchestration.py:401 | the `AgentReply` prefix pattern matches (length > 0) exactly when the text opens with the tag name, optionally after `<`, in any case; the match runs through every following colon and blank |
| ReplyPatterns.DropLeadingMarker | src/core/orchestration.py:404 | text without a leading marker is unchanged; otherwise what remains is a suffix at least one marker shorter, not starting with a blank |
| ReplyPatterns.DropTrailingMarker | src/core/orchestration.py:405 | the result is a prefix of the text; it is cut exactly where a marker followed only by blanks to the end begins, and the text is unchanged when there is none |
| ReplyPatterns.DropClosingTag | src/core/orchestration.py:407 | text that does not end in `</AgentReply>`, in any case and possibly before a final newline, is unchanged |
| ReplyPatterns.SearchFrom | src/core/orchestration.py:456-465 | a match is a quoted group at or after the start position; no match means the pattern matches at no later position |
| ReplyPatterns.Search | src/core/orchestration.py:450-465 | a found group is a slice of the text between two quotes, at least as long as the lazy group's minimum; text without a quote character never matches |
| Repair.Marker | src/core/orchestration.py:404-405 | the core copy strips a quote followed by `3`; the live copy strips three quote characters |
| Repair.BraceSlice | src/core/orchestration.py:519-523 | the brace step returns a contiguous slice of its input, and text already delimited by `{` and `}` unchanged |
| Repair.JsonCandidateInfix | src/core/orchestration.py:510-523 | the text handed to `json.loads` is always a contiguous slice of the model's text: nothing is added or reordered |
| Repair.ExtractJson | src/core/orchestration.py:505-530 | nothing for empty text, for text the decoder rejects and for a decoded value that is not an object; otherwise exactly the object decoded from the candidate text |
| RepairProperties.BraceDelimitedVerbatim | src/core/orchestration.py:519 | stripped text already delimited by braces is decoded as it stands |
| RepairProperties.FencedJson | src/core/orchestration.py:513-516 | a code fence tagged `json` around an object hands exactly that object's text to the decoder |
| RepairProperties.ProseWrappedObject | src/core/orchestration.py:519-523 | an object embedded in prose with no `{` before it and no `}` after it is cut out exactly |
| Repair.Decode | src/core/orchestration.py:423-433 | `json.loads` wins when it yields a non-`None` value; otherwise `ast.literal_eval` is tried; a `None` result counts as failure |
| Repair.PreferredText | src/core/orchestration.py:436-438 | the value of the first key, in priority order, that holds a string; nothing exactly when no listed key holds a string |
| Repair.FirstText | src/core/orchestration.py:439-441 | the first string value in insertion order, and nothing exactly when the dict holds no string value |
| Repair.DictText | src/core/orchestration.py:435-441 | a decoded dict yields a reply exactly when it holds some string value |
| Repair.FirstFallback | src/core/orchestration.py:456-465 | a fallback pattern only ever matches text holding a quote character |
| Repair.DropKeyPrefix | src/core/orchestration.py:446-447 | text with no key-assignment prefix is only stripped |
| Repair.CleanReplyText | src/core/orchestration.py:385-485 | empty text gives empty text; when the peeled text decodes to a dict with a string or to a string, that text is the reply |
| RepairProperties.DecodedDictReply | src/core/orchestration.py:435-441 | when the peeled text decodes to a dict holding a string, the reply is the dict's preferred text |
| RepairProperties.CleanBySalvage | src/core/orchestration.py:445-485 | when neither decoder accepts the peeled text, the reply comes from the salvage steps alone |
| RepairProperties.ShortLeftover | src/core/orchestration.py:481-485 | a leftover shorter than five characters is discarded exactly when it holds no alphanumeric character, and returned as it is otherwise |
| RepairProperties.PlainProseUnchanged | src/core/orchestration.py:385-485 | plain prose that the decoders reject comes back unchanged from both copies |
| RepairProperties.LiveTripleQuotes | src/frontend/views/bot_tests.py:1245-1246 | the live copy takes a triple-quoted plain reply out of its quotes |
| RepairProperties.CoreTripleQuotes | src/core/orchestration.py:404-405 | the core copy leaves two of the three quotes at each end of a triple-quoted plain reply |
| RepairProperties.TripleQuotesByCopy | src/core/orchestration.py:404-405 | the two copies disagree on every triple-quoted plain reply |
| RepairProperties.CleanNotIdempotent | src/core/orchestration.py:412-421 | cleaning a quoted, bracketed reply a second time changes it again, so the clean-up is not idempotent |
| Payload.SumUsage | src/core/orchestration.py:491-502 | exactly the three counters, each the sum of both operands' counts, with a missing operand or key counting 0 |
| Payload.SumUsageSymmetric | src/core/orchestration.py:491-502 | summing is symmetric |
| Payload.SumUsageUnit | src/core/orchestration.py:491-502 | summing with nothing gives the other operand's three counters, and doing so twice changes nothing |
| Payload.SumUsageRegroup | src/core/orchestration.py:491-502 | chained sums regroup freely |
| Payload.RunningTotalIsSum | src/core/orchestration.py:100-191 | the running total the router builds hop by hop holds, on each counter, the plain sum over the hops |
| Payload.ExtractMessage | src/core/orchestration.py:546-554 | an extracted message is non-empty and already stripped |
| Payload.ExtractMessageOrder | src/core/orchestration.py:546-554 | the message comes from the first of `mensagem`, `message`, `pergunta_clareadora` that holds text |
| Payload.HasMessageExtracts | src/core/orchestration.py:541-550 | when the payload has a message, it is the extracted message, so the `or` fallback never fires |
| Payload.NeedsHuman | src/core/orchestration.py:557-566 | true exactly when `precisa_humano` is `True`, or the action reads `escalar_humano`, or the destination is a string naming a human in any case |
| Payload.HandoffMessage | src/core/orchestration.py:569-574 | the fixed lead followed by `motivo_escalacao`, else `motivo`; the copy's default text when there is no reason |
| Payload.HandoffDistinct | src/core/orchestration.py:569-574 | a reasoned hand-off never reads as either copy's default text |
| Payload.SummarizePayload | src/core/orchestration.py:636-640 | `{}` for no payload or an empty one, and never larger than the payload |
| Payload.SummaryKeys | src/core/orchestration.py:636-640 | the summary hides exactly `mensagem` and `message` and shows every other key as it was |
| Payload.ReplyPayload | src/core/orchestration.py:361-362 | an `AgentReply` read back as a dict carries its message, flag, action value and reason, and no destination |
| Payload.ReplyNeedsHuman | src/core/orchestration.py:557-566 | a valid `AgentReply` needs a human exactly when its own flag says so |
| Payload.ReplyHandoffReason | src/core/orchestration.py:569-574 | a valid reply that needs a human hands off with its own stripped reason |
| Payload.LinkRole | src/core/orchestration.py:583-587 | a link contributes a role only when its agent exists, is a non-empty active record, and its label resolves to that role |
| Payload.FirstLinkFor | src/core/orchestration.py:582-589 | the index of the first link read as the role, and nothing exactly when no link is |
| Payload.MapAgentsByRole | src/core/orchestration.py:577-590 | a role is mapped exactly when some link reads as it, and to the agent of the first such link |
| Payload.AgentsByRole | src/core/orchestration.py:577-590 | each mapped role's agent comes from a link resolving to it with no earlier link doing so (first wins), and a role is mapped exactly when such a link exists |
| Architecture.Value | src/core/agent_architecture.py:13-37 | every enum value is snake-case text of at least six characters |
| Architecture.ParseRole | src/core/agent_architecture.py:13-20 | a parsed role has exactly the given text as its value |
| Architecture.RoleRoundTrip | src/core/agent_architecture.py:13-20 | every role is listed, is read back from its value, and is the only role with that value |
| Architecture.DestinationRoundTrip | src/core/agent_architecture.py:23-30 | every destination is read back from its value, and is the only one with that value |
| Architecture.ParseAction | src/core/agent_architecture.py:33-37 | only the four action values are accepted, each as its own member |
| Architecture.ActionRoundTrip | src/core/agent_architecture.py:33-37 | every action is read back from its value |
| Architecture.MakeRouteDecision | src/core/agent_architecture.py:54-61 | built exactly when the destination is a member, `confianca` lies in [0, 1] and `motivo` is non-empty; a confidence error is reported exactly when the confidence is out of range |
| Architecture.RouteDecisionRoundTrip | src/core/agent_architecture.py:54-61 | every valid decision is built back from its own fields |
| Architecture.RouteConfidenceBounds | src/core/agent_architecture.py:56 | a confidence of 0.8 is accepted, while 1.2 and -0.1 are refused on `confianca` alone |
| Architecture.MakeAgentReply | src/core/agent_architecture.py:64-78 | field errors come first; then an escalation without the flag, or a flagged reply with a blank reason, is refused with its own message; everything else is built |
| Architecture.AgentReplyRoundTrip | src/core/agent_architecture.py:64-78 | every valid reply is built back from its own fields |
| Architecture.AgentReplyLength | src/core/agent_architecture.py:66 | the message length check counts characters: a blank message passes, an empty one does not |
| Architecture.MakeHandoffSummary | src/core/agent_architecture.py:81-86 | built exactly when `resumo` is non-empty, with every field kept |
| Architecture.ParseOptionalDestination | src/core/agent_architecture.py:91 | `None` stays `None`, and text is accepted exactly when it is a destination value, which it reads back as |
| Architecture.FirstBrokenRule | src/core/agent_architecture.py:97-107 | nothing exactly when all three action rules hold; otherwise the message of the first rule broken, in the validator's order |
| Architecture.MakeCoordinatorDecision | src/core/agent_architecture.py:89-107 | field errors first; then a decision is built exactly when no rule is broken, and refused with the first broken rule's message |
| Architecture.CoordinatorDecisionRoundTrip | src/core/agent_architecture.py:89-107 | every valid decision is built back from its own fields |
| Architecture.CoordinatorRuleOrder | src/core/agent_architecture.py:99-106 | the three rules reject a blank answer, a redirect without destination and an escalation to a non-human, each with its own message |
| Architecture.MakeContext | src/core/agent_architecture.py:40-51 | a context is built exactly when the message is non-empty, with the given message, channel and origin |
| Architecture.ContextLines | src/core/agent_architecture.py:196-220 | six fixed lines in order, with `fora_horario` as sim/nao/-, then the names, ids and metadata lines that are set |
| Architecture.RenderContextLines | src/core/agent_architecture.py:203-221 | when no field holds a newline, the rendering splits back into exactly its lines |
| Architecture.RenderSystemPrompt | src/core/agent_architecture.py:224-227 | the role's base prompt, the context heading, then the rendered context, nothing else |
| Architecture.BuildAgent | src/core/agent_architecture.py:250-257 | the agent carries the role's display name and the model; triage gets the route contract, the summariser the summary contract, the coordinator the decision contract, and no other role gets these |
| Architecture.BuildAgents | src/core/agent_architecture.py:260-261 | one agent per role, each the one `build_agent` gives |
| Architecture.RawResultContract | src/core/orchestration.py:327-337 | a call gets a contract exactly when the agent's role resolves |
| Architecture.RawResultMatchesBuild | src/core/orchestration.py:327-337 | the contract a model call asks for is the one `build_agent` binds to the same role |
| Architecture.AsciiOnly | src/core/agent_architecture.py:298 | the ASCII characters of the text, and ASCII text unchanged |
| Architecture.NormalizeLabel | src/core/agent_architecture.py:291-299 | the normalised label is ASCII, free of upper case and of underscores; a missing or blank value gives the empty label |
| Architecture.ExactRole | src/core/agent_architecture.py:270-273 | the first role the label spells, with blanks read as underscores, and nothing exactly when it spells none |
| Architecture.ResolveNormalized | src/core/agent_architecture.py:264-288 | nothing for an empty label or one naming a human; an exact spelling wins over the keywords; otherwise the first keyword row that occurs decides; nothing when neither does |
| Architecture.ResolveRoleLabel | src/core/agent_architecture.py:264-266 | a missing or blank value resolves to no role |
| Architecture.SpelledNotHuman | src/core/agent_architecture.py:267-268 | no role's own value trips the human filter |
| Architecture.ResolveOwnValue | src/core/agent_architecture.py:264-273 | every role is recognised under its own value |
| Rag.EmptyRagDebug | src/core/orchestration.py:646-664 | retrieval counts as configured exactly when the identifier or the id is truthy; the status names which; nothing is consulted yet |
| Rag.MergeRagDebug | src/core/orchestration.py:667-674 | every `rag_`-prefixed entry of the retrieval record overrides the agent's debug; every other key keeps its old value |
| Rag.MergeShowsRecord | src/core/orchestration.py:667-674 | after the merge every entry of the retrieval record shows, and the agent's other keys are untouched |
| Rag.GetRagContext | src/core/orchestration.py:677-718 | empty context with status "nao configurado", "identificador do RAG nao encontrado", "consulta vazia", or a not-supported status for non-Chroma providers; `rag_consultado` exactly after a successful Chroma query, whose hits are formatted with status "ok" or "sem resultados"; a query error gives its message |
| Rag.ContextNeedsHits | src/core/orchestration.py:699-711 | a non-empty context only comes from a query that returned hits |
| Rag.PickRagSource | src/core/orchestration.py:801-806 | the text of the first truthy source key, in the copy's key order, else the empty text |
| Rag.SourceKeysDiffer | src/frontend/views/bot_tests.py:1573-1578 | the copies read different keys: a hit named only by `arquivo` has a source in the live copy alone |
| Rag.Truncate | src/frontend/views/bot_tests.py:1566-1570 | the stripped text when it fits; otherwise a prefix of it of `max(0, limit-3)` characters and an ellipsis, so the result never exceeds a limit of at least 3 |
| Rag.TruncateIdempotent | src/frontend/views/bot_tests.py:1566-1570 | truncating a truncated text changes nothing |
| Rag.LiveDocument | src/frontend/views/bot_tests.py:1556 | a live chunk's document is at most 600 characters |
| Rag.Chunk | src/core/orchestration.py:785-796 | a chunk opens with its ordinal and ends with a newline and the hit's text: the raw content in the core copy, the truncated document in the live one |
| Rag.FormatRagContext | src/core/orchestration.py:779-798 | the context is empty exactly when there are no hits, and opens with the first hit's chunk |
| Rag.FormatRagContextSnoc | src/core/orchestration.py:784-798 | one more hit adds a blank line and its own chunk and leaves the earlier chunks as they were |
| Rag.UrlSplit | src/core/orchestration.py:772 | the scheme is the lower-cased text before the first colon when that is a valid scheme, after dropping tabs and line breaks, and empty otherwise |
| Rag.CoreParseChromaHost | src/core/orchestration.py:768-776 | the host and port are never empty or zero; SSL exactly for an `https` scheme, with `http://` prefixed when `://` is missing |
| Rag.CoreBareHostIsPlain | src/core/orchestration.py:772-775 | in the core copy a setting without `://` is plain HTTP |
| Rag.LiveParseChromaHost | src/frontend/views/bot_tests.py:1532-1548 | an accepted host is never empty; SSL exactly for an `https` scheme; a blank-free setting with no scheme and no colon is its own host on port 8000 |
| Rag.SplitHostPort | src/frontend/views/bot_tests.py:1539-1545 | no colon: the stripped setting on port 8000; otherwise the stripped text before the first colon, with a blank port read as 8000 and any other port accepted exactly when `int()` reads it |
| Rag.SplitsAtColon | src/frontend/views/bot_tests.py:1539-1542 | `host:port` splits into that host and that port |
| Rag.LiveNamedHostRejected | src/frontend/views/bot_tests.py:1533-1547 | as written, the live copy rejects every `name:port` setting whose name is letters, because `urlsplit` reads the name as a scheme |
| Rag.LiveParseChromaHostFixed | src/frontend/views/bot_tests.py:1532-1548 | with the fix, an accepted host is never empty, and a setting without `://` is plain HTTP |
| Rag.LiveFixedSplitsHostPort | src/frontend/views/bot_tests.py:1539-1545 | with the fix, any bare `host:port` reads as that host and port over plain HTTP |
| Routing.PromptSections | src/core/orchestration.py:310-325 | persona, when truthy, then the agent prompt, when not blank, then always the session context, then the retrieved context, when any, each under its heading |
| Routing.RunAgentRaw | src/core/orchestration.py:290-379 | no model name or no settings: no call, no usage and the untouched debug record; otherwise a reply exactly when the model answers, with its usage, and the retrieval record of the prompt |
| Routing.CallContract | src/core/orchestration.py:327-337 | a model call asks for the contract `build_agent` binds to the agent's resolved role, and for plain text when the role is unknown |
| Routing.ReadAgentReply | src/core/orchestration.py:261-274 | no reply gives the agent error; an undecodable reply gives the raw text; a needed hand-off comes before the message, which comes before the raw text; the text is never empty |
| Routing.ReadPayload | src/core/orchestration.py:268-274 | for a decoded reply: the hand-off when a human is needed, else the message, else the raw text, never empty |
| Routing.AgentEscalationFirst | src/core/orchestration.py:268-272 | an agent payload flagged for a human is answered with the hand-off, even when it carries a message |
| Routing.RunAgentReply | src/core/orchestration.py:249-274 | one call to the agent, read as above, keeping that call's retrieval record and usage |
| Routing.LinkedDestination | src/core/orchestration.py:232-235 | a redirect target exists exactly when the destination is truthy and resolves to a mapped role |
| Routing.CoreCoordinatorFlow | src/core/orchestration.py:208-243 | the core coordinator: error for no reply; the raw text when the reply does not decode; its own message when it has one; otherwise one redirect exactly when the destination is linked, and the raw text when it is not; usage is the coordinator's, plus the destination's when redirected |
| Routing.LiveCoordinatorFlow | src/frontend/views/bot_tests.py:986-1027 | the live coordinator: error for no reply; the raw text when the reply does not decode; a needed hand-off first; a redirect exactly on `redirecionar` to a linked role; then the message; the raw text otherwise; usage summed over the calls made |
| Routing.CoordinatorFlow | src/core/orchestration.py:217-241 | one or two calls, starting with the coordinator; each counter of the usage is the sum over the calls made |
| Routing.SelfRedirectCallsAgain | src/core/orchestration.py:232-241 | a core coordinator that redirects to its own role is called a second time; the reply shown is that second call's, and the usage is the sum of both calls' usage |
| Routing.CoordinatorCopiesDiffer | src/frontend/views/bot_tests.py:1010-1025 | on a payload with a message that also asks for a human, the core copy shows the message and the live copy hands off |
| Routing.LiveRedirectNeedsAction | src/frontend/views/bot_tests.py:1013-1022 | the live coordinator never redirects unless the action reads `redirecionar` |
| Routing.ReadDirective | src/core/orchestration.py:118-151 | first match wins: a message answers; no destination keeps the raw text; a needed human escalates; a clarifying question is asked; otherwise the destination is forwarded to when it resolves and is exactly `Unknown` when not; an answer always comes from a message |
| Routing.RouterMessageFirst | src/core/orchestration.py:118-135 | the router shows its own message even when the same payload asks for a human, unlike an agent's reply |
| Routing.ForwardNeverHuman | src/core/orchestration.py:131-151 | a forward never goes to a destination naming a human |
| Routing.WithTransition | src/core/orchestration.py:174-175 | without a transition the text is unchanged; with one, the transition, a blank line, then the text |
| Routing.ForwardTo | src/core/orchestration.py:153-202 | a missing agent is answered at once with the copy's not-found text; the coordinator runs its flow; any other role's agent replies; usage adds the calls made |
| Routing.FollowDirective | src/core/orchestration.py:118-202 | each directive gives its own text; only a forward calls another agent; usage is the router's plus every later call's |
| Routing.RouteTurn | src/core/orchestration.py:97-116 | no router reply gives the router error; an undecodable one gives the raw text; both with the router's usage alone |
| Routing.TurnSpends | src/core/orchestration.py:100-191 | the reported usage counts every model call of the turn exactly once, on every counter |
| Routing.UsageIsRunningTotal | src/core/orchestration.py:100-191 | the reported usage is the running total of the usage of every model call made, in order, and of nothing else |
| Routing.OrchestratorReply | src/core/orchestration.py:84-94 | no model gives the not-configured text and no usage; an empty prompt fails building the session context; otherwise the routed turn over the linked agents mapped by role |
| Simulation.CheckTermination | src/frontend/views/bot_tests.py:476-495 | the safety stop exactly at 25 bot replies; otherwise the customer stops exactly when the last entry is theirs and its upper case holds both farewell words |
| Simulation.AssistantTurnsGrow | src/frontend/views/bot_tests.py:479 | one more entry adds one bot reply exactly when it is the bot's |
| Simulation.SafetyStopIsFinal | src/frontend/views/bot_tests.py:479-483 | once the safety limit is reached it stays reached, whatever is said next |
| Simulation.BotCannotSayGoodbye | src/frontend/views/bot_tests.py:486-491 | a bot reply never ends the simulation as a farewell |
| Simulation.FarewellEnds | src/frontend/views/bot_tests.py:486-491 | a customer entry with "tchau" and "obrigado" in lower case, in either order, ends a run below the limit |
| Registry.BoundedText | src/core/agents.py:85-91 | accepted exactly when the stripped text is non-empty and at most 255 long, and then is that text; the error says which bound failed |
| Registry.BoundedTextIdempotent | src/core/agents.py:85-91 | an accepted text is accepted again unchanged |
| Registry.RequiredText | src/core/agents.py:94-98 | accepted exactly when not blank, as the stripped text |
| Registry.OptionalText | src/core/agents.py:382 | nothing exactly when blank, else the stripped text |
| Registry.NormalizeVersion | src/core/agents.py:121-129 | a missing version is 1; a fractional float is refused; an integral value is accepted exactly when at least 1, as itself |
| Registry.NormalizeRole | src/core/agents.py:110-118 | missing or blank is refused; a member gives its value; text gives the value of the role it resolves to, and is refused when it resolves to none; the result is always a role value |
| Registry.RoleIdempotent | src/core/agents.py:110-118 | a stored role value normalises to itself, as text or as a member |
| Registry.NormalizeAgent | src/core/agents.py:359-363 | accepted exactly when all five fields are; a name error is reported first; the row holds the normalised fields |
| Registry.UpdateAgent | src/core/agents.py:345-392 | normalisation errors first, then a missing agent; an accepted update has a strictly higher version, a free name and an existing retrieval base |
| Registry.UpdateNeedsNewVersion | src/core/agents.py:373-374 | saving an agent again with the version it already has is always refused |
| Registry.NormalizeLinkRole | src/core/bots.py:114-119 | accepted exactly when the stripped text is `orquestrador` or `vinculado` |
| Registry.BotName | src/core/bots.py:246-250 | the normalised name; refused as taken exactly when it changes other than in letter case and the store says it is taken |
| Registry.BotVersion | src/core/bots.py:255-259 | no version is no change; a given version is accepted exactly when its normalised value is above the stored one |
| Registry.UpdateBot | src/core/bots.py:223-268 | a missing bot is refused; an accepted update writes nothing exactly when no field is given, and otherwise writes exactly the normalised given fields |
| Registry.UpdateBotWith | src/core/bots.py:252-268 | after the name step: the description, version, flag and persona as given and normalised; nothing to write exactly when every field is empty |
| Registry.RecaseSkipsUniqueness | src/core/bots.py:248-249 | renaming a bot only in letter case never consults the uniqueness check |
| Registry.ReplaceBotAgents | src/core/bots.py:308-336 | the orchestrator id is required and the bot must exist; the links are exactly the set of ids plus the orchestrator, the orchestrator linked as `orquestrador` and every other id as `vinculado`; accepted exactly when every linked agent exists |
| Registry.OneOrchestrator | src/core/bots.py:325-333 | exactly one agent is the orchestrator, and every stored role passes the link-role rule |
| Registry.LinksIgnoreOrder | src/core/bots.py:316-317 | the stored links depend only on the set of ids, not on their order or repeats |
| Accounts.NormalizeUsername | src/core/auth.py:146-150 | accepted exactly when the stripped, lower-cased name has 3 to 20 characters, and then is that name |
| Accounts.UsernameIdempotent | src/core/auth.py:146-150 | a normalised username normalises to itself |
| Accounts.MatchEmail | src/core/auth.py:47 | a one-pass scan that accepts exactly the language of the e-mail pattern |
| Accounts.NoSpaceAllowed | src/core/auth.py:47 | no accepted e-mail holds whitespace |
| Accounts.OneAtOnly | src/core/auth.py:47 | no accepted e-mail holds two `@` |
| Accounts.NormalizeEmail | src/core/auth.py:153-157 | accepted exactly when the stripped, lower-cased text matches the pattern, and then is that text, holding an `@` |
| Accounts.EmailIdempotent | src/core/auth.py:153-157 | a normalised e-mail normalises to itself |
| Accounts.PasswordError | src/core/auth.py:160-162 | an error exactly for a password shorter than 6 characters |
| Accounts.ValidateRole | src/core/auth.py:165-169 | accepted exactly when the stripped, upper-cased role is ADMIN or USER, and then is that role |
| Accounts.RoleIdempotent | src/core/auth.py:165-169 | a validated role validates to itself |
| Accounts.RoleAnyCase | src/core/auth.py:165-169 | the verdict depends only on the stripped, upper-cased text, so any letter case and surrounding blanks are accepted alike; `" user "` gives USER |
| Accounts.SerializeUser | src/core/auth.py:123-126 | the record never holds `password_hash` and keeps every other key's value |
| Accounts.VerifyCredentials | src/core/auth.py:371-385 | a bad username is refused; an unknown user, an `is_active` set to any falsy value, or a password the hash refuses gives (False, None); a row without a hash raises; an active user whose hash verifies logs in with the record minus its hash |
| Accounts.InactiveCannotLogIn | src/core/auth.py:380-381 | a user whose `is_active` is any falsy value cannot log in, whatever the password |
| Accounts.UpdateUser | src/core/auth.py:304-339 | a conflicting username or e-mail is refused, then a missing row; otherwise the values written |
| Accounts.UpdateWritesIdentity | src/core/auth.py:323-327 | username, full name and e-mail are always written, as given |
| Accounts.UpdateWritesHash | src/core/auth.py:328-329 | the hash is written exactly when a new password is given, and is that password's hash |
| Accounts.UpdateWritesActive | src/core/auth.py:330-331 | the active flag is written exactly when given and the table has the column |
| Accounts.UpdateWritesRole | src/core/auth.py:332-333 | the role is written exactly when given, as given |
| Accounts.UpdateWritesOnlyColumns | src/core/auth.py:323-333 | nothing outside the six user columns is written |
| Accounts.ValidateFirstUser | src/frontend/app.py:180-210 | no error exactly when every check passes; the checks report in source order: username length, password length, blank full name, blank or invalid e-mail, then the mismatch, each with its own message |
| Accounts.EmptyUsernameUnreachable | src/frontend/app.py:196-201 | the empty-username message can never be returned |
| Accounts.AcceptedFormIsValidUser | src/frontend/app.py:195-210 | a form the page accepts passes the user store's username, e-mail and password checks |
| Providers.ValidateName | src/core/ia_settings.py:111-117 | accepted exactly when the stripped text is non-empty and at most 255 long; each error names the field |
| Providers.DetectProviderKind | src/core/ia_settings.py:293-309 | a detected family's word occurs in the stripped, lower-cased name |
| Providers.DetectMatchesTable | src/core/ia_settings.py:293-309 | the kind is that of the first row of the keyword table with a word in the name, `unknown` when none |
| Providers.GoogleBeforeVertex | src/core/ia_settings.py:297-300 | a name mentioning both Google and Vertex, and not OpenAI, is a Gemini provider |
| Providers.UnknownMeansNoWord | src/core/ia_settings.py:293-309 | a name is `unknown` exactly when it mentions none of the table's words |
| Providers.FirstGiven | src/core/ia_settings.py:317 | the first given text of the chain, and nothing exactly when none is given |
| Providers.EnvName | src/core/ia_settings.py:312-331 | a variable name exists exactly for the six testable families |
| Providers.ProviderApiKey | src/core/ia_settings.py:312-331 | OpenAI's setting as it stands; Gemini's first given among four sources; the other families' setting, else environment; none for Vertex and unknown |
| Providers.MaskKey | src/core/ia_settings.py:337-343 | nothing when the key is missing or blank; otherwise 1 to 4 characters ending the stripped key, and the whole of a short key |
| Providers.MaskShowsOnlyTail | src/core/ia_settings.py:342 | the shown part depends only on the last four stripped characters |
| Providers.KeySuffix | src/core/ia_settings.py:334-343 | the masked key of the detected family and that family's variable name |
| Providers.ConnectionPrecheck | src/core/ia_settings.py:347-356 | Vertex and unknown providers are refused with their messages; the test proceeds exactly for a known family with a given key |
| Providers.MissingKeyNamesVariable | src/core/ia_settings.py:353-356 | a missing key is reported under the family's own variable, never the `API_KEY` fallback |
| Providers.TestConnection | src/core/ia_settings.py:346-412 | an early refusal is returned as it is; success exactly when the checks pass and the model gives a non-blank answer |
| Providers.PrecheckSkipsModel | src/core/ia_settings.py:347-356 | when a check fails early the model is never consulted |
| Integrations.TrimUrl | src/core/integration_chatwoot_meta.py:141 | a prefix of the stripped URL that does not end in `/`, with only slashes cut off |
| Integrations.WebhookPath | src/core/integration_chatwoot_meta.py:145-165 | the stored path always starts with `/`; the default when none is given, otherwise the stripped path, prefixed when needed |
| Integrations.PathIdempotent | src/core/integration_chatwoot_meta.py:145-148 | a stored path, submitted again, is stored unchanged |
| Integrations.UpsertConfig | src/core/integration_chatwoot_meta.py:137-165 | as written: refused exactly when the raw base URL or token is empty; otherwise the trimmed URL, stripped token, trimmed external URL when set and the normalised path |
| Integrations.EmptySettingsAccepted | src/core/integration_chatwoot_meta.py:137-142 | a base URL of `/` and a token of one blank pass the check and are stored empty |
| Integrations.UpsertConfigChecked | src/core/integration_chatwoot_meta.py:137-142 | with the check made after normalisation the stored URL and token are never empty, and every other input is stored as before |
| Integrations.ChatwootWebhook | src/backend/api/webhooks.py:75-153 | invalid JSON is ignored; a non-dict body raises; another event is ignored; a sender that is not a dict raises; a message that is not an incoming public one from a contact is ignored as `sender_direction_or_private`; a customer message goes on to `AnswerConversation` |
| Integrations.AnswerConversation | src/backend/api/webhooks.py:108-153 | a non-dict conversation or account raises; a falsy conversation id gives `missing_conversation_id`, then a falsy account id `missing_account_id`; with both, a failed send gives `send_failed` with its detail and a successful one `ok` with the conversation id |
| Integrations.OutgoingNeverAnswered | src/backend/api/webhooks.py:92-106 | a message that is not incoming is never answered, and the send is never consulted |
| Integrations.ConversationIdFallback | src/backend/api/webhooks.py:108-110 | the top-level `conversation_id` is used when the conversation object is missing |
| Integrations.MissingAccountReported | src/backend/api/webhooks.py:121-126 | with no account anywhere the webhook reports it and sends nothing |
| Overview.MaskValue | src/frontend/views/overview.py:75-80 | "não configurada" for a missing or empty value, "***" up to six characters, else the first three and last two characters around "..." |
| Overview.MaskShowsFiveCharacters | src/frontend/views/overview.py:80 | what is shown of a long secret depends on five of its characters only |
| Overview.MaskHidesValue | src/frontend/views/overview.py:75-80 | a secret shown as itself is "***" or has "..." in the middle of eight characters |
| Overview.StatusIcon | src/frontend/views/overview.py:65-72 | ok and warn get their own icon and style; anything else gets the info pair |
| Overview.IconMatchesStyle | src/frontend/views/overview.py:65-72 | two statuses get the same icon exactly when they get the same style |

## Left out

- The language-model call (`Agent.run`, `OpenAIModel`, `run_async`) is a parameter of the model: it is foreign library code over the network. It takes the call's position in the turn along with model name, instructions, contract and prompt, so an agent called twice in one turn may answer differently each time, and it returns an optional reply and usage.
- `_query_chromadb` and the embeddings are network I/O: a parameter returning hits or an error message.
- `json.loads`, `ast.literal_eval`, NFKD decomposition and `str.isalnum` on non-ASCII characters are library behaviour, passed in as functions.
- PyValue.StrRepr: `repr` escapes a character exactly when `str.isprintable` rejects it, and above U+00FF that is Unicode character data, like NFKD. The model uses printability only within Latin-1, so characters above U+00FF such as U+200B, U+2028, U+3000 and U+FEFF are written as they stand rather than as `\u`/`\U` escapes.
- `urlparse(...).hostname` and `.port` are passed in; only the scheme and network-location split is modelled.
- PBKDF2 hashing and verification, the Chatwoot HTTP send, settings and environment reads are I/O or cryptography, passed in as functions.
- Database reads and writes are out of scope, and so are table creation, seeding, `create_*` and `delete_*`. Stored rows, existence and uniqueness checks are parameters, and an update is modelled as the values it would write.
- The `debug_info` bookkeeping of the router is not modelled, except `_summarize_payload` and `_merge_rag_debug`. This covers `_init_debug_info`, `_context_debug`, `_agent_debug` and the responder-name decoration at `src/core/orchestration.py:176-177`. It is display-only.
- Logging (`append_log`, `log_llm_interaction`) is side-effecting I/O that does not affect any result.
- Float formatting of distances (`{dist:.4f}`) is left out because floating-point output is not modelled. The distance text is a parameter.
- `confianca` is a real number, not an IEEE double.
- Pydantic's coercion of mistyped inputs (for example, a string given for a boolean) is not modelled. Contract inputs arrive already typed, except the enum fields, which are parsed from text.
- `AGENT_SYSTEM_PROMPTS` is a parameter. Its prompt texts are data, not logic.
- The third copy of the clean-up in `bot_simulator.py` and every Streamlit page body are UI code.
- `rag_utils.py` file resolution is filesystem I/O.
- The `get_settings()` failure in `run_agent_raw` is a boolean parameter, and an exception raised by the model call is an absent reply.
- Repair.CleanReplyText: its contract states only the empty and decoded-reply cases. The salvage path is stated by the `RepairProperties` lemmas for the input shapes they name, not for every text.
- PyText.Lower and PyText.Upper: exact on ASCII and on the non-ASCII characters whose case mapping involves an ASCII letter. Other non-ASCII characters are kept unchanged, which weakens every case-folding contract on such text.
- PyText.ParseInt: accepts ASCII decimal digits only. Python's `int()` also accepts other Unicode decimal digits.
- Overview.MaskHidesValue: states only the shape of a secret that masks to itself, not that every such shape does.
- Architecture.RenderContext: its own contract states only the first line. The full layout is stated by `ContextLines` and `RenderContextLines`.
- Providers.TestConnection: the failure texts of building or reaching a model come from the model parameter and are not pinned down.

## Findings

| source | as written | input that shows it | evidently intended | confidence | as-written member | corrected member |
|---|---|---|---|---|---|---|
| src/frontend/views/bot_tests.py:1533-1547 | `urlparse(chroma_host)` reads the name before the colon of a bare `host:port` as a URL scheme, so the scheme branch runs, finds no host and raises `CHROMA_HOST invalido.` | `chroma:8000` | the `host:port` branch for every setting without `://`, giving host `chroma`, port 8000, no SSL | medium, not executed | Rag.LiveNamedHostRejected | Rag.LiveFixedSplitsHostPort |
| src/core/integration_chatwoot_meta.py:137-142 | the required-field check looks at the raw text before normalisation, so values that normalise to nothing pass it | base URL `/`, token ` ` (one blank) | refuse a base URL or token that is empty once normalised | medium, not executed | Integrations.EmptySettingsAccepted | Integrations.UpsertConfigChecked |
