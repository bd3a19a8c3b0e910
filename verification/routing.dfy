/**
 * The router (src/core/orchestration.py: run_orchestrator_reply,
 * _run_coordinator_flow, run_agent_reply, run_agent_raw; and the live copies
 * in src/frontend/views/bot_tests.py). Every model call, the vector query,
 * the settings lookup, `json.loads` and Unicode folding are parameters
 * gathered in `Env`; what is left is the precedence chains over the decoded
 * replies and the running token count.
 */
module Routing {
  import opened Wrappers
  import opened PyText
  import opened PyValue
  import opened Architecture
  import opened Payload
  import opened Rag
  import Repair

  /** What the model call gives back: its raw text and its token usage. */
  datatype ModelReply = ModelReply(raw: string, usage: Option<Usage>)

  /**
   * Everything outside the router: `json.loads`, NFKD folding, whether the
   * settings load, the model call (model name, system prompt, output
   * contract, user prompt; `None` when it raises), the vector query and the
   * distance formatting.
   */
  datatype Env = Env(
    loads: string -> Option<Value>,
    nfkd: string -> string,
    settingsOk: bool,
    llm: (nat, string, string, Option<Contract>, string) -> Option<ModelReply>,
    query: (Value, string) -> RagQuery,
    dist: Value -> string)

  const NoResponse := "Sem resposta."
  const AgentError := "Erro ao gerar resposta com o agente."
  const DestinationNotFound := "Agente destino nao encontrado."
  const CoordinatorNotFound := "Agente coordenador nao encontrado."
  const DestinationUnknown := "Agente destino nao reconhecido."

  /** The text when the orchestrator has no model. */
  function ModelMissing(copy: Repair.Copy): string {
    if copy.Core? then "Modelo do agente nao configurado." else "Modelo do agente orquestrador nao configurado."
  }

  /** The text when the orchestrator's own call fails. */
  function RouterError(copy: Repair.Copy): string {
    if copy.Core? then AgentError else "Erro ao gerar resposta com o agente orquestrador."
  }

  /** The text when the coordinator's call fails. */
  function CoordinatorError(copy: Repair.Copy): string {
    if copy.Core? then AgentError else "Erro ao gerar resposta com o agente coordenador."
  }

  /** `raw or "Sem resposta."` */
  function OrNoResponse(raw: string): (r: string)
    ensures r != []
    ensures raw != [] ==> r == raw
  {
    if raw != [] then raw else NoResponse
  }

  // ---------------------------------------------------------------- one model call

  /** `(record.get(key) or "").strip()` */
  function StrippedField(agent: Dict, key: string): string {
    Strip(Str(PyOr(Lookup(agent, key), VStr(""))))
  }

  /** The agent's model name. */
  function ModelName(agent: Dict): string {
    StrippedField(agent, "model")
  }

  const PersonaHeading := "=== INSTRUÇÕES GLOBAIS (PERSONA) ===\n"
  const AgentHeading := "=== INSTRUÇÕES DO AGENTE ===\n"
  const SessionHeading := "=== CONTEXTO DA SESSÃO ===\n"
  const RagHeading := "=== CONTEXTO RAG ===\n"

  /** `[x]` when `keep`, else nothing. */
  function When(keep: bool, x: string): (r: seq<string>)
    ensures |r| == (if keep then 1 else 0)
    ensures keep ==> r[0] == x
  {
    if keep then [x] else []
  }

  /**
   * The sections of the system prompt, in order: the bot persona when
   * truthy, the agent's own (stripped) prompt when not blank, the session
   * context always, and the retrieved context when there is any.
   */
  function PromptSections(persona: Value, own: string, session: string, ragText: string): (r: seq<string>)
    ensures var skip := (if Truthy(persona) then 1 else 0) + (if own != [] then 1 else 0);
            skip < |r| && r[skip] == SessionHeading + session
            && |r| == skip + 1 + (if ragText != [] then 1 else 0)
    ensures Truthy(persona) ==> r[0] == PersonaHeading + Str(persona)
    ensures own != [] ==> r[if Truthy(persona) then 1 else 0] == AgentHeading + own
    ensures ragText != [] ==> r[|r| - 1] == RagHeading + ragText
  {
    var head := When(Truthy(persona), PersonaHeading + Str(persona)) + When(own != [], AgentHeading + own);
    var tail := When(ragText != [], RagHeading + ragText);
    var r := head + [SessionHeading + session] + tail;
    assert r[|head|] == SessionHeading + session;
    assert r[..|head|] == head;
    r
  }

  /** The system prompt: the sections joined by a blank line. */
  function SystemPrompt(agent: Dict, ctx: AgentContext, ragText: string): string {
    Join("\n\n", PromptSections(Lookup(agent, "bot_persona"), StrippedField(agent, "system_prompt"), RenderContext(ctx), ragText))
  }

  /** What one agent call gives: the raw reply (`None` when there is none), the retrieval debug and the usage. */
  datatype RawOutcome = RawOutcome(raw: Option<string>, rag: RagDebug, usage: Option<Usage>)

  /**
   * `run_agent_raw`: no call without a model name or settings; otherwise the
   * retrieved context goes into the system prompt and the model is called
   * with the output contract of the role `papel` resolves to.
   */
  function RunAgentRaw(copy: Repair.Copy, env: Env, n: nat, agent: Dict, prompt: string, ctx: AgentContext): (r: RawOutcome)
    ensures (ModelName(agent) == [] || !env.settingsOk) ==> r == RawOutcome(None, EmptyRagDebug(agent), None)
    ensures r.raw.Some? <==> ModelName(agent) != [] && env.settingsOk && CallModel(copy, env, n, agent, prompt, ctx).Some?
    ensures r.raw.Some? ==> r.raw.value == CallModel(copy, env, n, agent, prompt, ctx).value.raw
                            && r.usage == CallModel(copy, env, n, agent, prompt, ctx).value.usage
    ensures r.raw.None? ==> r.usage.None?
    ensures (ModelName(agent) != [] && env.settingsOk) ==> r.rag == GetRagContext(copy, env.dist, agent, prompt, env.query).1
  {
    if ModelName(agent) == [] || !env.settingsOk then RawOutcome(None, EmptyRagDebug(agent), None)
    else
      var rag := GetRagContext(copy, env.dist, agent, prompt, env.query).1;
      match CallModel(copy, env, n, agent, prompt, ctx)
      case None => RawOutcome(None, rag, None)
      case Some(reply) => RawOutcome(Some(reply.raw), rag, reply.usage)
  }

  /** The model call itself, with the system prompt built around the retrieved context. */
  function CallModel(copy: Repair.Copy, env: Env, n: nat, agent: Dict, prompt: string, ctx: AgentContext): Option<ModelReply> {
    var ragText := GetRagContext(copy, env.dist, agent, prompt, env.query).0;
    env.llm(n, ModelName(agent), SystemPrompt(agent, ctx, ragText),
            RawResultContract(ResolveRoleLabel(env.nfkd, Lookup(agent, "papel"))), prompt)
  }

  /** The contract a call is bound to is the one the agent builder gives the same role; an unresolved role gets plain text. */
  lemma CallContract(env: Env, agent: Dict)
    ensures var role := ResolveRoleLabel(env.nfkd, Lookup(agent, "papel"));
            RawResultContract(role).Some? <==> role.Some?
    ensures var role := ResolveRoleLabel(env.nfkd, Lookup(agent, "papel"));
            role.Some? ==> RawResultContract(role) == Some(BuildAgent(role.value, ModelName(agent)).contract)
  {
    var role := ResolveRoleLabel(env.nfkd, Lookup(agent, "papel"));
    if role.Some? {
      RawResultMatchesBuild(role.value, ModelName(agent));
    }
  }

  // ---------------------------------------------------------------- an agent's reply

  /**
   * One user turn as the router sees it: the copy, `json.loads`, NFKD
   * folding and the call of any agent on this turn's prompt and context.
   */
  datatype Session = Session(copy: Repair.Copy, loads: string -> Option<Value>, nfkd: string -> string,
                             call: (nat, Dict) -> RawOutcome)
  {
    /** The next model call of the turn, made to `agent`. */
    function Next(agent: Dict): RawOutcome {
      call(0, agent)
    }

    /** The rest of the turn, once that call is made: every later call moves up one place. */
    function After(): (t: Session)
      ensures t.copy == copy && t.loads == loads && t.nfkd == nfkd
      ensures forall n: nat, agent :: t.call(n, agent) == call(n + 1, agent)
    {
      this.(call := (n: nat, agent: Dict) => call(n + 1, agent))
    }
  }

  /** The session of one turn: every agent is called through `run_agent_raw` with the same prompt and context. */
  function TurnSession(copy: Repair.Copy, env: Env, prompt: string, ctx: AgentContext): (s: Session)
    ensures s.copy == copy && s.loads == env.loads && s.nfkd == env.nfkd
    ensures forall n: nat, agent :: s.call(n, agent) == RunAgentRaw(copy, env, n, agent, prompt, ctx)
  {
    Session(copy, env.loads, env.nfkd, (n: nat, agent: Dict) => RunAgentRaw(copy, env, n, agent, prompt, ctx))
  }

  /** What a reply step shows: the text and the decoded payload, if any. */
  datatype ReplyRead = ReplyRead(text: string, payload: Option<Dict>)

  /**
   * The reading `run_agent_reply` applies to an agent's raw reply: an error
   * for none, the raw text when it does not decode, then the hand-off when
   * the payload needs a human, then its message, and the raw text otherwise.
   */
  function ReadAgentReply(copy: Repair.Copy, loads: string -> Option<Value>, raw: Option<string>): (r: ReplyRead)
    ensures r.text != []
    ensures raw.None? ==> r == ReplyRead(AgentError, None)
    ensures raw.Some? ==> r.payload == Repair.ExtractJson(loads, raw.value)
    ensures (raw.Some? && r.payload.None?) ==> r.text == OrNoResponse(raw.value)
    ensures (r.payload.Some? && NeedsHuman(r.payload.value, Lookup(r.payload.value, "agente_destino")))
              ==> r.text == HandoffMessage(copy, r.payload.value)
    ensures (r.payload.Some? && !NeedsHuman(r.payload.value, Lookup(r.payload.value, "agente_destino"))
             && HasMessage(r.payload.value))
              ==> Some(r.text) == ExtractMessage(r.payload.value)
    ensures (r.payload.Some? && !NeedsHuman(r.payload.value, Lookup(r.payload.value, "agente_destino"))
             && !HasMessage(r.payload.value))
              ==> r.text == OrNoResponse(raw.value)
  {
    match raw
    case None => ReplyRead(AgentError, None)
    case Some(text) =>
      match Repair.ExtractJson(loads, text)
      case None => ReplyRead(OrNoResponse(text), None)
      case Some(p) => ReplyRead(ReadPayload(copy, text, p), Some(p))
  }

  /** The text shown for a decoded reply: the hand-off when a human is needed, then the message, then the raw text. */
  function ReadPayload(copy: Repair.Copy, text: string, p: Dict): (r: string)
    ensures r != []
    ensures NeedsHuman(p, Lookup(p, "agente_destino")) ==> r == HandoffMessage(copy, p)
    ensures (!NeedsHuman(p, Lookup(p, "agente_destino")) && HasMessage(p)) ==> Some(r) == ExtractMessage(p)
    ensures (!NeedsHuman(p, Lookup(p, "agente_destino")) && !HasMessage(p)) ==> r == OrNoResponse(text)
  {
    if NeedsHuman(p, Lookup(p, "agente_destino")) then HandoffMessage(copy, p)
    else if HasMessage(p) then
      HasMessageExtracts(p);
      ExtractMessage(p).value
    else OrNoResponse(text)
  }

  /** An agent's reply never shows its message over a needed hand-off: escalation comes first. */
  lemma AgentEscalationFirst(copy: Repair.Copy, loads: string -> Option<Value>, raw: string)
    requires Repair.ExtractJson(loads, raw).Some?
    requires Get(Repair.ExtractJson(loads, raw).value, "precisa_humano") == Some(VBool(true))
    ensures ReadAgentReply(copy, loads, Some(raw)).text == HandoffMessage(copy, Repair.ExtractJson(loads, raw).value)
  {
  }

  /** What `run_agent_reply` gives: the reading plus the call's retrieval debug and usage. */
  datatype ReplyOutcome = ReplyOutcome(text: string, payload: Option<Dict>, rag: RagDebug, usage: Option<Usage>)

  /** `run_agent_reply`: one call to the agent, read by `ReadAgentReply`. */
  function RunAgentReply(s: Session, agent: Dict): (r: ReplyOutcome)
    ensures ReplyRead(r.text, r.payload) == ReadAgentReply(s.copy, s.loads, s.Next(agent).raw)
    ensures r.rag == s.Next(agent).rag && r.usage == s.Next(agent).usage
  {
    var raw := s.Next(agent);
    var read := ReadAgentReply(s.copy, s.loads, raw.raw);
    ReplyOutcome(read.text, read.payload, raw.rag, raw.usage)
  }

  // ---------------------------------------------------------------- the coordinator

  /**
   * What the coordinator flow gives: the text, the coordinator's payload,
   * the agent whose reply is shown, that reply's payload, its retrieval
   * debug, the usage so far, and the agents called, in order.
   */
  datatype FlowOutcome = FlowOutcome(
    text: string, coordinatorPayload: Option<Dict>, responder: Option<Dict>, responderPayload: Option<Dict>,
    rag: RagDebug, usage: Option<Usage>, hops: seq<Dict>)

  /** The role a coordinator's payload redirects to, when it is linked: the destination resolves to a mapped role. */
  function LinkedDestination(nfkd: string -> string, p: Dict, byRole: map<AgentRole, Dict>): (r: Option<AgentRole>)
    ensures r.Some? ==> r.value in byRole && Truthy(Lookup(p, "agente_destino"))
                        && ResolveRoleLabel(nfkd, Lookup(p, "agente_destino")) == r
    ensures r.None? ==> !Truthy(Lookup(p, "agente_destino"))
                        || ResolveRoleLabel(nfkd, Lookup(p, "agente_destino")).None?
                        || ResolveRoleLabel(nfkd, Lookup(p, "agente_destino")).value !in byRole
  {
    var destination := Lookup(p, "agente_destino");
    if !Truthy(destination) then None
    else
      match ResolveRoleLabel(nfkd, destination)
      case Some(role) => if role in byRole then Some(role) else None
      case None => None
  }

  /** Does the live coordinator redirect: the action reads `redirecionar` and the destination is linked? */
  predicate LiveRedirects(nfkd: string -> string, p: Dict, byRole: map<AgentRole, Dict>) {
    TextAt(p, "acao") == Some("redirecionar") && LinkedDestination(nfkd, p, byRole).Some?
  }

  /**
   * The core `_run_coordinator_flow`: an error for no reply, the raw text
   * when it does not decode, then the coordinator's own message, then a
   * redirect to a linked destination, and the raw text otherwise.
   */
  function CoreCoordinatorFlow(s: Session, coordinator: Dict, byRole: map<AgentRole, Dict>): (r: FlowOutcome)
    ensures var raw := s.Next(coordinator);
            raw.raw.None? ==> r == FlowOutcome(AgentError, None, Some(coordinator), None, raw.rag, raw.usage, [coordinator])
    ensures s.Next(coordinator).raw.Some? ==> r.coordinatorPayload == Repair.ExtractJson(s.loads, s.Next(coordinator).raw.value)
    ensures (r.coordinatorPayload.Some? && HasMessage(r.coordinatorPayload.value))
              ==> Some(r.text) == ExtractMessage(r.coordinatorPayload.value) && r.responder == Some(coordinator) && |r.hops| == 1
    ensures (r.coordinatorPayload.Some? && !HasMessage(r.coordinatorPayload.value)
             && LinkedDestination(s.nfkd, r.coordinatorPayload.value, byRole).Some?)
              ==> var agent := byRole[LinkedDestination(s.nfkd, r.coordinatorPayload.value, byRole).value];
                  r.text == RunAgentReply(s.After(), agent).text && r.responder == Some(agent) && r.hops == [coordinator, agent]
    ensures |r.hops| == 2 <==> (r.coordinatorPayload.Some? && !HasMessage(r.coordinatorPayload.value)
                                && LinkedDestination(s.nfkd, r.coordinatorPayload.value, byRole).Some?)
    ensures (s.Next(coordinator).raw.Some? && Repair.ExtractJson(s.loads, s.Next(coordinator).raw.value).None?)
              ==> r.text == OrNoResponse(s.Next(coordinator).raw.value) && r.responder == Some(coordinator)
    ensures (s.Next(coordinator).raw.Some? && r.coordinatorPayload.Some? && !HasMessage(r.coordinatorPayload.value)
             && LinkedDestination(s.nfkd, r.coordinatorPayload.value, byRole).None?)
              ==> r.text == OrNoResponse(s.Next(coordinator).raw.value) && r.responder == Some(coordinator)
    ensures 1 <= |r.hops| <= 2 && r.hops[0] == coordinator
    ensures r.usage == (if |r.hops| == 1 then s.Next(coordinator).usage
                        else Some(SumUsage(s.Next(coordinator).usage, s.After().Next(r.hops[1]).usage)))
  {
    var raw := s.Next(coordinator);
    match raw.raw
    case None => FlowOutcome(AgentError, None, Some(coordinator), None, raw.rag, raw.usage, [coordinator])
    case Some(text) =>
      match Repair.ExtractJson(s.loads, text)
      case None => FlowOutcome(OrNoResponse(text), None, Some(coordinator), None, raw.rag, raw.usage, [coordinator])
      case Some(p) =>
        if HasMessage(p) then
          HasMessageExtracts(p);
          FlowOutcome(ExtractMessage(p).value, Some(p), Some(coordinator), Some(p), raw.rag, raw.usage, [coordinator])
        else
          match LinkedDestination(s.nfkd, p, byRole)
          case Some(role) =>
            var reply := RunAgentReply(s.After(), byRole[role]);
            FlowOutcome(reply.text, Some(p), Some(byRole[role]), reply.payload, reply.rag,
                        Some(SumUsage(raw.usage, reply.usage)), [coordinator, byRole[role]])
          case None => FlowOutcome(OrNoResponse(text), Some(p), Some(coordinator), None, raw.rag, raw.usage, [coordinator])
  }

  /**
   * The live `_run_coordinator_flow`: an error for no reply, the raw text
   * when it does not decode, then a hand-off when a human is needed, then a
   * redirect only for the `redirecionar` action to a linked destination,
   * then the coordinator's message, and the raw text otherwise.
   */
  function LiveCoordinatorFlow(s: Session, coordinator: Dict, byRole: map<AgentRole, Dict>): (r: FlowOutcome)
    ensures var raw := s.Next(coordinator);
            raw.raw.None? ==> r == FlowOutcome(CoordinatorError(Repair.Live), None, None, None, raw.rag,
                                               Some(SumUsage(None, raw.usage)), [coordinator])
    ensures s.Next(coordinator).raw.Some? ==> r.coordinatorPayload == Repair.ExtractJson(s.loads, s.Next(coordinator).raw.value)
    ensures (r.coordinatorPayload.Some?
             && NeedsHuman(r.coordinatorPayload.value, Lookup(r.coordinatorPayload.value, "agente_destino")))
              ==> r.text == HandoffMessage(Repair.Live, r.coordinatorPayload.value) && |r.hops| == 1
    ensures |r.hops| == 2 <==> (r.coordinatorPayload.Some?
                                && !NeedsHuman(r.coordinatorPayload.value, Lookup(r.coordinatorPayload.value, "agente_destino"))
                                && LiveRedirects(s.nfkd, r.coordinatorPayload.value, byRole))
    ensures |r.hops| == 2 ==> var agent := byRole[LinkedDestination(s.nfkd, r.coordinatorPayload.value, byRole).value];
                              r.text == RunAgentReply(s.After(), agent).text && r.responder == Some(agent) && r.hops == [coordinator, agent]
    ensures (r.coordinatorPayload.Some? && |r.hops| == 1
             && !NeedsHuman(r.coordinatorPayload.value, Lookup(r.coordinatorPayload.value, "agente_destino"))
             && HasMessage(r.coordinatorPayload.value))
              ==> Some(r.text) == ExtractMessage(r.coordinatorPayload.value)
    ensures (s.Next(coordinator).raw.Some? && Repair.ExtractJson(s.loads, s.Next(coordinator).raw.value).None?)
              ==> r.text == OrNoResponse(s.Next(coordinator).raw.value) && r.responder == Some(coordinator)
    ensures (s.Next(coordinator).raw.Some? && r.coordinatorPayload.Some? && |r.hops| == 1
             && !NeedsHuman(r.coordinatorPayload.value, Lookup(r.coordinatorPayload.value, "agente_destino"))
             && !HasMessage(r.coordinatorPayload.value))
              ==> r.text == OrNoResponse(s.Next(coordinator).raw.value) && r.responder == Some(coordinator)
    ensures 1 <= |r.hops| <= 2 && r.hops[0] == coordinator
    ensures r.usage == (if |r.hops| == 1 then Some(SumUsage(None, s.Next(coordinator).usage))
                        else Some(SumUsage(Some(SumUsage(None, s.Next(coordinator).usage)), s.After().Next(r.hops[1]).usage)))
  {
    var raw := s.Next(coordinator);
    var total := SumUsage(None, raw.usage);
    match raw.raw
    case None => FlowOutcome(CoordinatorError(Repair.Live), None, None, None, raw.rag, Some(total), [coordinator])
    case Some(text) =>
      match Repair.ExtractJson(s.loads, text)
      case None => FlowOutcome(OrNoResponse(text), None, Some(coordinator), None, raw.rag, Some(total), [coordinator])
      case Some(p) =>
        if NeedsHuman(p, Lookup(p, "agente_destino")) then
          FlowOutcome(HandoffMessage(Repair.Live, p), Some(p), Some(coordinator), Some(p), raw.rag, Some(total), [coordinator])
        else if LiveRedirects(s.nfkd, p, byRole) then
          var agent := byRole[LinkedDestination(s.nfkd, p, byRole).value];
          var reply := RunAgentReply(s.After(), agent);
          FlowOutcome(reply.text, Some(p), Some(agent), reply.payload, reply.rag,
                      Some(SumUsage(Some(total), reply.usage)), [coordinator, agent])
        else if HasMessage(p) then
          HasMessageExtracts(p);
          FlowOutcome(ExtractMessage(p).value, Some(p), Some(coordinator), Some(p), raw.rag, Some(total), [coordinator])
        else FlowOutcome(OrNoResponse(text), Some(p), Some(coordinator), Some(p), raw.rag, Some(total), [coordinator])
  }

  /** The coordinator flow of the session's copy. */
  function CoordinatorFlow(s: Session, coordinator: Dict, byRole: map<AgentRole, Dict>): (r: FlowOutcome)
    ensures 1 <= |r.hops| <= 2 && r.hops[0] == coordinator
    ensures forall k :: k in UsageKeys ==>
              Tokens(r.usage, k) == Tokens(s.Next(coordinator).usage, k) + (if |r.hops| == 2 then Tokens(s.After().Next(r.hops[1]).usage, k) else 0)
  {
    if s.copy.Core? then
      CoreFlowSpends(s, coordinator, byRole);
      CoreCoordinatorFlow(s, coordinator, byRole)
    else
      LiveFlowSpends(s, coordinator, byRole);
      LiveCoordinatorFlow(s, coordinator, byRole)
  }

  /** The core flow's usage counters add the coordinator's call and the redirect's. */
  lemma CoreFlowSpends(s: Session, coordinator: Dict, byRole: map<AgentRole, Dict>)
    ensures var r := CoreCoordinatorFlow(s, coordinator, byRole);
            forall k :: k in UsageKeys ==>
              Tokens(r.usage, k) == Tokens(s.Next(coordinator).usage, k) + (if |r.hops| == 2 then Tokens(s.After().Next(r.hops[1]).usage, k) else 0)
  {
    var r := CoreCoordinatorFlow(s, coordinator, byRole);
    if |r.hops| == 2 {
      var u := SumUsage(s.Next(coordinator).usage, s.After().Next(r.hops[1]).usage);
      assert r.usage == Some(u);
    }
  }

  /** The live flow's usage counters add the coordinator's call and the redirect's. */
  lemma LiveFlowSpends(s: Session, coordinator: Dict, byRole: map<AgentRole, Dict>)
    ensures var r := LiveCoordinatorFlow(s, coordinator, byRole);
            forall k :: k in UsageKeys ==>
              Tokens(r.usage, k) == Tokens(s.Next(coordinator).usage, k) + (if |r.hops| == 2 then Tokens(s.After().Next(r.hops[1]).usage, k) else 0)
  {
    var r := LiveCoordinatorFlow(s, coordinator, byRole);
    var first := SumUsage(None, s.Next(coordinator).usage);
    if |r.hops| == 2 {
      var u := SumUsage(Some(first), s.After().Next(r.hops[1]).usage);
      assert r.usage == Some(u);
    } else {
      assert r.usage == Some(first);
    }
  }

  /**
   * The copies disagree on a coordinator payload that carries a message and
   * asks for a human: the core copy shows the message, the live copy hands
   * off.
   */
  lemma CoordinatorCopiesDiffer(s: Session, coordinator: Dict, byRole: map<AgentRole, Dict>, p: Dict)
    requires s.Next(coordinator).raw.Some? && Repair.ExtractJson(s.loads, s.Next(coordinator).raw.value) == Some(p)
    requires HasMessage(p) && Get(p, "precisa_humano") == Some(VBool(true))
    ensures Some(CoordinatorFlow(s.(copy := Repair.Core), coordinator, byRole).text) == ExtractMessage(p)
    ensures CoordinatorFlow(s.(copy := Repair.Live), coordinator, byRole).text == HandoffMessage(Repair.Live, p)
  {
  }

  /**
   * A core coordinator that redirects to its own role is called a second
   * time: the turn's next call, not a repeat of the first, gives the text
   * shown, and both calls' usage is counted.
   */
  lemma SelfRedirectCallsAgain(s: Session, coordinator: Dict, byRole: map<AgentRole, Dict>, role: AgentRole)
    requires s.Next(coordinator).raw.Some?
    requires var p := Repair.ExtractJson(s.loads, s.Next(coordinator).raw.value);
             p.Some? && !HasMessage(p.value) && LinkedDestination(s.nfkd, p.value, byRole) == Some(role)
    requires role in byRole && byRole[role] == coordinator
    ensures var r := CoreCoordinatorFlow(s, coordinator, byRole);
            r.hops == [coordinator, coordinator]
            && r.text == RunAgentReply(s.After(), coordinator).text
            && r.usage == Some(SumUsage(s.Next(coordinator).usage, s.After().Next(coordinator).usage))
  {
  }

  /** The live coordinator redirects only on the `redirecionar` action: any other action keeps the turn with the coordinator. */
  lemma LiveRedirectNeedsAction(s: Session, coordinator: Dict, byRole: map<AgentRole, Dict>)
    requires var r := LiveCoordinatorFlow(s, coordinator, byRole);
             r.coordinatorPayload.Some? && TextAt(r.coordinatorPayload.value, "acao") != Some("redirecionar")
    ensures LiveCoordinatorFlow(s, coordinator, byRole).hops == [coordinator]
  {
  }

  // ---------------------------------------------------------------- the router

  /**
   * What the router's payload asks for, read in the source's order: its
   * own message; the raw text when there is no destination; a hand-off;
   * its clarifying question; an unknown destination; or forwarding to a
   * role, with the transition text to put in front.
   */
  datatype Directive = Answer(text: string) | KeepRaw | Escalate | Ask(question: string) | Unknown | Forward(role: AgentRole, transition: Option<string>)

  /** The router's reading of its decoded payload, first match wins. */
  function ReadDirective(nfkd: string -> string, p: Dict): (d: Directive)
    ensures HasMessage(p) ==> d == Answer(ExtractMessage(p).value)
    ensures (!HasMessage(p) && !Truthy(Lookup(p, "agente_destino"))) ==> d == KeepRaw
    ensures (!HasMessage(p) && Truthy(Lookup(p, "agente_destino")))
              ==> (d == Escalate <==> NeedsHuman(p, Lookup(p, "agente_destino")))
    ensures d.Ask? ==> !NeedsHuman(p, Lookup(p, "agente_destino")) && Some(d.question) == TextAt(p, "pergunta_clareadora")
    ensures (!HasMessage(p) && Truthy(Lookup(p, "agente_destino")) && !NeedsHuman(p, Lookup(p, "agente_destino")))
              ==> (d.Ask? <==> TextAt(p, "pergunta_clareadora").Some?)
    ensures d.Forward? <==> (!HasMessage(p) && Truthy(Lookup(p, "agente_destino")) && !NeedsHuman(p, Lookup(p, "agente_destino"))
                             && TextAt(p, "pergunta_clareadora").None?
                             && ResolveRoleLabel(nfkd, Lookup(p, "agente_destino")).Some?)
    ensures d.Forward? ==> Some(d.role) == ResolveRoleLabel(nfkd, Lookup(p, "agente_destino"))
                           && d.transition == TextAt(p, "mensagem_transicao")
    ensures (!HasMessage(p) && Truthy(Lookup(p, "agente_destino")) && !NeedsHuman(p, Lookup(p, "agente_destino"))
             && TextAt(p, "pergunta_clareadora").None? && ResolveRoleLabel(nfkd, Lookup(p, "agente_destino")).None?)
              ==> d == Unknown
    ensures d.Answer? ==> HasMessage(p)
  {
    var destination := Lookup(p, "agente_destino");
    if HasMessage(p) then
      HasMessageExtracts(p);
      Answer(ExtractMessage(p).value)
    else if !Truthy(destination) then KeepRaw
    else if NeedsHuman(p, destination) then Escalate
    else if TextAt(p, "pergunta_clareadora").Some? then Ask(TextAt(p, "pergunta_clareadora").value)
    else
      match ResolveRoleLabel(nfkd, destination)
      case None => Unknown
      case Some(role) => Forward(role, TextAt(p, "mensagem_transicao"))
  }

  /** The router shows its own message even when the same payload asks for a human, unlike an agent's reply. */
  lemma RouterMessageFirst(nfkd: string -> string, p: Dict)
    requires HasMessage(p) && Get(p, "precisa_humano") == Some(VBool(true))
    ensures ReadDirective(nfkd, p).Answer?
    ensures NeedsHuman(p, Lookup(p, "agente_destino"))
  {
  }

  /** A forward never goes to a human: a destination naming one is escalated instead. */
  lemma ForwardNeverHuman(nfkd: string -> string, p: Dict)
    requires ReadDirective(nfkd, p).Forward?
    ensures !HumanDestination(Lookup(p, "agente_destino"))
  {
  }

  /** The router's answer, whose reply it shows, and the agents called, in order. */
  datatype RouterReply = RouterReply(text: string, usage: Option<Usage>, responder: Dict, hops: seq<Dict>)

  /** `f"{transition}\n\n{text}"` when there is a transition text. */
  function WithTransition(transition: Option<string>, text: string): (r: string)
    ensures transition.None? ==> r == text
    ensures transition.Some? ==> StartsWith(r, transition.value) && EndsWith(r, text)
                                 && |r| == |transition.value| + 2 + |text|
  {
    match transition
    case None => text
    case Some(t) =>
      var r := t + "\n\n" + text;
      assert r[..|t|] == t;
      assert r[|r| - |text|..] == text;
      r
  }

  /** A reply answered by the router itself. */
  function OwnReply(orchestrator: Dict, text: string, usage: Usage): (r: RouterReply)
    ensures r.hops == [orchestrator] && r.responder == orchestrator && r.text == text && r.usage == Some(usage)
  {
    RouterReply(text, Some(usage), orchestrator, [orchestrator])
  }

  /**
   * Forwarding to a role: a missing agent is answered at once; the
   * coordinator runs its flow; any other role's agent replies. The
   * transition text goes in front, and the forwarded calls' usage is added
   * to the router's.
   */
  function ForwardTo(s: Session, orchestrator: Dict, byRole: map<AgentRole, Dict>, role: AgentRole, transition: Option<string>,
                     usage: Usage): (r: RouterReply)
    ensures 1 <= |r.hops| <= 3 && r.hops[0] == orchestrator
    ensures |r.hops| == 1 ==> r.usage == Some(usage)
    ensures r.usage.Some? && (r.usage.value.Keys == UsageKeys || r.usage == Some(usage))
    ensures forall k :: k in UsageKeys ==> Tokens(r.usage, k) == Tokens(Some(usage), k) + HopSum(HopUsages(s.After(), r.hops[1..]), k)
    ensures (role !in byRole || byRole[role] == [])
              ==> r == OwnReply(orchestrator, if role == Coordenador then CoordinatorNotFound else DestinationNotFound, usage)
    ensures (role != Coordenador && role in byRole && byRole[role] != [])
              ==> r.hops == [orchestrator, byRole[role]] && r.responder == byRole[role]
                  && r.text == WithTransition(transition, RunAgentReply(s.After(), byRole[role]).text)
                  && r.usage == Some(SumUsage(Some(usage), s.After().Next(byRole[role]).usage))
    ensures (role == Coordenador && Coordenador in byRole && byRole[Coordenador] != [])
              ==> var flow := CoordinatorFlow(s.After(), byRole[Coordenador], byRole);
                  r.hops == [orchestrator] + flow.hops
                  && r.text == WithTransition(transition, flow.text)
                  && r.usage == Some(SumUsage(Some(usage), flow.usage))
  {
    if !(role in byRole && byRole[role] != []) then
      NothingSpent(s.After());
      OwnReply(orchestrator, if role == Coordenador then CoordinatorNotFound else DestinationNotFound, usage)
    else if role == Coordenador then
      var coordinator := byRole[role];
      var flow := CoordinatorFlow(s.After(), coordinator, byRole);
      FlowSpends(s.After(), coordinator, byRole);
      assert ([orchestrator] + flow.hops)[1..] == flow.hops;
      RouterReply(WithTransition(transition, flow.text), Some(SumUsage(Some(usage), flow.usage)),
                  if flow.responder.Some? && flow.responder.value != [] then flow.responder.value else coordinator,
                  [orchestrator] + flow.hops)
    else
      var agent := byRole[role];
      var reply := RunAgentReply(s.After(), agent);
      HopsSpendAll(s.After(), [agent]);
      assert [orchestrator, agent][1..] == [agent];
      RouterReply(WithTransition(transition, reply.text), Some(SumUsage(Some(usage), reply.usage)), agent, [orchestrator, agent])
  }

  /**
   * What the router does with a directive, once its own call has given a
   * payload: answer itself, or forward through the coordinator flow or to
   * the destination agent and add that usage. `usage` is the router's own.
   */
  function FollowDirective(s: Session, orchestrator: Dict, byRole: map<AgentRole, Dict>, raw: string, p: Dict, d: Directive,
                           usage: Usage): (r: RouterReply)
    ensures 1 <= |r.hops| <= 3 && r.hops[0] == orchestrator
    ensures !d.Forward? ==> r.hops == [orchestrator] && r.usage == Some(usage)
    ensures r.usage.Some? && (r.usage.value.Keys == UsageKeys || r.usage == Some(usage))
    ensures forall k :: k in UsageKeys ==> Tokens(r.usage, k) == Tokens(Some(usage), k) + HopSum(HopUsages(s.After(), r.hops[1..]), k)
    ensures d.Answer? ==> r.text == d.text
    ensures d == KeepRaw ==> r.text == OrNoResponse(raw)
    ensures d == Escalate ==> r.text == HandoffMessage(s.copy, p)
    ensures d.Ask? ==> r.text == d.question
    ensures d == Unknown ==> r.text == DestinationUnknown
    ensures d.Forward? ==> r == ForwardTo(s, orchestrator, byRole, d.role, d.transition, usage)
  {
    NothingSpent(s.After());
    match d
    case Answer(text) => OwnReply(orchestrator, text, usage)
    case KeepRaw => OwnReply(orchestrator, OrNoResponse(raw), usage)
    case Escalate => OwnReply(orchestrator, HandoffMessage(s.copy, p), usage)
    case Ask(question) => OwnReply(orchestrator, question, usage)
    case Unknown => OwnReply(orchestrator, DestinationUnknown, usage)
    case Forward(role, transition) => ForwardTo(s, orchestrator, byRole, role, transition, usage)
  }

  /** The router's reply once its session exists: its own call, then the directive its payload gives. */
  function RouteTurn(s: Session, orchestrator: Dict, byRole: map<AgentRole, Dict>): (r: RouterReply)
    ensures 1 <= |r.hops| && r.hops[0] == orchestrator
    ensures s.Next(orchestrator).raw.None? ==> r == OwnReply(orchestrator, RouterError(s.copy), SumUsage(None, s.Next(orchestrator).usage))
    ensures (s.Next(orchestrator).raw.Some? && Repair.ExtractJson(s.loads, s.Next(orchestrator).raw.value).None?)
              ==> r == OwnReply(orchestrator, OrNoResponse(s.Next(orchestrator).raw.value), SumUsage(None, s.Next(orchestrator).usage))
  {
    var raw := s.Next(orchestrator);
    var usage := SumUsage(None, raw.usage);
    if raw.raw.None? then OwnReply(orchestrator, RouterError(s.copy), usage)
    else if Repair.ExtractJson(s.loads, raw.raw.value).None? then OwnReply(orchestrator, OrNoResponse(raw.raw.value), usage)
    else
      var p := Repair.ExtractJson(s.loads, raw.raw.value).value;
      FollowDirective(s, orchestrator, byRole, raw.raw.value, p, ReadDirective(s.nfkd, p), usage)
  }

  /** The router counts each model call of the turn exactly once, on every counter. */
  lemma TurnSpends(s: Session, orchestrator: Dict, byRole: map<AgentRole, Dict>)
    ensures var r := RouteTurn(s, orchestrator, byRole);
            r.usage.Some? && r.usage.value.Keys == UsageKeys
            && forall k :: k in UsageKeys ==> Tokens(r.usage, k) == HopSum(HopUsages(s, r.hops), k)
  {
    var r := RouteTurn(s, orchestrator, byRole);
    var call := s.Next(orchestrator);
    var usage := SumUsage(None, call.usage);
    if call.raw.None? || Repair.ExtractJson(s.loads, call.raw.value).None? {
      NothingSpent(s.After());
      assert r.hops[1..] == [];
    } else {
      var p := Repair.ExtractJson(s.loads, call.raw.value).value;
      assert r == FollowDirective(s, orchestrator, byRole, call.raw.value, p, ReadDirective(s.nfkd, p), usage);
    }
    RouterSpends(s, r, usage);
  }

  /** A reply that adds the router's own usage to what later calls spent counts every call once. */
  lemma RouterSpends(s: Session, r: RouterReply, usage: Usage)
    requires |r.hops| >= 1 && usage == SumUsage(None, s.Next(r.hops[0]).usage)
    requires r.usage.Some? && (r.usage.value.Keys == UsageKeys || r.usage == Some(usage))
    requires forall k :: k in UsageKeys ==> Tokens(r.usage, k) == Tokens(Some(usage), k) + HopSum(HopUsages(s.After(), r.hops[1..]), k)
    ensures r.usage.Some? && r.usage.value.Keys == UsageKeys
    ensures forall k :: k in UsageKeys ==> Tokens(r.usage, k) == HopSum(HopUsages(s, r.hops), k)
  {
    ConsSpends(s, r.hops);
  }

  /** The session context the router builds for a non-empty prompt. */
  function PlaygroundContext(prompt: string): (ctx: AgentContext)
    requires prompt != []
    ensures ctx.mensagem == prompt && ctx.canal == Some("playground")
  {
    MakeContext(prompt, Some("playground"), Some("playground")).value
  }

  /**
   * `run_orchestrator_reply`: no model gives its message and no usage; an
   * empty prompt is rejected by the session context; otherwise the linked
   * agents are mapped by role and the turn is routed.
   */
  function OrchestratorReply(copy: Repair.Copy, env: Env, orchestrator: Dict, links: seq<int>, byId: map<int, Dict>,
                             prompt: string): (r: Result<RouterReply, Invalid>)
    ensures ModelName(orchestrator) == [] ==> r == Success(RouterReply(ModelMissing(copy), None, [], []))
    ensures r.Failure? <==> ModelName(orchestrator) != [] && prompt == []
    ensures (ModelName(orchestrator) != [] && prompt != [])
              ==> r == Success(RouteTurn(TurnSession(copy, env, prompt, PlaygroundContext(prompt)), orchestrator,
                                         AgentsByRole(env.nfkd, links, byId)))
  {
    if ModelName(orchestrator) == [] then Success(RouterReply(ModelMissing(copy), None, [], []))
    else
      match MakeContext(prompt, Some("playground"), Some("playground"))
      case Failure(e) => Failure(e)
      case Success(ctx) =>
        Success(RouteTurn(TurnSession(copy, env, prompt, ctx), orchestrator, AgentsByRole(env.nfkd, links, byId)))
  }

  // ---------------------------------------------------------------- usage over the turn

  /** The usage each call of the session reported, in order: the `i`-th call went to `hops[i]`. */
  function HopUsages(s: Session, hops: seq<Dict>): (r: seq<Option<Usage>>)
    ensures |r| == |hops|
    ensures forall i :: 0 <= i < |hops| ==> r[i] == s.call(i, hops[i]).usage
  {
    seq(|hops|, i requires 0 <= i < |hops| => s.call(i, hops[i]).usage)
  }

  /** Summing over calls one at a time from the front. */
  lemma {:induction false} HopSumCons(u: Option<Usage>, us: seq<Option<Usage>>, k: string)
    ensures HopSum([u] + us, k) == Tokens(u, k) + HopSum(us, k)
    decreases |us|
  {
    if us == [] {
      assert ([u] + us)[..0] == [];
    } else {
      var init := us[..|us| - 1];
      HopSumCons(u, init, k);
      assert ([u] + us)[..|us|] == [u] + init;
    }
  }

  /** One- and two-call sums. */
  lemma HopSumPair(a: Option<Usage>, b: Option<Usage>, k: string)
    ensures HopSum([a], k) == Tokens(a, k)
    ensures HopSum([a, b], k) == Tokens(a, k) + Tokens(b, k)
  {
    HopSumCons(a, [], k);
    HopSumCons(a, [b], k);
    HopSumCons(b, [], k);
    assert [a] + [] == [a];
    assert [a] + [b] == [a, b];
    assert [b] + [] == [b];
  }

  /** What one or two calls spent on a counter. */
  lemma HopsSpend(s: Session, hops: seq<Dict>, k: string)
    requires 1 <= |hops| <= 2
    ensures HopSum(HopUsages(s, hops), k)
            == Tokens(s.Next(hops[0]).usage, k) + (if |hops| == 2 then Tokens(s.After().Next(hops[1]).usage, k) else 0)
  {
    var us := HopUsages(s, hops);
    if |hops| == 1 {
      assert us == [us[0]];
      HopSumPair(us[0], us[0], k);
    } else {
      assert us == [us[0], us[1]];
      HopSumPair(us[0], us[1], k);
    }
  }

  /** No calls spend nothing. */
  lemma NothingSpent(s: Session)
    ensures forall k :: HopSum(HopUsages(s, []), k) == 0
  {
    assert HopUsages(s, []) == [];
  }

  /** What one or two calls spent, on every counter. */
  lemma HopsSpendAll(s: Session, hops: seq<Dict>)
    requires 1 <= |hops| <= 2
    ensures forall k :: HopSum(HopUsages(s, hops), k)
                        == Tokens(s.Next(hops[0]).usage, k) + (if |hops| == 2 then Tokens(s.After().Next(hops[1]).usage, k) else 0)
  {
    forall k {
      HopsSpend(s, hops, k);
    }
  }

  /** The coordinator flow counts each call it made exactly once, on every counter. */
  lemma FlowSpends(s: Session, coordinator: Dict, byRole: map<AgentRole, Dict>)
    ensures var flow := CoordinatorFlow(s, coordinator, byRole);
            forall k :: k in UsageKeys ==> Tokens(flow.usage, k) == HopSum(HopUsages(s, flow.hops), k)
  {
    var flow := CoordinatorFlow(s, coordinator, byRole);
    forall k | k in UsageKeys
      ensures Tokens(flow.usage, k) == HopSum(HopUsages(s, flow.hops), k)
    {
      HopsSpend(s, flow.hops, k);
    }
  }

  /** A call in front of others adds its own usage. */
  lemma ConsSpends(s: Session, hops: seq<Dict>)
    requires |hops| >= 1
    ensures forall k :: HopSum(HopUsages(s, hops), k) == Tokens(s.Next(hops[0]).usage, k) + HopSum(HopUsages(s.After(), hops[1..]), k)
  {
    var rest := HopUsages(s.After(), hops[1..]);
    assert HopUsages(s, hops) == [s.Next(hops[0]).usage] + rest;
    forall k {
      HopSumCons(s.Next(hops[0]).usage, rest, k);
    }
  }

  /** A usage dict whose three counters are the sums over the calls is their running total. */
  lemma TotalFromCounters(us: seq<Option<Usage>>, u: Usage)
    requires |us| >= 1 && u.Keys == UsageKeys
    requires forall k :: k in UsageKeys ==> u[k] == HopSum(us, k)
    ensures u == RunningTotal(us)
  {
    var m := RunningTotal(us);
    RunningTotalIsSum(us);
    SameCounters(u, m);
  }

  /**
   * The usage the router reports is the running total of the usage of every
   * model call it made, in order, and of nothing else.
   */
  lemma UsageIsRunningTotal(s: Session, orchestrator: Dict, byRole: map<AgentRole, Dict>)
    ensures var r := RouteTurn(s, orchestrator, byRole);
            |r.hops| >= 1 && r.usage == Some(RunningTotal(HopUsages(s, r.hops)))
  {
    var r := RouteTurn(s, orchestrator, byRole);
    TurnSpends(s, orchestrator, byRole);
    TotalFromCounters(HopUsages(s, r.hops), r.usage.value);
  }
}
