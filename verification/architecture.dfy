/**
 * The decision contracts of src/core/agent_architecture.py: the closed
 * vocabularies (roles, destinations, actions), the four structured replies an
 * agent may be bound to and the rules pydantic enforces when one is built, the
 * session context and its rendering, the role-to-contract binding, and the
 * classifier from free text to a role.
 */
module Architecture {
  import opened Wrappers
  import opened PyText
  import opened PyValue

  // ---------------------------------------------------------------- vocabularies

  predicate SnakeCase(v: string) {
    |v| >= 1 && 'a' <= v[0] <= 'z' && 'a' <= v[|v| - 1] <= 'z'
    && forall k :: 0 <= k < |v| ==> 'a' <= v[k] <= 'z' || v[k] == '_'
  }

  /** `AgentRole`: the seven agents a bot can link. */
  datatype AgentRole = Triagem | Comercial | GuiaUnidades | Cotador | ConsultorTecnico | Resumo | Coordenador {

    /** The enum's string value: lower-case letters and underscores, starting and ending with a letter. */
    function Value(): (v: string)
      ensures |v| >= 6 && SnakeCase(v)
    {
      match this
      case Triagem => "triagem"
      case Comercial => "comercial"
      case GuiaUnidades => "guia_unidades"
      case Cotador => "cotador"
      case ConsultorTecnico => "consultor_tecnico"
      case Resumo => "resumo"
      case Coordenador => "coordenador"
    }
  }

  /** The roles in declaration order, which is the iteration order of `for role in AgentRole`. */
  const Roles: seq<AgentRole> := [Triagem, Comercial, GuiaUnidades, Cotador, ConsultorTecnico, Resumo, Coordenador]

  /** `AgentRole(s)`: the member whose value is exactly `s`, if any. */
  function ParseRole(s: string): (r: Option<AgentRole>)
    ensures r.Some? ==> r.value.Value() == s
  {
    if s == "triagem" then Some(Triagem)
    else if s == "comercial" then Some(Comercial)
    else if s == "guia_unidades" then Some(GuiaUnidades)
    else if s == "cotador" then Some(Cotador)
    else if s == "consultor_tecnico" then Some(ConsultorTecnico)
    else if s == "resumo" then Some(Resumo)
    else if s == "coordenador" then Some(Coordenador)
    else None
  }

  /** Every role is listed, is read back from its value, and owns that value alone. */
  lemma RoleRoundTrip(a: AgentRole, b: AgentRole)
    ensures a in Roles
    ensures ParseRole(a.Value()) == Some(a)
    ensures a.Value() == b.Value() ==> a == b
  {
    match a
    case Triagem =>
    case Comercial =>
    case GuiaUnidades =>
    case Cotador =>
    case ConsultorTecnico =>
    case Resumo =>
    case Coordenador =>
  }

  /** `AgentDestination`: where the router may send a conversation. */
  datatype Destination = ToComercial | ToGuiaUnidades | ToCotador | ToConsultorTecnico | ToResumo | ToCoordenador | ToHumano {

    function Value(): string
    {
      match this
      case ToComercial => "comercial"
      case ToGuiaUnidades => "guia_unidades"
      case ToCotador => "cotador"
      case ToConsultorTecnico => "consultor_tecnico"
      case ToResumo => "resumo"
      case ToCoordenador => "coordenador"
      case ToHumano => "humano"
    }
  }

  /** Pydantic's enum coercion: the member whose value is exactly `s`, if any. */
  function ParseDestination(s: string): (r: Option<Destination>)
    ensures r.Some? ==> r.value.Value() == s
  {
    if s == "comercial" then Some(ToComercial)
    else if s == "guia_unidades" then Some(ToGuiaUnidades)
    else if s == "cotador" then Some(ToCotador)
    else if s == "consultor_tecnico" then Some(ToConsultorTecnico)
    else if s == "resumo" then Some(ToResumo)
    else if s == "coordenador" then Some(ToCoordenador)
    else if s == "humano" then Some(ToHumano)
    else None
  }

  /** Every destination is accepted under its own value, and owns that value alone. */
  lemma DestinationRoundTrip(d: Destination, e: Destination)
    ensures ParseDestination(d.Value()) == Some(d)
    ensures d.Value() == e.Value() ==> d == e
  {
    match d
    case ToComercial =>
    case ToGuiaUnidades =>
    case ToCotador =>
    case ToConsultorTecnico =>
    case ToResumo =>
    case ToCoordenador =>
    case ToHumano =>
  }

  /** `ReplyAction` */
  datatype ReplyAction = Responder | Perguntar | Redirecionar | EscalarHumano {

    function Value(): string
    {
      match this
      case Responder => "responder"
      case Perguntar => "perguntar"
      case Redirecionar => "redirecionar"
      case EscalarHumano => "escalar_humano"
    }
  }

  /** Pydantic's enum coercion for `ReplyAction`. */
  function ParseAction(s: string): (r: Option<ReplyAction>)
    ensures r.Some? ==> r.value.Value() == s
    ensures r.None? ==> s != "responder" && s != "perguntar" && s != "redirecionar" && s != "escalar_humano"
  {
    if s == "responder" then Some(Responder)
    else if s == "perguntar" then Some(Perguntar)
    else if s == "redirecionar" then Some(Redirecionar)
    else if s == "escalar_humano" then Some(EscalarHumano)
    else None
  }

  lemma ActionRoundTrip(a: ReplyAction)
    ensures ParseAction(a.Value()) == Some(a)
  {
  }

  // ---------------------------------------------------------------- validation outcome

  /**
   * Why pydantic refused to build a contract: the fields that failed their
   * own constraints, in declaration order (the model validator does not run
   * then), or the message of the model validator's first failing rule.
   */
  datatype Invalid = FieldErrors(fields: seq<string>) | RuleError(message: string)

  /** The field's name when its constraint fails; the failing fields of a model are these, concatenated. */
  function Check(field: string, ok: bool): (r: seq<string>)
    ensures ok <==> r == []
    ensures !ok ==> r == [field]
  {
    if ok then [] else [field]
  }

  /** Python's `s or ""` for an optional string. */
  function OrEmpty(s: Option<string>): (r: string)
    ensures s.None? ==> r == []
    ensures s.Some? ==> r == s.value
  {
    if s.Some? then s.value else []
  }

  /** Two blanks are blank. */
  lemma BlankPair()
    ensures IsBlank("  ")
  {
    StripOfTrimmed([]);
    assert "  " == " " + [] + " ";
    StripPadded(" ", [], " ");
  }

  // ---------------------------------------------------------------- RouteDecision

  /** The fields of a `RouteDecision` as given, before validation. */
  datatype RouteInput = RouteInput(
    agenteDestino: string, confianca: real, perguntaClareadora: Option<string>,
    precisaHumano: bool, motivo: string, intencao: Option<string>, tags: seq<string>)

  datatype RouteDecision = RouteDecision(
    agenteDestino: Destination, confianca: real, perguntaClareadora: Option<string>,
    precisaHumano: bool, motivo: string, intencao: Option<string>, tags: seq<string>)
  {
    /** `confianca` in [0, 1] and a `motivo` of at least one character. */
    predicate Valid() { 0.0 <= confianca <= 1.0 && |motivo| >= 1 }

    function Input(): RouteInput {
      RouteInput(agenteDestino.Value(), confianca, perguntaClareadora, precisaHumano, motivo, intencao, tags)
    }
  }

  /** `RouteDecision(...)`: the destination must be a member, `confianca` within [0, 1], `motivo` non-empty. */
  function MakeRouteDecision(i: RouteInput): (r: Result<RouteDecision, Invalid>)
    ensures r.Success? <==> ParseDestination(i.agenteDestino).Some? && 0.0 <= i.confianca <= 1.0 && |i.motivo| >= 1
    ensures r.Success? ==> r.value.Valid() && r.value.Input() == i
    ensures r.Failure? ==> r.error.FieldErrors? && r.error.fields != []
    ensures r.Failure? ==> ("confianca" in r.error.fields <==> !(0.0 <= i.confianca <= 1.0))
  {
    var dest := ParseDestination(i.agenteDestino);
    var failing := Check("agente_destino", dest.Some?) + Check("confianca", 0.0 <= i.confianca <= 1.0)
                   + Check("motivo", |i.motivo| >= 1);
    if failing != [] then Failure(FieldErrors(failing))
    else Success(RouteDecision(dest.value, i.confianca, i.perguntaClareadora, i.precisaHumano, i.motivo, i.intencao, i.tags))
  }

  /** Every valid decision is built back from its own fields. */
  lemma RouteDecisionRoundTrip(d: RouteDecision)
    requires d.Valid()
    ensures MakeRouteDecision(d.Input()) == Success(d)
  {
    DestinationRoundTrip(d.agenteDestino, d.agenteDestino);
  }

  /** Example, the confidence test cases: 0.8 is accepted; 1.2 and -0.1 are not. */
  lemma RouteConfidenceBounds(dest: Destination, motivo: string)
    requires |motivo| >= 1
    ensures MakeRouteDecision(RouteInput(dest.Value(), 0.8, None, false, motivo, None, [])).Success?
    ensures MakeRouteDecision(RouteInput(dest.Value(), 1.2, None, false, motivo, None, [])) == Failure(FieldErrors(["confianca"]))
    ensures MakeRouteDecision(RouteInput(dest.Value(), -0.1, None, false, motivo, None, [])) == Failure(FieldErrors(["confianca"]))
  {
    DestinationRoundTrip(dest, dest);
    assert [] + ["confianca"] + [] == ["confianca"];
  }

  // ---------------------------------------------------------------- AgentReply

  datatype ReplyInput = ReplyInput(
    acao: string, mensagem: string, precisaHumano: bool, motivoEscalacao: Option<string>,
    dadosFaltantes: seq<string>, tags: seq<string>)

  datatype AgentReply = AgentReply(
    acao: ReplyAction, mensagem: string, precisaHumano: bool, motivoEscalacao: Option<string>,
    dadosFaltantes: seq<string>, tags: seq<string>)
  {
    /**
     * A non-empty `mensagem`; escalating implies `precisa_humano`; needing a
     * human implies a non-blank `motivo_escalacao`.
     */
    predicate Valid() {
      |mensagem| >= 1
      && (acao == EscalarHumano ==> precisaHumano)
      && (precisaHumano ==> !IsBlank(OrEmpty(motivoEscalacao)))
    }

    function Input(): ReplyInput {
      ReplyInput(acao.Value(), mensagem, precisaHumano, motivoEscalacao, dadosFaltantes, tags)
    }
  }

  const EscalationNeedsHuman := "precisa_humano deve ser True quando acao=escalar_humano."
  const EscalationNeedsReason := "Informe motivo_escalacao ao escalar para humano."

  /** `AgentReply(...)`: field constraints, then the escalation rules in order. */
  function MakeAgentReply(i: ReplyInput): (r: Result<AgentReply, Invalid>)
    ensures r.Success? ==> r.value.Valid() && r.value.Input() == i
    ensures ParseAction(i.acao).None? || |i.mensagem| == 0 ==> r.Failure? && r.error.FieldErrors?
    ensures ParseAction(i.acao).Some? && |i.mensagem| >= 1 ==>
              (r.Failure? <==> (ParseAction(i.acao) == Some(EscalarHumano) && !i.precisaHumano)
                               || (i.precisaHumano && IsBlank(OrEmpty(i.motivoEscalacao))))
    ensures ParseAction(i.acao) == Some(EscalarHumano) && |i.mensagem| >= 1 && !i.precisaHumano
            ==> r == Failure(RuleError(EscalationNeedsHuman))
    ensures ParseAction(i.acao).Some? && |i.mensagem| >= 1 && i.precisaHumano && IsBlank(OrEmpty(i.motivoEscalacao))
            ==> r == Failure(RuleError(EscalationNeedsReason))
  {
    var acao := ParseAction(i.acao);
    var failing := Check("acao", acao.Some?) + Check("mensagem", |i.mensagem| >= 1);
    if failing != [] then Failure(FieldErrors(failing))
    else if acao.value == EscalarHumano && !i.precisaHumano then Failure(RuleError(EscalationNeedsHuman))
    else if i.precisaHumano && IsBlank(OrEmpty(i.motivoEscalacao)) then Failure(RuleError(EscalationNeedsReason))
    else Success(AgentReply(acao.value, i.mensagem, i.precisaHumano, i.motivoEscalacao, i.dadosFaltantes, i.tags))
  }

  /** Every valid reply is built back from its own fields. */
  lemma AgentReplyRoundTrip(d: AgentReply)
    requires d.Valid()
    ensures MakeAgentReply(d.Input()) == Success(d)
  {
    ActionRoundTrip(d.acao);
  }

  /**
   * Example: `min_length=1` counts characters, so a reply of blanks is
   * accepted, while an empty one is not.
   */
  lemma AgentReplyLength()
    ensures MakeAgentReply(ReplyInput("responder", "  ", false, None, [], [])).Success?
    ensures MakeAgentReply(ReplyInput("responder", "", false, None, [], [])) == Failure(FieldErrors(["mensagem"]))
  {
    ActionRoundTrip(Responder);
    assert [] + ["mensagem"] == ["mensagem"];
  }

  // ---------------------------------------------------------------- HandoffSummary

  datatype HandoffSummary = HandoffSummary(
    resumo: string, dadosRelevantes: seq<string>, pendencias: seq<string>,
    sentimento: Option<string>, sugestaoProximaAcao: Option<string>)
  {
    predicate Valid() { |resumo| >= 1 }
  }

  /** `HandoffSummary(...)`: only `resumo` is constrained. */
  function MakeHandoffSummary(resumo: string, dados: seq<string>, pendencias: seq<string>,
                              sentimento: Option<string>, sugestao: Option<string>): (r: Result<HandoffSummary, Invalid>)
    ensures r.Success? <==> |resumo| >= 1
    ensures r.Success? ==> r.value.Valid() && r.value == HandoffSummary(resumo, dados, pendencias, sentimento, sugestao)
    ensures r.Failure? ==> r.error == FieldErrors(["resumo"])
  {
    if |resumo| >= 1 then Success(HandoffSummary(resumo, dados, pendencias, sentimento, sugestao))
    else Failure(FieldErrors(["resumo"]))
  }

  // ---------------------------------------------------------------- CoordinatorDecision

  datatype CoordinatorInput = CoordinatorInput(
    acao: string, mensagem: Option<string>, agenteDestino: Option<string>,
    precisaResumo: bool, motivo: string, tags: seq<string>)

  /**
   * The decision rules: answering or asking needs a non-blank message;
   * redirecting needs a destination; escalating needs the human destination.
   */
  predicate DecisionRules(acao: ReplyAction, mensagem: Option<string>, dest: Option<Destination>) {
    ((acao == Responder || acao == Perguntar) ==> !IsBlank(OrEmpty(mensagem)))
    && (acao == Redirecionar ==> dest.Some?)
    && (acao == EscalarHumano ==> dest == Some(ToHumano))
  }

  datatype CoordinatorDecision = CoordinatorDecision(
    acao: ReplyAction, mensagem: Option<string>, agenteDestino: Option<Destination>,
    precisaResumo: bool, motivo: string, tags: seq<string>)
  {
    predicate Valid() { |motivo| >= 1 && DecisionRules(acao, mensagem, agenteDestino) }

    function Input(): CoordinatorInput {
      CoordinatorInput(acao.Value(), mensagem, DestinationValue(agenteDestino), precisaResumo, motivo, tags)
    }
  }

  function DestinationValue(d: Option<Destination>): (r: Option<string>)
    ensures d.None? <==> r.None?
  {
    if d.Some? then Some(d.value.Value()) else None
  }

  /** The optional destination as pydantic coerces it: `None` stays `None`, a string must be a member. */
  function ParseOptionalDestination(s: Option<string>): (r: Option<Option<Destination>>)
    ensures s.None? ==> r == Some(None)
    ensures s.Some? ==> (r.Some? <==> ParseDestination(s.value).Some?)
    ensures r.Some? ==> DestinationValue(r.value) == s
  {
    if s.None? then Some(None)
    else if ParseDestination(s.value).Some? then Some(ParseDestination(s.value))
    else None
  }

  const DecisionNeedsMessage := "mensagem e obrigatoria quando acao exige resposta."
  const RedirectNeedsDestination := "agente_destino e obrigatorio quando acao=redirecionar."
  const EscalationNeedsHumanDestination := "agente_destino deve ser humano quando acao=escalar_humano."

  /** The message of the first decision rule that fails, in the validator's order. */
  function FirstBrokenRule(acao: ReplyAction, mensagem: Option<string>, dest: Option<Destination>): (m: Option<string>)
    ensures m.None? <==> DecisionRules(acao, mensagem, dest)
    ensures (acao == Responder || acao == Perguntar) && IsBlank(OrEmpty(mensagem)) ==> m == Some(DecisionNeedsMessage)
    ensures acao == Redirecionar && dest.None? ==> m == Some(RedirectNeedsDestination)
    ensures acao == EscalarHumano && dest != Some(ToHumano) ==> m == Some(EscalationNeedsHumanDestination)
  {
    if (acao == Responder || acao == Perguntar) && IsBlank(OrEmpty(mensagem)) then Some(DecisionNeedsMessage)
    else if acao == Redirecionar && dest.None? then Some(RedirectNeedsDestination)
    else if acao == EscalarHumano && dest != Some(ToHumano) then Some(EscalationNeedsHumanDestination)
    else None
  }

  /** `CoordinatorDecision(...)`: field constraints, then the three action rules in order. */
  function MakeCoordinatorDecision(i: CoordinatorInput): (r: Result<CoordinatorDecision, Invalid>)
    ensures r.Success? ==> r.value.Valid() && r.value.Input() == i
    ensures ParseAction(i.acao).None? || ParseOptionalDestination(i.agenteDestino).None? || |i.motivo| == 0
            ==> r.Failure? && r.error.FieldErrors?
    ensures ParseAction(i.acao).Some? && ParseOptionalDestination(i.agenteDestino).Some? && |i.motivo| >= 1 ==>
              var m := FirstBrokenRule(ParseAction(i.acao).value, i.mensagem, ParseOptionalDestination(i.agenteDestino).value);
              (r.Success? <==> m.None?) && (m.Some? ==> r == Failure(RuleError(m.value)))
  {
    var acao := ParseAction(i.acao);
    var dest := ParseOptionalDestination(i.agenteDestino);
    var failing := Check("acao", acao.Some?) + Check("agente_destino", dest.Some?) + Check("motivo", |i.motivo| >= 1);
    if failing != [] then Failure(FieldErrors(failing))
    else
      match FirstBrokenRule(acao.value, i.mensagem, dest.value)
      case Some(m) => Failure(RuleError(m))
      case None => Success(CoordinatorDecision(acao.value, i.mensagem, dest.value, i.precisaResumo, i.motivo, i.tags))
  }

  /** Every valid decision is built back from its own fields. */
  lemma CoordinatorDecisionRoundTrip(d: CoordinatorDecision)
    requires d.Valid()
    ensures MakeCoordinatorDecision(d.Input()) == Success(d)
  {
    ActionRoundTrip(d.acao);
    if d.agenteDestino.Some? {
      DestinationRoundTrip(d.agenteDestino.value, d.agenteDestino.value);
    }
  }

  /** The rules are checked in order: a blank answer is reported before a missing or wrong destination. */
  lemma CoordinatorRuleOrder(motivo: string)
    requires |motivo| >= 1
    ensures MakeCoordinatorDecision(CoordinatorInput("responder", Some("  "), Some("humano"), false, motivo, []))
            == Failure(RuleError(DecisionNeedsMessage))
    ensures MakeCoordinatorDecision(CoordinatorInput("redirecionar", None, None, false, motivo, []))
            == Failure(RuleError(RedirectNeedsDestination))
    ensures MakeCoordinatorDecision(CoordinatorInput("escalar_humano", None, Some("comercial"), false, motivo, []))
            == Failure(RuleError(EscalationNeedsHumanDestination))
  {
    BlankPair();
    ActionRoundTrip(Responder);
    ActionRoundTrip(Redirecionar);
    ActionRoundTrip(EscalarHumano);
    DestinationRoundTrip(ToComercial, ToComercial);
    DestinationRoundTrip(ToHumano, ToHumano);
  }

  // ---------------------------------------------------------------- AgentContext

  datatype AgentContext = AgentContext(
    mensagem: string, canal: Option<string>, origem: Option<string>, horarioLocal: Option<string>,
    foraHorario: Option<bool>, pediuHumano: bool, nomesCitados: seq<string>,
    conversationId: Option<int>, inboxId: Option<int>, contactId: Option<int>, metadata: Dict)
  {
    predicate Valid() { |mensagem| >= 1 }
  }

  /** `AgentContext(mensagem=..., canal=..., origem=...)` with every other field at its default. */
  function MakeContext(mensagem: string, canal: Option<string>, origem: Option<string>): (r: Result<AgentContext, Invalid>)
    ensures r.Success? <==> |mensagem| >= 1
    ensures r.Success? ==> r.value.Valid() && r.value.mensagem == mensagem && r.value.canal == canal && r.value.origem == origem
    ensures r.Failure? ==> r.error == FieldErrors(["mensagem"])
  {
    if |mensagem| >= 1 then Success(AgentContext(mensagem, canal, origem, None, None, false, [], None, None, None, []))
    else Failure(FieldErrors(["mensagem"]))
  }

  /** `f"{x or '-'}"` for an optional string. */
  function OrDash(s: Option<string>): (r: string)
    ensures r != []
    ensures s.Some? && s.value != [] ==> r == s.value
  {
    if s.Some? && s.value != [] then s.value else "-"
  }

  /** Truthiness of an optional integer id. */
  predicate SetId(id: Option<int>) { id.Some? && id.value != 0 }

  /** The optional line for an id, when it is truthy. */
  function IdLine(name: string, id: Option<int>): (r: seq<string>)
    ensures |r| == (if SetId(id) then 1 else 0)
  {
    if SetId(id) then [name + ": " + IntToString(id.value)] else []
  }

  /** The number of optional lines `render_context` appends. */
  function OptionalLines(d: AgentContext): nat {
    (if d.nomesCitados != [] then 1 else 0) + (if SetId(d.conversationId) then 1 else 0)
    + (if SetId(d.inboxId) then 1 else 0) + (if SetId(d.contactId) then 1 else 0)
    + (if d.metadata != [] then 1 else 0)
  }

  /** The lines of `render_context`: six fixed ones, then the names, ids and metadata that are set. */
  function ContextLines(d: AgentContext): (r: seq<string>)
    ensures |r| == 6 + OptionalLines(d)
    ensures r[0] == "Mensagem do cliente: " + d.mensagem
    ensures r[1] == "Canal: " + OrDash(d.canal) && r[2] == "Origem: " + OrDash(d.origem)
    ensures r[3] == "Horario local: " + OrDash(d.horarioLocal)
    ensures r[4] == "Fora do horario: " + (match d.foraHorario case Some(true) => "sim" case Some(false) => "nao" case None => "-")
    ensures r[5] == "Pediu humano: " + (if d.pediuHumano then "sim" else "nao")
    ensures d.nomesCitados != [] ==> r[6] == "Nomes citados: " + Join(", ", d.nomesCitados)
    ensures d.metadata != [] ==> r[|r| - 1] == "Metadados: " + Repr(VDict(d.metadata))
  {
    var fora := match d.foraHorario case Some(true) => "sim" case Some(false) => "nao" case None => "-";
    var fixed := [ "Mensagem do cliente: " + d.mensagem,
                   "Canal: " + OrDash(d.canal),
                   "Origem: " + OrDash(d.origem),
                   "Horario local: " + OrDash(d.horarioLocal),
                   "Fora do horario: " + fora,
                   "Pediu humano: " + (if d.pediuHumano then "sim" else "nao") ];
    var names := if d.nomesCitados != [] then ["Nomes citados: " + Join(", ", d.nomesCitados)] else [];
    var ids := IdLine("Conversation ID", d.conversationId) + IdLine("Inbox ID", d.inboxId) + IdLine("Contact ID", d.contactId);
    var meta := if d.metadata != [] then ["Metadados: " + Repr(VDict(d.metadata))] else [];
    assert |names| + |ids| + |meta| == OptionalLines(d);
    var r := fixed + (names + ids + meta);
    assert r[..6] == fixed;
    r
  }

  /** `render_context`: the lines joined by newlines. */
  function RenderContext(d: AgentContext): (r: string)
    ensures StartsWith(r, "Mensagem do cliente: " + d.mensagem)
  {
    Join("\n", ContextLines(d))
  }

  /** When no field holds a newline, the rendering splits back into exactly its lines. */
  lemma RenderContextLines(d: AgentContext)
    requires forall i :: 0 <= i < |ContextLines(d)| ==> Free(ContextLines(d)[i], '\n')
    ensures SplitChar(RenderContext(d), '\n') == ContextLines(d)
    ensures |SplitChar(RenderContext(d), '\n')| == 6 + OptionalLines(d)
  {
    SplitJoin(ContextLines(d), '\n');
  }

  /**
   * `render_system_prompt`: the role's base prompt (`prompts`, standing for
   * `AGENT_SYSTEM_PROMPTS`), a heading, then the rendered context.
   */
  function RenderSystemPrompt(prompts: AgentRole -> string, role: AgentRole, d: AgentContext): (r: string)
    ensures StartsWith(r, prompts(role)) && EndsWith(r, RenderContext(d))
    ensures |r| == |prompts(role)| + |ContextHeading| + |RenderContext(d)|
    ensures r[|prompts(role)|..|prompts(role)| + |ContextHeading|] == ContextHeading
  {
    var r := prompts(role) + ContextHeading + RenderContext(d);
    assert r[..|prompts(role)|] == prompts(role);
    assert r[|prompts(role)|..|prompts(role)| + |ContextHeading|] == ContextHeading;
    r
  }

  const ContextHeading := "\nContexto do atendimento:\n"

  // ---------------------------------------------------------------- build_agent

  /** The structured result an agent is bound to. */
  datatype Contract = RouteContract | ReplyContract | SummaryContract | CoordinatorContract

  /** `AGENT_DISPLAY_NAMES` */
  function DisplayName(role: AgentRole): string {
    match role
    case Triagem => "Agente Triagem"
    case Comercial => "Agente Comercial"
    case GuiaUnidades => "Agente Guia de Unidades"
    case Cotador => "Agente Cotador"
    case ConsultorTecnico => "Agente Consultor Técnico"
    case Resumo => "Agente Resumo"
    case Coordenador => "Agente Coordenador"
  }

  /** What `build_agent` configures: the display name, the model and the result contract. */
  datatype AgentSpec = AgentSpec(name: string, model: string, contract: Contract)

  /** `build_agent`: triage routes, the summariser summarises, the coordinator decides, the rest reply. */
  function BuildAgent(role: AgentRole, model: string): (r: AgentSpec)
    ensures r.name == DisplayName(role) && r.model == model
    ensures r.contract == RouteContract <==> role == Triagem
    ensures r.contract == SummaryContract <==> role == Resumo
    ensures r.contract == CoordinatorContract <==> role == Coordenador
  {
    var contract :=
      if role == Triagem then RouteContract
      else if role == Resumo then SummaryContract
      else if role == Coordenador then CoordinatorContract
      else ReplyContract;
    AgentSpec(DisplayName(role), model, contract)
  }

  /** Every role, for all roles and not by example, is in the listing `Roles`. */
  lemma AllRolesListed()
    ensures forall role: AgentRole :: role in Roles
  {
    forall role: AgentRole ensures role in Roles {
      RoleRoundTrip(role, role);
    }
  }

  /** `build_agents`: one agent per role. */
  function BuildAgents(model: string): (r: map<AgentRole, AgentSpec>)
    ensures forall role: AgentRole :: role in r && r[role] == BuildAgent(role, model)
  {
    AllRolesListed();
    map role: AgentRole | role in Roles :: BuildAgent(role, model)
  }

  /**
   * The result type `run_agent_raw` asks the model for, from the agent's
   * resolved role: a contract, or plain text (`None`) when the role is unknown.
   */
  function RawResultContract(role: Option<AgentRole>): (r: Option<Contract>)
    ensures role.None? <==> r.None?
  {
    match role
    case None => None
    case Some(Triagem) => Some(RouteContract)
    case Some(Coordenador) => Some(CoordinatorContract)
    case Some(Resumo) => Some(SummaryContract)
    case Some(_) => Some(ReplyContract)
  }

  /** The two tables agree: an agent run with a known role gets the contract `build_agent` binds. */
  lemma RawResultMatchesBuild(role: AgentRole, model: string)
    ensures RawResultContract(Some(role)) == Some(BuildAgent(role, model).contract)
  {
  }

  // ---------------------------------------------------------------- resolve_role_label

  /** `s.encode("ascii", "ignore").decode("ascii")`: the ASCII characters of `s`, in order. */
  function AsciiOnly(s: string): (r: string)
    ensures |r| <= |s| && IsAscii(r)
    ensures IsAscii(s) ==> r == s
  {
    if s == [] then []
    else (if s[0] < '\U{80}' then [s[0]] else []) + AsciiOnly(s[1..])
  }

  /** Lower-casing ASCII text keeps it ASCII and leaves no upper-case letter. */
  lemma LowerAscii(s: string)
    requires IsAscii(s)
    ensures IsAscii(Lower(s)) && NoUpper(Lower(s))
  {
    forall k | 0 <= k < |s|
      ensures Lower(s)[k] < '\U{80}' && !('A' <= Lower(s)[k] <= 'Z')
    {
      assert Lower(s)[k] == LowerChar(s[k])[0];
    }
  }

  /** Reading underscores as blanks keeps ASCII text ASCII and free of upper case. */
  lemma UnderscoresAsBlanks(s: string)
    requires IsAscii(s) && NoUpper(s)
    ensures IsAscii(ReplaceChar(s, '_', ' ')) && NoUpper(ReplaceChar(s, '_', ' ')) && Free(ReplaceChar(s, '_', ' '), '_')
  {
  }

  /**
   * `_normalize_label`: `str(value).strip()`, NFKD-decomposed (the oracle
   * `nfkd`), reduced to ASCII, lower-cased, underscores read as spaces.
   */
  function NormalizeLabel(nfkd: string -> string, v: Value): (r: string)
    ensures IsAscii(r) && NoUpper(r) && Free(r, '_')
    ensures v.VNone? || IsBlank(Str(v)) ==> r == []
  {
    if v.VNone? then []
    else
      var text := Strip(Str(v));
      if text == [] then []
      else
        var ascii := AsciiOnly(nfkd(text));
        LowerAscii(ascii);
        UnderscoresAsBlanks(Lower(ascii));
        ReplaceChar(Lower(ascii), '_', ' ')
  }

  /** The first role whose value the normalised label spells, with spaces read as underscores. */
  function ExactRole(norm: string, roles: seq<AgentRole>): (r: Option<AgentRole>)
    ensures r.Some? ==> r.value in roles && (norm == r.value.Value() || ReplaceChar(norm, ' ', '_') == r.value.Value())
    ensures r.None? ==> forall role :: role in roles ==> norm != role.Value() && ReplaceChar(norm, ' ', '_') != role.Value()
  {
    if roles == [] then None
    else if norm == roles[0].Value() || ReplaceChar(norm, ' ', '_') == roles[0].Value() then Some(roles[0])
    else ExactRole(norm, roles[1..])
  }

  /**
   * The substring heuristics of `resolve_role_label`, in their order: each
   * role with the words that select it.
   */
  const KeywordTable: seq<(seq<string>, AgentRole)> := [
    (["triagem"], Triagem),
    (["comercial", "venda"], Comercial),
    (["guia", "unidade", "loja"], GuiaUnidades),
    (["cotador", "cotacao", "preco"], Cotador),
    (["consultor", "tecnico"], ConsultorTecnico),
    (["resumo"], Resumo),
    (["coordenador", "supervisor"], Coordenador)]

  /** A normalised label that mentions a human or an attendant. */
  predicate MentionsHuman(norm: string) { Contains(norm, "humano") || Contains(norm, "atendente") }

  /**
   * `resolve_role_label` after normalisation: nothing for an empty label or
   * one naming a human; otherwise the role whose value the label spells
   * (blanks read as underscores), else the role of the first keyword row
   * that matches.
   */
  function ResolveNormalized(norm: string): (r: Option<AgentRole>)
    ensures norm == [] || MentionsHuman(norm) ==> r.None?
    ensures r.Some? ==> ReplaceChar(norm, ' ', '_') == r.value.Value()
                        || exists i :: 0 <= i < |KeywordTable| && KeywordTable[i].1 == r.value && AnyIn(norm, KeywordTable[i].0)
    ensures ExactRole(norm, Roles).Some? && !MentionsHuman(norm) ==> r.Some? && ReplaceChar(norm, ' ', '_') == r.value.Value()
    ensures r.None? && norm != [] && !MentionsHuman(norm) ==>
              (forall role: AgentRole :: ReplaceChar(norm, ' ', '_') != role.Value())
              && forall i :: 0 <= i < |KeywordTable| ==> !AnyIn(norm, KeywordTable[i].0)
  {
    if norm == [] then None
    else if MentionsHuman(norm) then None
    else
      match ExactRole(norm, Roles)
      case Some(role) => ExactSpelling(norm, role); Some(role)
      case None => AllRolesListed(); FirstKeyword(norm, KeywordTable)
  }

  /** `resolve_role_label`: the label normalised, then resolved. */
  function ResolveRoleLabel(nfkd: string -> string, v: Value): (r: Option<AgentRole>)
    ensures v.VNone? || IsBlank(Str(v)) ==> r.None?
  {
    ResolveNormalized(NormalizeLabel(nfkd, v))
  }

  /** A label equal to a role value has no blanks, so reading blanks as underscores leaves it as it is. */
  lemma ExactSpelling(norm: string, role: AgentRole)
    requires norm == role.Value() || ReplaceChar(norm, ' ', '_') == role.Value()
    ensures ReplaceChar(norm, ' ', '_') == role.Value()
  {
    if norm == role.Value() {
      assert ReplaceChar(norm, ' ', '_') == norm;
    }
  }

  /** An occurrence of `p` puts its first two characters side by side in `s`. */
  lemma OccursAtPair(s: string, p: string, i: int)
    requires |p| >= 2
    ensures OccursAt(s, p, i) ==> 0 <= i < |s| - 1 && s[i] == p[0] && s[i + 1] == p[1]
  {
    if OccursAt(s, p, i) {
      assert s[i..i + |p|][0] == p[0];
      assert s[i..i + |p|][1] == p[1];
    }
  }

  /** A pattern whose first two characters never stand side by side in `s` does not occur in it. */
  lemma NoPair(s: string, p: string)
    requires |p| >= 2
    requires forall k :: 0 <= k < |s| - 1 ==> !(s[k] == p[0] && s[k + 1] == p[1])
    ensures !Contains(s, p)
  {
    forall i | 0 <= i ensures !OccursAt(s, p, i) {
      OccursAtPair(s, p, i);
    }
  }

  /** Text of letters and underscores, with its underscores read as blanks. */
  function Spell(v: string): (r: string)
    ensures |r| == |v|
    ensures forall k :: 0 <= k < |r| ==> r[k] == (if v[k] == '_' then ' ' else v[k])
  {
    ReplaceChar(v, '_', ' ')
  }

  /** Text without an `h`, nor an `a` followed by a `t`, names neither a human nor an attendant. */
  lemma NotHumanByLetters(s: string)
    requires forall k :: 0 <= k < |s| ==> s[k] != 'h'
    requires forall k :: 0 <= k < |s| - 1 ==> !(s[k] == 'a' && s[k + 1] == 't')
    ensures !MentionsHuman(s)
  {
    NoPair(s, "humano");
    NoPair(s, "atendente");
  }

  /** No role value holds an `h`. */
  lemma ValueWithoutH(role: AgentRole)
    ensures forall k :: 0 <= k < |role.Value()| ==> role.Value()[k] != 'h'
  {
    match role
    case Triagem =>
    case Comercial =>
    case GuiaUnidades =>
    case Cotador =>
    case ConsultorTecnico =>
    case Resumo =>
    case Coordenador =>
  }

  /** No role value holds an `a` followed by a `t`. */
  lemma ValueWithoutAt(role: AgentRole)
    ensures forall k :: 0 <= k < |role.Value()| - 1 ==> !(role.Value()[k] == 'a' && role.Value()[k + 1] == 't')
  {
    match role
    case Triagem =>
    case Comercial =>
    case GuiaUnidades =>
    case Cotador =>
    case ConsultorTecnico =>
    case Resumo =>
    case Coordenador =>
  }

  /** No spelled role value names a human or an attendant. */
  lemma SpelledNotHuman(role: AgentRole)
    ensures !MentionsHuman(Spell(role.Value()))
  {
    var v := role.Value();
    ValueWithoutH(role);
    ValueWithoutAt(role);
    var s := Spell(v);
    assert forall k :: 0 <= k < |s| ==> s[k] != 'h';
    assert forall k :: 0 <= k < |s| - 1 ==> !(s[k] == 'a' && s[k + 1] == 't');
    NotHumanByLetters(s);
  }

  /** Normalising snake-case text that NFKD leaves alone spells it with blanks. */
  lemma NormalizeSnake(nfkd: string -> string, v: string)
    requires SnakeCase(v) && nfkd(v) == v
    ensures NormalizeLabel(nfkd, VStr(v)) == Spell(v)
  {
    SnakePlain(v);
    StripOfTrimmed(v);
    PlainLabel(nfkd, v);
  }

  /** Snake-case text is trimmed, ASCII and free of upper case. */
  lemma SnakePlain(v: string)
    requires SnakeCase(v)
    ensures Trimmed(v) && IsAscii(v) && NoUpper(v)
  {
  }

  /** Trimmed lower-case ASCII text that NFKD leaves alone is only respelled by the normaliser. */
  lemma PlainLabel(nfkd: string -> string, v: string)
    requires v != [] && Strip(v) == v && IsAscii(v) && NoUpper(v) && nfkd(v) == v
    ensures NormalizeLabel(nfkd, VStr(v)) == Spell(v)
  {
    assert Str(VStr(v)) == v;
    LowerFixed(v);
  }

  /** Reading the blanks of spelled snake-case text back as underscores restores it. */
  lemma UnspellSnake(v: string)
    requires SnakeCase(v)
    ensures ReplaceChar(Spell(v), ' ', '_') == v
  {
  }

  /** The exact-match step finds a role under its spelled value. */
  lemma ExactOwnValue(role: AgentRole)
    ensures ExactRole(Spell(role.Value()), Roles) == Some(role)
  {
    var v := role.Value();
    UnspellSnake(v);
    ExactFinds(Spell(v), role);
  }

  /** A label that reads as a role's value once blanks become underscores finds that role. */
  lemma ExactFinds(norm: string, role: AgentRole)
    requires ReplaceChar(norm, ' ', '_') == role.Value()
    ensures ExactRole(norm, Roles) == Some(role)
  {
    RoleRoundTrip(role, role);
    var r := ExactRole(norm, Roles);
    assert r.Some?;
    ExactSpelling(norm, r.value);
    RoleRoundTrip(r.value, role);
  }

  /** Every role is recognised under its own value, when NFKD leaves that value as it is. */
  lemma ResolveOwnValue(nfkd: string -> string, role: AgentRole)
    requires nfkd(role.Value()) == role.Value()
    ensures ResolveRoleLabel(nfkd, VStr(role.Value())) == Some(role)
  {
    var spelled := Spell(role.Value());
    NormalizeOwnValue(nfkd, role);
    SpelledNotHuman(role);
    ExactOwnValue(role);
    assert |spelled| == |role.Value()| > 0;
    SpelledResolves(spelled, role);
  }

  /** The resolution step, given that the label is non-empty, names no human and spells the role. */
  lemma SpelledResolves(norm: string, role: AgentRole)
    requires norm != [] && !MentionsHuman(norm) && ExactRole(norm, Roles) == Some(role)
    ensures ResolveNormalized(norm) == Some(role)
  {
  }

  lemma NormalizeOwnValue(nfkd: string -> string, role: AgentRole)
    requires nfkd(role.Value()) == role.Value()
    ensures NormalizeLabel(nfkd, VStr(role.Value())) == Spell(role.Value())
  {
    NormalizeSnake(nfkd, role.Value());
  }
}
