/**
 * Agent and bot records (src/core/agents.py, src/core/bots.py): the field
 * normalisers, the version rule of an update, the values an update writes
 * and the links `replace_bot_agents` stores. The database is a parameter:
 * the stored row, whether a name is taken, whether an id exists.
 */
module Registry {
  import opened Wrappers
  import opened PyText
  import opened PyValue
  import opened Architecture

  /** The longest name or model the tables accept. */
  const MaxNameLength := 255

  // ---------------------------------------------------------------- text fields

  /**
   * `(value or "").strip()`, rejected when empty (with `missing`) or longer
   * than 255 characters (with `tooLong`).
   */
  function BoundedText(value: Option<string>, missing: string, tooLong: string): (r: Result<string, string>)
    ensures r.Success? <==> !IsBlank(value.GetOr("")) && |Strip(value.GetOr(""))| <= MaxNameLength
    ensures r.Success? ==> r.value == Strip(value.GetOr("")) && r.value != [] && Strip(r.value) == r.value
    ensures r.Failure? ==> r.error == (if IsBlank(value.GetOr("")) then missing else tooLong)
  {
    var text := Strip(value.GetOr(""));
    StripIdempotent(value.GetOr(""));
    if text == [] then Failure(missing)
    else if |text| > MaxNameLength then Failure(tooLong)
    else Success(text)
  }

  /** An accepted text is accepted again, unchanged. */
  lemma BoundedTextIdempotent(value: Option<string>, missing: string, tooLong: string)
    requires BoundedText(value, missing, tooLong).Success?
    ensures BoundedText(Some(BoundedText(value, missing, tooLong).value), missing, tooLong)
            == BoundedText(value, missing, tooLong)
  {
  }

  /** `(value or "").strip()`, rejected with `missing` when empty. */
  function RequiredText(value: Option<string>, missing: string): (r: Result<string, string>)
    ensures r.Success? <==> !IsBlank(value.GetOr(""))
    ensures r.Success? ==> r.value == Strip(value.GetOr("")) && Strip(r.value) == r.value
    ensures r.Failure? ==> r.error == missing
  {
    StripIdempotent(value.GetOr(""));
    if IsBlank(value.GetOr("")) then Failure(missing) else Success(Strip(value.GetOr("")))
  }

  /** `(value or "").strip() or None`: the optional description. */
  function OptionalText(value: Option<string>): (r: Option<string>)
    ensures r.None? <==> IsBlank(value.GetOr(""))
    ensures r.Some? ==> r.value == Strip(value.GetOr("")) && r.value != []
  {
    if IsBlank(value.GetOr("")) then None else Some(Strip(value.GetOr("")))
  }

  // ---------------------------------------------------------------- versions

  /** A Python float as the version rule sees it: integral (with its value) or not. */
  datatype PyFloat = Integral(i: int) | Fractional

  /** The version argument: missing, an `int`, or a `float`. */
  datatype VersionInput = NoVersion | IntVersion(i: int) | FloatVersion(f: PyFloat)

  /** The messages of one module: agents write them with accents, bots without. */
  datatype Wording = Wording(
    nameMissing: string, nameTooLong: string, notInteger: string, versionTooSmall: string, versionPrefix: string)

  const AgentWording := Wording(
    "Informe o nome do agente.", "O nome do agente deve ter no máximo 255 caracteres.",
    "A versão deve ser um número inteiro.", "A versão deve ser maior ou igual a 1.", "A versão deve ser maior que a atual (")

  const BotWording := Wording(
    "Informe o nome do bot.", "O nome do bot deve ter no maximo 255 caracteres.",
    "A versao deve ser um numero inteiro.", "A versao deve ser maior ou igual a 1.", "A versao deve ser maior que a atual (")

  /** `f"A versão deve ser maior que a atual ({current})."` */
  function NotGreater(w: Wording, current: int): string {
    w.versionPrefix + IntToString(current) + ")."
  }

  /**
   * `_normalize_version`: a missing version is 1; a fractional float is
   * rejected; anything below 1 is rejected.
   */
  function NormalizeVersion(w: Wording, value: VersionInput): (r: Result<int, string>)
    ensures value.NoVersion? ==> r == Success(1)
    ensures value == FloatVersion(Fractional) ==> r == Failure(w.notInteger)
    ensures r.Success? ==> r.value >= 1
    ensures value.IntVersion? ==> (r.Success? <==> value.i >= 1) && (r.Success? ==> r.value == value.i)
    ensures value.IntVersion? && value.i < 1 ==> r == Failure(w.versionTooSmall)
    ensures (value.FloatVersion? && value.f.Integral?)
              ==> (r.Success? <==> value.f.i >= 1) && (r.Success? ==> r.value == value.f.i)
  {
    match value
    case NoVersion => Success(1)
    case FloatVersion(Fractional) => Failure(w.notInteger)
    case FloatVersion(Integral(i)) => if i < 1 then Failure(w.versionTooSmall) else Success(i)
    case IntVersion(i) => if i < 1 then Failure(w.versionTooSmall) else Success(i)
  }

  // ---------------------------------------------------------------- agents

  const AgentPromptMissing := "Informe o prompt do agente."
  const AgentModelMissing := "Informe o modelo do agente."
  const AgentModelTooLong := "O modelo deve ter no máximo 255 caracteres."
  const AgentRoleMissing := "Informe o papel do agente."
  const AgentRoleInvalid := "Papel do agente inválido."
  const AgentNotFound := "Agente não encontrado."
  const AgentNameTaken := "Já existe um agente com este nome."
  const RagNotFound := "RAG não encontrado."

  /** The role argument: missing, an `AgentRole` member, or free text. */
  datatype RoleInput = NoRole | RoleMember(role: AgentRole) | RoleText(s: string)

  /**
   * `_normalize_role`: missing or blank text is rejected; a member gives its
   * value; text gives the value of the role it resolves to, or is rejected.
   */
  function NormalizeRole(nfkd: string -> string, value: RoleInput): (r: Result<string, string>)
    ensures (value.NoRole? || (value.RoleText? && IsBlank(value.s))) ==> r == Failure(AgentRoleMissing)
    ensures value.RoleMember? ==> r == Success(value.role.Value())
    ensures (value.RoleText? && !IsBlank(value.s))
              ==> (r.Success? <==> ResolveRoleLabel(nfkd, VStr(value.s)).Some?)
                  && (r.Success? ==> r.value == ResolveRoleLabel(nfkd, VStr(value.s)).value.Value())
                  && (r.Failure? ==> r.error == AgentRoleInvalid)
    ensures r.Success? ==> ParseRole(r.value).Some?
  {
    match value
    case NoRole => Failure(AgentRoleMissing)
    case RoleMember(role) =>
      RoleRoundTrip(role, role);
      Success(role.Value())
    case RoleText(s) =>
      if IsBlank(s) then Failure(AgentRoleMissing)
      else match ResolveRoleLabel(nfkd, VStr(s))
        case None => Failure(AgentRoleInvalid)
        case Some(role) =>
          RoleRoundTrip(role, role);
          Success(role.Value())
  }

  /** A stored role value, read back as text, normalises to itself: the rule is idempotent. */
  lemma RoleIdempotent(nfkd: string -> string, role: AgentRole)
    requires nfkd(role.Value()) == role.Value()
    ensures NormalizeRole(nfkd, RoleText(role.Value())) == Success(role.Value())
    ensures NormalizeRole(nfkd, RoleMember(role)) == NormalizeRole(nfkd, RoleText(role.Value()))
  {
    OwnValueNotBlank(role);
    ResolveOwnValue(nfkd, role);
  }

  lemma OwnValueNotBlank(role: AgentRole)
    ensures !IsBlank(role.Value())
  {
    var v := role.Value();
    assert !IsSpace(v[0]) && !IsSpace(v[|v| - 1]);
    StripOfTrimmed(v);
  }

  /** What `update_agent` is given. */
  datatype AgentInput = AgentInput(
    nome: Option<string>, descricao: Option<string>, systemPrompt: Option<string>, model: Option<string>,
    versao: VersionInput, ativo: bool, orquestrador: bool, papel: RoleInput, ragId: Option<int>)

  /** The row `update_agent` writes. */
  datatype AgentRow = AgentRow(
    nome: string, descricao: Option<string>, systemPrompt: string, versao: int, ativo: bool, orquestrador: bool,
    papel: string, model: string, ragId: Option<int>)

  /** The fields of an agent, normalised in the source's order: name, prompt, version, model, role. */
  function NormalizeAgent(nfkd: string -> string, a: AgentInput): (r: Result<AgentRow, string>)
    ensures r.Success? <==> BoundedText(a.nome, AgentWording.nameMissing, AgentWording.nameTooLong).Success?
                            && RequiredText(a.systemPrompt, AgentPromptMissing).Success?
                            && NormalizeVersion(AgentWording, a.versao).Success?
                            && BoundedText(a.model, AgentModelMissing, AgentModelTooLong).Success?
                            && NormalizeRole(nfkd, a.papel).Success?
    ensures (BoundedText(a.nome, AgentWording.nameMissing, AgentWording.nameTooLong).Failure?)
              ==> r == Failure(BoundedText(a.nome, AgentWording.nameMissing, AgentWording.nameTooLong).error)
    ensures r.Success? ==> r.value.nome == Strip(a.nome.GetOr("")) && r.value.model == Strip(a.model.GetOr(""))
                           && r.value.systemPrompt == Strip(a.systemPrompt.GetOr("")) && r.value.versao >= 1
                           && r.value.descricao == OptionalText(a.descricao) && r.value.ragId == a.ragId
                           && ParseRole(r.value.papel).Some?
  {
    var nome :- BoundedText(a.nome, AgentWording.nameMissing, AgentWording.nameTooLong);
    var prompt :- RequiredText(a.systemPrompt, AgentPromptMissing);
    var versao :- NormalizeVersion(AgentWording, a.versao);
    var model :- BoundedText(a.model, AgentModelMissing, AgentModelTooLong);
    var papel :- NormalizeRole(nfkd, a.papel);
    Success(AgentRow(nome, OptionalText(a.descricao), prompt, versao, a.ativo, a.orquestrador, papel, model, a.ragId))
  }

  /**
   * `update_agent`: the fields are normalised first; then the stored
   * version must exist and be lower than the new one, the name must be free
   * and the RAG, when given, must exist.
   */
  function UpdateAgent(nfkd: string -> string, a: AgentInput, current: Option<int>, nameTaken: string -> bool,
                       ragExists: int -> bool): (r: Result<AgentRow, string>)
    ensures NormalizeAgent(nfkd, a).Failure? ==> r == Failure(NormalizeAgent(nfkd, a).error)
    ensures (NormalizeAgent(nfkd, a).Success? && current.None?) ==> r == Failure(AgentNotFound)
    ensures r.Success? ==> r == NormalizeAgent(nfkd, a) && current.Some? && r.value.versao > current.value
                           && !nameTaken(r.value.nome) && (a.ragId.Some? ==> ragExists(a.ragId.value))
    ensures (NormalizeAgent(nfkd, a).Success? && current.Some? && NormalizeAgent(nfkd, a).value.versao <= current.value)
              ==> r == Failure(NotGreater(AgentWording, current.value))
  {
    var row :- NormalizeAgent(nfkd, a);
    if current.None? then Failure(AgentNotFound)
    else if row.versao <= current.value then Failure(NotGreater(AgentWording, current.value))
    else if nameTaken(row.nome) then Failure(AgentNameTaken)
    else if a.ragId.Some? && !ragExists(a.ragId.value) then Failure(RagNotFound)
    else Success(row)
  }

  /** Saving an agent again with the version it already has is always refused: each update must raise the version. */
  lemma UpdateNeedsNewVersion(nfkd: string -> string, a: AgentInput, nameTaken: string -> bool, ragExists: int -> bool)
    requires UpdateAgent(nfkd, a, Some(0), nameTaken, ragExists).Success?
    ensures var v := UpdateAgent(nfkd, a, Some(0), nameTaken, ragExists).value.versao;
            UpdateAgent(nfkd, a, Some(v), nameTaken, ragExists) == Failure(NotGreater(AgentWording, v))
  {
  }

  // ---------------------------------------------------------------- bots

  const BotRoleInvalid := "Informe um papel de agente valido."
  const BotNameTaken := "Ja existe um bot com este nome."
  const OrchestratorMissing := "Informe um agente orquestrador."
  const BotMissing := "Bot nao encontrado."
  const LinkedAgentMissing := "Agente nao encontrado."

  /** `_normalize_role` of a bot link: the stripped text, which must be `orquestrador` or `vinculado`. */
  function NormalizeLinkRole(value: Option<string>): (r: Result<string, string>)
    ensures r.Success? <==> Strip(value.GetOr("")) in {"orquestrador", "vinculado"}
    ensures r.Success? ==> r.value == Strip(value.GetOr(""))
    ensures r.Failure? ==> r.error == BotRoleInvalid
  {
    var role := Strip(value.GetOr(""));
    if role in {"orquestrador", "vinculado"} then Success(role) else Failure(BotRoleInvalid)
  }

  /** What is stored of a bot before an update. */
  datatype BotRow = BotRow(versao: int, nome: string)

  /** The optional fields `update_bot` is given; a missing one is left as it is. */
  datatype BotChanges = BotChanges(
    nome: Option<string>, descricao: Option<string>, versao: VersionInput, ativo: Option<bool>, persona: Option<string>)

  /** The values `update_bot` writes, each present only when given. */
  datatype BotValues = BotValues(
    nome: Option<string>, descricao: Option<Option<string>>, versao: Option<int>, ativo: Option<bool>, persona: Option<string>)

  /** An update that writes nothing. */
  predicate NoValues(v: BotValues) {
    v.nome.None? && v.descricao.None? && v.versao.None? && v.ativo.None? && v.persona.None?
  }

  /** `f"Bot {bot_id} nao encontrado."` */
  function BotNotFound(botId: int): string {
    "Bot " + IntToString(botId) + " nao encontrado."
  }

  /** The name step of `update_bot`: normalised, and checked for uniqueness only when it changes other than in case. */
  function BotName(current: BotRow, nome: Option<string>, nameTaken: string -> bool): (r: Result<Option<string>, string>)
    ensures nome.None? ==> r == Success(None)
    ensures (nome.Some? && BoundedText(nome, BotWording.nameMissing, BotWording.nameTooLong).Failure?)
              ==> r == Failure(BoundedText(nome, BotWording.nameMissing, BotWording.nameTooLong).error)
    ensures r.Success? && nome.Some? ==> r.value == Some(BoundedText(nome, BotWording.nameMissing, BotWording.nameTooLong).value)
    ensures r == Failure(BotNameTaken) <==> (nome.Some? && BoundedText(nome, BotWording.nameMissing, BotWording.nameTooLong).Success?
                                            && var n := BoundedText(nome, BotWording.nameMissing, BotWording.nameTooLong).value;
                                               Lower(n) != Lower(current.nome) && nameTaken(n))
  {
    if nome.None? then Success(None)
    else
      match BoundedText(nome, BotWording.nameMissing, BotWording.nameTooLong)
      case Failure(e) =>
        assert e != BotNameTaken;
        Failure(e)
      case Success(n) =>
        if Lower(n) != Lower(current.nome) && nameTaken(n) then Failure(BotNameTaken) else Success(Some(n))
  }

  /** The version step of `update_bot`: normalised, and above the stored version. */
  function BotVersion(current: BotRow, versao: VersionInput): (r: Result<Option<int>, string>)
    ensures versao.NoVersion? ==> r == Success(None)
    ensures r.Success? ==> (r.value.Some? <==> versao != NoVersion)
    ensures r.Success? && r.value.Some? ==> r.value.value > current.versao && versao != NoVersion
    ensures (versao != NoVersion && NormalizeVersion(BotWording, versao).Success?)
              ==> (r.Success? <==> NormalizeVersion(BotWording, versao).value > current.versao)
                  && (r.Success? ==> r.value == Some(NormalizeVersion(BotWording, versao).value))
  {
    if versao.NoVersion? then Success(None)
    else
      var v :- NormalizeVersion(BotWording, versao);
      if v <= current.versao then Failure(NotGreater(BotWording, current.versao)) else Success(Some(v))
  }

  /**
   * `update_bot`: a missing bot is refused; then, in order, the name, the
   * description, the version, the active flag and the persona are taken
   * when given. `None` means nothing is written.
   */
  function UpdateBot(botId: int, current: Option<BotRow>, c: BotChanges, nameTaken: string -> bool): (r: Result<Option<BotValues>, string>)
    ensures current.None? ==> r == Failure(BotNotFound(botId))
    ensures r.Success? ==> current.Some? && BotName(current.value, c.nome, nameTaken).Success?
                           && BotVersion(current.value, c.versao).Success?
    ensures r.Success? ==> (r.value.None? <==> c.nome.None? && c.descricao.None? && c.versao.NoVersion? && c.ativo.None? && c.persona.None?)
    ensures r.Success? && r.value.Some? ==>
              r.value.value.nome == BotName(current.value, c.nome, nameTaken).value
              && r.value.value.descricao == (if c.descricao.Some? then Some(OptionalText(c.descricao)) else None)
              && r.value.value.versao == BotVersion(current.value, c.versao).value
              && r.value.value.ativo == c.ativo && r.value.value.persona == c.persona
              && !NoValues(r.value.value)
  {
    if current.None? then Failure(BotNotFound(botId))
    else
      var name := BotName(current.value, c.nome, nameTaken);
      assert name.Success? ==> (name.value.None? <==> c.nome.None?);
      UpdateBotWith(name, current.value, c)
  }

  /** The steps of `update_bot` after the name. */
  function UpdateBotWith(name: Result<Option<string>, string>, current: BotRow, c: BotChanges): (r: Result<Option<BotValues>, string>)
    ensures r.Success? ==> name.Success? && BotVersion(current, c.versao).Success?
    ensures r.Success? ==> (r.value.None? <==> name.value.None? && c.descricao.None? && BotVersion(current, c.versao).value.None?
                                               && c.ativo.None? && c.persona.None?)
    ensures r.Success? && r.value.Some? ==>
              r.value.value == BotValues(name.value, if c.descricao.Some? then Some(OptionalText(c.descricao)) else None,
                                         BotVersion(current, c.versao).value, c.ativo, c.persona)
              && !NoValues(r.value.value)
  {
    var nome :- name;
    var descricao := if c.descricao.Some? then Some(OptionalText(c.descricao)) else None;
    var versao :- BotVersion(current, c.versao);
    var values := BotValues(nome, descricao, versao, c.ativo, c.persona);
    if NoValues(values) then Success(None) else Success(Some(values))
  }

  /** Renaming a bot only in letter case never meets the uniqueness check: what the store says about names does not matter. */
  lemma RecaseSkipsUniqueness(botId: int, current: BotRow, c: BotChanges, taken: string -> bool, otherTaken: string -> bool)
    requires c.nome.Some? && BoundedText(c.nome, BotWording.nameMissing, BotWording.nameTooLong).Success?
    requires Lower(BoundedText(c.nome, BotWording.nameMissing, BotWording.nameTooLong).value) == Lower(current.nome)
    ensures UpdateBot(botId, Some(current), c, taken) == UpdateBot(botId, Some(current), c, otherTaken)
  {
    RecaseName(current, c.nome, taken, otherTaken);
    var name := BotName(current, c.nome, taken);
    assert UpdateBot(botId, Some(current), c, taken) == UpdateBotWith(name, current, c);
    assert UpdateBot(botId, Some(current), c, otherTaken) == UpdateBotWith(name, current, c);
  }

  lemma RecaseName(current: BotRow, nome: Option<string>, taken: string -> bool, otherTaken: string -> bool)
    requires nome.Some? && BoundedText(nome, BotWording.nameMissing, BotWording.nameTooLong).Success?
    requires Lower(BoundedText(nome, BotWording.nameMissing, BotWording.nameTooLong).value) == Lower(current.nome)
    ensures BotName(current, nome, taken) == BotName(current, nome, otherTaken)
            == Success(Some(BoundedText(nome, BotWording.nameMissing, BotWording.nameTooLong).value))
  {
  }

  /** The links `replace_bot_agents` stores: each linked agent id with its role. */
  type Links = map<int, string>

  /**
   * `replace_bot_agents`: the orchestrator id is required; the ids are
   * deduplicated and the orchestrator joins them; the bot and every agent
   * must exist; the orchestrator is linked as `orquestrador` and every other
   * agent as `vinculado`.
   */
  function ReplaceBotAgents(agentIds: seq<int>, orchestrator: Option<int>, botExists: bool, agentExists: int -> bool): (r: Result<Links, string>)
    ensures orchestrator.None? ==> r == Failure(OrchestratorMissing)
    ensures (orchestrator.Some? && !botExists) ==> r == Failure(BotMissing)
    ensures r.Success? ==> orchestrator.Some? && r.value.Keys == (set i | i in agentIds) + {orchestrator.value}
    ensures r.Success? ==> r.value[orchestrator.value] == "orquestrador"
    ensures r.Success? ==> forall i :: i in r.value && i != orchestrator.value ==> r.value[i] == "vinculado"
    ensures (orchestrator.Some? && botExists)
              ==> (r.Success? <==> forall i :: i in (set j | j in agentIds) + {orchestrator.value} ==> agentExists(i))
  {
    if orchestrator.None? then Failure(OrchestratorMissing)
    else
      var ids := (set i | i in agentIds) + {orchestrator.value};
      if !botExists then Failure(BotMissing)
      else if exists i :: i in ids && !agentExists(i) then Failure(LinkedAgentMissing)
      else Success(map i | i in ids :: if i == orchestrator.value then "orquestrador" else "vinculado")
  }

  /** Exactly one agent is the orchestrator, and every stored role passes the link-role rule. */
  lemma OneOrchestrator(agentIds: seq<int>, orchestrator: Option<int>, botExists: bool, agentExists: int -> bool)
    requires ReplaceBotAgents(agentIds, orchestrator, botExists, agentExists).Success?
    ensures var links := ReplaceBotAgents(agentIds, orchestrator, botExists, agentExists).value;
            (forall i :: i in links && links[i] == "orquestrador" ==> i == orchestrator.value)
            && (forall i :: i in links ==> NormalizeLinkRole(Some(links[i])) == Success(links[i]))
  {
    var links := ReplaceBotAgents(agentIds, orchestrator, botExists, agentExists).value;
    forall i | i in links
      ensures NormalizeLinkRole(Some(links[i])) == Success(links[i])
    {
      StripOfTrimmed(links[i]);
    }
  }

  /** The stored links depend only on the set of ids: order and repeats in the request do not matter. */
  lemma LinksIgnoreOrder(a: seq<int>, b: seq<int>, orchestrator: Option<int>, botExists: bool, agentExists: int -> bool)
    requires forall i :: i in a <==> i in b
    ensures ReplaceBotAgents(a, orchestrator, botExists, agentExists) == ReplaceBotAgents(b, orchestrator, botExists, agentExists)
  {
    var setA, setB := (set i | i in a), (set i | i in b);
    assert forall i :: i in setA <==> i in setB;
    assert setA == setB;
  }
}
