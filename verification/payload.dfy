/**
 * The small readers the router applies to a decoded reply (src/core/orchestration.py,
 * with their twins in src/frontend/views/bot_tests.py): token usage, the
 * message and the escalation a payload carries, the debug summary of a
 * payload, and the first-wins map from role to linked agent.
 */
module Payload {
  import opened Wrappers
  import opened PyText
  import opened PyValue
  import opened Architecture
  import Repair

  // ---------------------------------------------------------------- usage

  /** A usage dict: token counts by key. */
  type Usage = map<string, int>

  const UsageKeys: set<string> := {"input", "output", "total"}

  /** `u.get(k, 0)` for an optional usage dict, a missing dict or key counting 0. */
  function Tokens(u: Option<Usage>, k: string): int {
    if u.Some? && k in u.value then u.value[k] else 0
  }

  /** `base[k] += u.get(k, 0)` for the three keys. */
  function AddUsage(base: Usage, u: Usage): (r: Usage)
    requires UsageKeys <= base.Keys
    ensures r.Keys == base.Keys
  {
    base["input" := base["input"] + Tokens(Some(u), "input")]
        ["output" := base["output"] + Tokens(Some(u), "output")]
        ["total" := base["total"] + Tokens(Some(u), "total")]
  }

  /**
   * `sum_usage`: the three counters of both operands added key by key, a
   * `None` or empty operand, or a missing key, counting 0.
   */
  function SumUsage(u1: Option<Usage>, u2: Option<Usage>): (r: Usage)
    ensures r.Keys == UsageKeys
    ensures forall k :: k in r ==> r[k] == Tokens(u1, k) + Tokens(u2, k)
  {
    var base := map["input" := 0, "output" := 0, "total" := 0];
    var b1 := if u1.Some? && u1.value != map[] then AddUsage(base, u1.value) else base;
    if u2.Some? && u2.value != map[] then AddUsage(b1, u2.value) else b1
  }

  /** Usage dicts with the same keys and counters are the same. */
  lemma SameCounters(a: Usage, b: Usage)
    requires a.Keys == b.Keys
    requires forall k :: k in a ==> a[k] == b[k]
    ensures a == b
  {
  }

  /** Summing is symmetric. */
  lemma SumUsageSymmetric(u1: Option<Usage>, u2: Option<Usage>)
    ensures SumUsage(u1, u2) == SumUsage(u2, u1)
  {
  }

  /** Summing with nothing keeps exactly the three counters of the other operand. */
  lemma SumUsageUnit(u: Option<Usage>)
    ensures SumUsage(None, u) == SumUsage(u, None)
    ensures forall k :: k in UsageKeys ==> SumUsage(None, u)[k] == Tokens(u, k)
    ensures SumUsage(None, Some(SumUsage(None, u))) == SumUsage(None, u)
  {
  }

  /** Chained sums regroup freely, so a running total does not depend on how the hops were added. */
  lemma SumUsageRegroup(a: Option<Usage>, b: Option<Usage>, c: Option<Usage>)
    ensures SumUsage(Some(SumUsage(a, b)), c) == SumUsage(a, Some(SumUsage(b, c)))
  {
    var left, right := SumUsage(Some(SumUsage(a, b)), c), SumUsage(a, Some(SumUsage(b, c)));
    forall k | k in left
      ensures left[k] == right[k]
    {
      assert left[k] == Tokens(a, k) + Tokens(b, k) + Tokens(c, k);
    }
    SameCounters(left, right);
  }

  /** The usage of a run that made the given hops, in order: the chain of sums the router builds. */
  function RunningTotal(hops: seq<Option<Usage>>): (r: Usage)
    requires |hops| >= 1
    ensures r.Keys == UsageKeys
    decreases |hops|
  {
    if |hops| == 1 then SumUsage(None, hops[0])
    else SumUsage(Some(RunningTotal(hops[..|hops| - 1])), hops[|hops| - 1])
  }

  /** Each counter of the running total is the sum of that counter over the hops. */
  function HopSum(hops: seq<Option<Usage>>, k: string): int
    decreases |hops|
  {
    if hops == [] then 0 else HopSum(hops[..|hops| - 1], k) + Tokens(hops[|hops| - 1], k)
  }

  lemma {:induction false} RunningTotalIsSum(hops: seq<Option<Usage>>)
    requires |hops| >= 1
    ensures forall k :: k in UsageKeys ==> RunningTotal(hops)[k] == HopSum(hops, k)
    decreases |hops|
  {
    if |hops| > 1 {
      RunningTotalIsSum(hops[..|hops| - 1]);
      assert hops[..|hops| - 1][..|hops| - 2] == hops[..|hops| - 2];
    } else {
      assert hops[..0] == [];
    }
  }

  // ---------------------------------------------------------------- payload readers

  /** `_has_message`: the payload's `mensagem` is present and not blank. */
  predicate HasMessage(d: Dict) {
    TextAt(d, "mensagem").Some?
  }

  /** Python's `a or b` for optional texts (a present text is never empty). */
  function OrElse(a: Option<string>, b: Option<string>): (r: Option<string>)
    ensures a.Some? ==> r == a
    ensures a.None? ==> r == b
  {
    if a.Some? then a else b
  }

  /** The first present text among `xs`. */
  function FirstSome(xs: seq<Option<string>>): (r: Option<string>)
    ensures r.None? <==> forall i :: 0 <= i < |xs| ==> xs[i].None?
    ensures r.Some? ==> exists i :: 0 <= i < |xs| && xs[i] == r && forall j :: 0 <= j < i ==> xs[j].None?
  {
    if xs == [] then None
    else if xs[0].Some? then xs[0]
    else
      var r := FirstSome(xs[1..]);
      assert forall i :: 1 <= i < |xs| ==> xs[i] == xs[1..][i - 1];
      r
  }

  /** `_string_or_none(d.get(k))` */
  function TextAt(d: Dict, k: string): Option<string> {
    StringOrNone(Get(d, k))
  }

  /** `_extract_message`: `mensagem`, else `message`, else `pergunta_clareadora`. */
  function ExtractMessage(d: Dict): (r: Option<string>)
    ensures r.Some? ==> r.value != [] && Strip(r.value) == r.value
  {
    var message := OrElse(TextAt(d, "mensagem"), TextAt(d, "message"));
    if message.Some? then message
    else TextAt(d, "pergunta_clareadora")
  }

  /** For three candidates, the first present one is the `or` chain over them. */
  lemma FirstSomeOfThree(a: Option<string>, b: Option<string>, c: Option<string>)
    ensures FirstSome([a, b, c]) == OrElse(OrElse(a, b), c)
  {
    var xs := [a, b, c];
    assert xs[1..] == [b, c];
    assert xs[1..][1..] == [c];
    assert xs[1..][1..][1..] == [];
    assert FirstSome([c]) == c by { assert FirstSome([c][1..]) == None; }
    assert FirstSome([b, c]) == OrElse(b, c);
  }

  /** The message comes from the first of the three keys that holds text. */
  lemma ExtractMessageOrder(d: Dict)
    ensures ExtractMessage(d) == FirstSome([TextAt(d, "mensagem"), TextAt(d, "message"), TextAt(d, "pergunta_clareadora")])
  {
    FirstSomeOfThree(TextAt(d, "mensagem"), TextAt(d, "message"), TextAt(d, "pergunta_clareadora"));
  }

  /** When the payload has a message, the extracted message is it, so the `or` fallback never fires. */
  lemma HasMessageExtracts(d: Dict)
    requires HasMessage(d)
    ensures ExtractMessage(d) == TextAt(d, "mensagem") && ExtractMessage(d).Some?
  {
  }

  /** Does the destination, when it is a string, name a human (in any case)? */
  predicate HumanDestination(destination: Value) {
    destination.VStr? && Contains(Lower(destination.s), "humano")
  }

  /**
   * `_needs_human`: `precisa_humano` is exactly `True`, or the action reads
   * `escalar_humano`, or the destination names a human.
   */
  function NeedsHuman(d: Dict, destination: Value): (r: bool)
    ensures Get(d, "precisa_humano") == Some(VBool(true)) ==> r
    ensures StringOrNone(Get(d, "acao")) == Some("escalar_humano") ==> r
    ensures HumanDestination(destination) ==> r
    ensures r ==> Get(d, "precisa_humano") == Some(VBool(true)) || StringOrNone(Get(d, "acao")) == Some("escalar_humano")
                  || HumanDestination(destination)
  {
    if Get(d, "precisa_humano") == Some(VBool(true)) then true
    else if StringOrNone(Get(d, "acao")) == Some("escalar_humano") then true
    else if destination.VStr? && Contains(Lower(destination.s), "humano") then true
    else false
  }

  /** The live copy's hand-off text without a reason, which also opens the reasoned one. */
  const LiveDefault := "Vou encaminhar " + "seu atendimento para um humano."

  /** The opening of the hand-off text that carries a reason. */
  const HandoffLead := LiveDefault + " Motivo: "

  /** The hand-off text without a reason: the core's constant, the live copy's own sentence. */
  function DefaultHandoff(copy: Repair.Copy): string {
    if copy.Core? then "Um atendente " + "humano entrará em contato em breve." else LiveDefault
  }

  /** The escalation reason: `motivo_escalacao`, else `motivo`. */
  function HandoffReason(d: Dict): Option<string> {
    OrElse(StringOrNone(Get(d, "motivo_escalacao")), StringOrNone(Get(d, "motivo")))
  }

  /** `_handoff_message`: the reason after the fixed lead, or the copy's default when there is none. */
  function HandoffMessage(copy: Repair.Copy, d: Dict): (r: string)
    ensures HandoffReason(d).None? ==> r == DefaultHandoff(copy)
    ensures HandoffReason(d).Some? ==> StartsWith(r, HandoffLead) && r[|HandoffLead|..] == HandoffReason(d).value
  {
    var motivo := HandoffReason(d);
    if motivo.Some? then HandoffLead + motivo.value else DefaultHandoff(copy)
  }

  /** A reasoned hand-off never reads as either default, so the reader can tell the two apart. */
  lemma HandoffDistinct(copy: Repair.Copy, d: Dict)
    requires HandoffReason(d).Some?
    ensures HandoffMessage(copy, d) != DefaultHandoff(Repair.Core) && HandoffMessage(copy, d) != DefaultHandoff(Repair.Live)
  {
    var reason := HandoffReason(d).value;
    assert reason != [];
    LeadDistinct(reason);
  }

  /** The lead and any reason differ from both defaults: by the first character, or by length. */
  lemma LeadDistinct(reason: string)
    ensures HandoffLead + reason != DefaultHandoff(Repair.Core)
    ensures HandoffLead + reason != DefaultHandoff(Repair.Live)
  {
    assert (HandoffLead + reason)[0] == 'V';
  }

  /** `_summarize_payload`: the payload without its message keys; `{}` for none or an empty one. */
  function SummarizePayload(p: Option<Dict>): (r: Dict)
    ensures p.None? || p.value == [] ==> r == []
    ensures p.Some? ==> |r| <= |p.value|
  {
    if p.None? || p.value == [] then [] else Without(p.value, {"mensagem", "message"})
  }

  /** The summary hides exactly the two message keys and shows every other key as it was. */
  lemma SummaryKeys(p: Dict, k: string)
    ensures Get(SummarizePayload(Some(p)), k) == (if k == "mensagem" || k == "message" then None else Get(p, k))
  {
    if p != [] {
      GetWithout(p, {"mensagem", "message"}, k);
    }
  }

  // ---------------------------------------------------------------- contracts as payloads

  /** The six fields of an `AgentReply` as a dict, in declaration order. */
  function ReplyDict(acao: Value, mensagem: Value, precisa: Value, motivo: Value, dados: Value, tags: Value): (d: Dict)
    ensures Get(d, "acao") == Some(acao) && Get(d, "mensagem") == Some(mensagem)
    ensures Get(d, "precisa_humano") == Some(precisa) && Get(d, "motivo_escalacao") == Some(motivo)
    ensures Get(d, "agente_destino").None?
  {
    var d5 := [Entry(VStr("tags"), tags)];
    var d4 := [Entry(VStr("dados_faltantes"), dados)] + d5;
    var d3 := [Entry(VStr("motivo_escalacao"), motivo)] + d4;
    var d2 := [Entry(VStr("precisa_humano"), precisa)] + d3;
    var d1 := [Entry(VStr("mensagem"), mensagem)] + d2;
    var d0 := [Entry(VStr("acao"), acao)] + d1;
    GetCons(d0[0], d1, "mensagem");
    GetCons(d0[0], d1, "precisa_humano");
    GetCons(d1[0], d2, "precisa_humano");
    GetCons(d0[0], d1, "motivo_escalacao");
    GetCons(d1[0], d2, "motivo_escalacao");
    GetCons(d2[0], d3, "motivo_escalacao");
    GetCons(d0[0], d1, "agente_destino");
    GetCons(d1[0], d2, "agente_destino");
    GetCons(d2[0], d3, "agente_destino");
    GetCons(d3[0], d4, "agente_destino");
    GetCons(d4[0], d5, "agente_destino");
    GetCons(d5[0], [], "agente_destino");
    assert d5 == [d5[0]] + [];
    d0
  }

  /** The object `json.loads(reply.model_dump_json())` gives for an `AgentReply`. */
  function ReplyPayload(a: AgentReply): (d: Dict)
    ensures Get(d, "mensagem") == Some(VStr(a.mensagem))
    ensures Get(d, "precisa_humano") == Some(VBool(a.precisaHumano))
    ensures Get(d, "acao") == Some(VStr(a.acao.Value()))
    ensures Get(d, "agente_destino").None?
    ensures Get(d, "motivo_escalacao") == Some(if a.motivoEscalacao.Some? then VStr(a.motivoEscalacao.value) else VNone)
  {
    ReplyDict(VStr(a.acao.Value()), VStr(a.mensagem), VBool(a.precisaHumano),
              if a.motivoEscalacao.Some? then VStr(a.motivoEscalacao.value) else VNone,
              VList(StrList(a.dadosFaltantes)), VList(StrList(a.tags)))
  }

  function StrList(xs: seq<string>): (r: seq<Value>)
    ensures |r| == |xs|
  {
    if xs == [] then [] else [VStr(xs[0])] + StrList(xs[1..])
  }

  /** The action values other than `escalar_humano` are not it. */
  lemma ActionValues(a: ReplyAction)
    ensures a.Value() == "escalar_humano" <==> a == EscalarHumano
    ensures !IsSpace(a.Value()[0]) && !IsSpace(a.Value()[|a.Value()| - 1])
  {
  }

  /**
   * A valid reply needs a human exactly when it says so: its own flag already
   * covers an escalation, so the router's three signals agree with it.
   */
  lemma ReplyNeedsHuman(a: AgentReply)
    requires a.Valid()
    ensures NeedsHuman(ReplyPayload(a), Lookup(ReplyPayload(a), "agente_destino")) <==> a.precisaHumano
  {
    var d := ReplyPayload(a);
    ActionSignal(a);
    var dest := Lookup(d, "agente_destino");
    assert !HumanDestination(dest);
    assert Get(d, "precisa_humano") == Some(VBool(a.precisaHumano));
    if !a.precisaHumano {
      assert Get(d, "precisa_humano") != Some(VBool(true));
    }
  }

  /** The payload's action reads `escalar_humano` exactly when the reply escalates. */
  lemma ActionSignal(a: AgentReply)
    ensures StringOrNone(Get(ReplyPayload(a), "acao")) == Some("escalar_humano") <==> a.acao == EscalarHumano
  {
    var v := a.acao.Value();
    assert Get(ReplyPayload(a), "acao") == Some(VStr(v));
    ActionValues(a.acao);
    StripOfTrimmed(v);
    assert StringOrNone(Some(VStr(v))) == Some(v);
  }

  /** A valid reply that needs a human hands off with its own reason, stripped. */
  lemma ReplyHandoffReason(copy: Repair.Copy, a: AgentReply)
    requires a.Valid() && a.precisaHumano
    ensures HandoffMessage(copy, ReplyPayload(a)) == HandoffLead + Strip(OrEmpty(a.motivoEscalacao))
  {
    FlaggedHasReason(a);
    var reason := a.motivoEscalacao.value;
    var d := ReplyPayload(a);
    assert Get(d, "motivo_escalacao") == Some(VStr(reason));
    assert StringOrNone(Get(d, "motivo_escalacao")) == Some(Strip(reason));
  }

  /** A valid reply that needs a human carries a reason. */
  lemma FlaggedHasReason(a: AgentReply)
    requires a.Valid() && a.precisaHumano
    ensures a.motivoEscalacao.Some? && !IsBlank(a.motivoEscalacao.value)
  {
    var empty: string := [];
    assert IsBlank(empty);
  }

  // ---------------------------------------------------------------- agents by role

  /** The role label of an agent record: `papel`, else `nome`. */
  function RoleLabel(agent: Dict): Value {
    PyOr(Lookup(agent, "papel"), Lookup(agent, "nome"))
  }

  /**
   * What one link contributes: its agent and that agent's role, when the
   * agent exists, is a non-empty active record, and its label resolves.
   */
  function LinkRole(nfkd: string -> string, agentId: int, byId: map<int, Dict>): (r: Option<AgentRole>)
    ensures r.Some? ==> agentId in byId && byId[agentId] != [] && Truthy(Lookup(byId[agentId], "ativo"))
    ensures r.Some? ==> r == ResolveRoleLabel(nfkd, RoleLabel(byId[agentId]))
  {
    if agentId !in byId || byId[agentId] == [] || !Truthy(Lookup(byId[agentId], "ativo")) then None
    else ResolveRoleLabel(nfkd, RoleLabel(byId[agentId]))
  }

  /** The index of the first link that `roleOf` reads as `role`, if any. */
  function FirstLinkFor(roleOf: int -> Option<AgentRole>, links: seq<int>, role: AgentRole): (r: Option<nat>)
    ensures r.Some? ==> r.value < |links| && roleOf(links[r.value]) == Some(role)
    ensures r.Some? ==> forall j :: 0 <= j < r.value ==> roleOf(links[j]) != Some(role)
    ensures r.None? ==> forall j :: 0 <= j < |links| ==> roleOf(links[j]) != Some(role)
    decreases |links|
  {
    if links == [] then None
    else
      var init := links[..|links| - 1];
      var first := FirstLinkFor(roleOf, init, role);
      assert forall j :: 0 <= j < |init| ==> init[j] == links[j];
      if first.Some? then first
      else if roleOf(links[|links| - 1]) == Some(role) then Some(|links| - 1)
      else None
  }

  /**
   * The first-wins fold of `_map_agents_by_role` over the links' agent ids in
   * order, for any reading `roleOf` of a link: a role is mapped exactly when
   * some link brings it, and to the agent of the first link that does.
   */
  function MapAgentsByRole(roleOf: int -> Option<AgentRole>, links: seq<int>, byId: map<int, Dict>): (r: map<AgentRole, Dict>)
    requires forall id :: roleOf(id).Some? ==> id in byId
    ensures forall role :: role in r <==> FirstLinkFor(roleOf, links, role).Some?
    ensures forall role :: role in r ==> links[FirstLinkFor(roleOf, links, role).value] in byId
                                         && r[role] == byId[links[FirstLinkFor(roleOf, links, role).value]]
    decreases |links|
  {
    if links == [] then map[]
    else
      var last := links[|links| - 1];
      var m := MapAgentsByRole(roleOf, links[..|links| - 1], byId);
      match roleOf(last)
      case Some(role) => if role in m then m else m[role := byId[last]]
      case None => m
  }

  /** `_map_agents_by_role`: each link's agent, when it is active and its label resolves, under its role; the first link wins. */
  function AgentsByRole(nfkd: string -> string, links: seq<int>, byId: map<int, Dict>): (r: map<AgentRole, Dict>)
    ensures forall role :: role in r <==> exists i :: 0 <= i < |links| && LinkRole(nfkd, links[i], byId) == Some(role)
    ensures forall role :: role in r ==> exists i :: 0 <= i < |links| && LinkRole(nfkd, links[i], byId) == Some(role)
                                                 && r[role] == byId[links[i]]
                                                 && forall j :: 0 <= j < i ==> LinkRole(nfkd, links[j], byId) != Some(role)
  {
    var roleOf := id => LinkRole(nfkd, id, byId);
    var r := MapAgentsByRole(roleOf, links, byId);
    assert forall role :: role in r ==> var i := FirstLinkFor(roleOf, links, role).value; roleOf(links[i]) == Some(role);
    r
  }
}
