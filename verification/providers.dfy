/**
 * Model providers (src/core/ia_settings.py): the name rule, which provider
 * family a name belongs to, where its API key comes from, the masked key
 * suffix and the checks a connection test makes before calling a model.
 * Application settings, environment variables and the model call are
 * parameters.
 */
module Providers {
  import opened Wrappers
  import opened PyText
  import opened Registry

  /**
   * `_validate_name(value, field)`: the stripped name, refused when empty
   * or longer than 255 characters, with messages naming the field.
   */
  function ValidateName(value: Option<string>, field: string): (r: Result<string, string>)
    ensures r.Success? <==> !IsBlank(value.GetOr("")) && |Strip(value.GetOr(""))| <= MaxNameLength
    ensures r.Success? ==> r.value == Strip(value.GetOr("")) && r.value != []
    ensures r.Failure? && IsBlank(value.GetOr("")) ==> r.error == "Informe o " + field + "."
    ensures r.Failure? && !IsBlank(value.GetOr("")) ==> r.error == "O " + field + " deve ter no máximo 255 caracteres."
  {
    BoundedText(value, "Informe o " + field + ".", "O " + field + " deve ter no máximo 255 caracteres.")
  }

  // ---------------------------------------------------------------- provider kinds

  /** The provider families `_detect_provider_kind` tells apart. */
  datatype ProviderKind = OpenAI | Gemini | Vertex | Anthropic | Groq | Mistral | Cohere | Unknown {
    function Value(): string {
      match this
      case OpenAI => "openai"
      case Gemini => "gemini"
      case Vertex => "vertex"
      case Anthropic => "anthropic"
      case Groq => "groq"
      case Mistral => "mistral"
      case Cohere => "cohere"
      case Unknown => "unknown"
    }
  }

  /** The words that select each family, in the order they are tried. */
  const KindTable: seq<(seq<string>, ProviderKind)> := [
    (["openai"], OpenAI),
    (["google", "gemini"], Gemini),
    (["vertex"], Vertex),
    (["anthropic"], Anthropic),
    (["groq"], Groq),
    (["mistral"], Mistral),
    (["cohere"], Cohere)]

  /**
   * `_detect_provider_kind`: the name stripped and lower-cased, then the
   * first family one of whose words it contains; `unknown` otherwise.
   */
  function DetectProviderKind(name: Option<string>): (r: ProviderKind)
    ensures r != Unknown ==> Contains(Lower(Strip(name.GetOr(""))), r.Value())
                             || (r == Gemini && Contains(Lower(Strip(name.GetOr(""))), "google"))
  {
    KindOf(Lower(Strip(name.GetOr(""))))
  }

  /** The if-chain of `_detect_provider_kind` on the folded name. */
  function KindOf(n: string): (r: ProviderKind)
    ensures r != Unknown ==> Contains(n, r.Value()) || (r == Gemini && Contains(n, "google"))
  {
    if Contains(n, "openai") then OpenAI
    else if Contains(n, "google") || Contains(n, "gemini") then Gemini
    else if Contains(n, "vertex") then Vertex
    else if Contains(n, "anthropic") then Anthropic
    else if Contains(n, "groq") then Groq
    else if Contains(n, "mistral") then Mistral
    else if Contains(n, "cohere") then Cohere
    else Unknown
  }

  /** The if-chain is the table read in order: the kind is that of the first row with a word in the name. */
  lemma DetectMatchesTable(name: Option<string>)
    ensures DetectProviderKind(name) == FirstKeyword(Lower(Strip(name.GetOr(""))), KindTable).GetOr(Unknown)
  {
    var n := Lower(Strip(name.GetOr("")));
    RowWords(n);
    KeywordSteps(n, KindTable);
  }

  /** The table search, unrolled row by row. */
  lemma KeywordSteps(n: string, t: seq<(seq<string>, ProviderKind)>)
    requires t == KindTable
    ensures FirstKeyword(n, t) == (if AnyIn(n, t[0].0) then Some(t[0].1)
                                   else if AnyIn(n, t[1].0) then Some(t[1].1)
                                   else if AnyIn(n, t[2].0) then Some(t[2].1)
                                   else if AnyIn(n, t[3].0) then Some(t[3].1)
                                   else if AnyIn(n, t[4].0) then Some(t[4].1)
                                   else if AnyIn(n, t[5].0) then Some(t[5].1)
                                   else if AnyIn(n, t[6].0) then Some(t[6].1)
                                   else None)
  {
    RowStep(n, t, 0);
    RowStep(n, t, 1);
    RowStep(n, t, 2);
    RowStep(n, t, 3);
    RowStep(n, t, 4);
    RowStep(n, t, 5);
    RowStep(n, t, 6);
    assert FirstKeywordFrom(n, t, 7) == None;
  }

  /** Each row of the table, read as the `in` tests of the if-chain. */
  lemma RowWords(n: string)
    ensures |KindTable| == 7
    ensures AnyIn(n, KindTable[0].0) == Contains(n, "openai") && KindTable[0].1 == OpenAI
    ensures AnyIn(n, KindTable[1].0) == (Contains(n, "google") || Contains(n, "gemini")) && KindTable[1].1 == Gemini
    ensures AnyIn(n, KindTable[2].0) == Contains(n, "vertex") && KindTable[2].1 == Vertex
    ensures AnyIn(n, KindTable[3].0) == Contains(n, "anthropic") && KindTable[3].1 == Anthropic
    ensures AnyIn(n, KindTable[4].0) == Contains(n, "groq") && KindTable[4].1 == Groq
    ensures AnyIn(n, KindTable[5].0) == Contains(n, "mistral") && KindTable[5].1 == Mistral
    ensures AnyIn(n, KindTable[6].0) == Contains(n, "cohere") && KindTable[6].1 == Cohere
  {
    AnyInOne(n, "openai");
    AnyInTwo(n, "google", "gemini");
    AnyInOne(n, "vertex");
    AnyInOne(n, "anthropic");
    AnyInOne(n, "groq");
    AnyInOne(n, "mistral");
    AnyInOne(n, "cohere");
  }

  lemma AnyInOne(n: string, w: string)
    ensures AnyIn(n, [w]) == Contains(n, w)
  {
    assert [w][1..] == [];
  }

  lemma AnyInTwo(n: string, v: string, w: string)
    ensures AnyIn(n, [v, w]) == (Contains(n, v) || Contains(n, w))
  {
    assert [v, w][1..] == [w];
    AnyInOne(n, w);
  }

  /** One row of the table search: the row's kind when one of its words occurs, else the rows after it. */
  lemma RowStep(n: string, t: seq<(seq<string>, ProviderKind)>, k: nat)
    requires k < |t|
    ensures FirstKeywordFrom(n, t, k) == if AnyIn(n, t[k].0) then Some(t[k].1) else FirstKeywordFrom(n, t, k + 1)
  {
  }

  /** Google is tested before Vertex: a name mentioning both (and not OpenAI) is a Gemini provider. */
  lemma GoogleBeforeVertex(name: string)
    requires Contains(Lower(Strip(name)), "google") && Contains(Lower(Strip(name)), "vertex")
    requires !Contains(Lower(Strip(name)), "openai")
    ensures DetectProviderKind(Some(name)) == Gemini
  {
  }

  /** A name is Unknown exactly when it mentions none of the table's words. */
  lemma UnknownMeansNoWord(name: string)
    ensures DetectProviderKind(Some(name)) == Unknown
            <==> forall i :: 0 <= i < |KindTable| ==> !AnyIn(Lower(Strip(name)), KindTable[i].0)
  {
    var n := Lower(Strip(name));
    var r := FirstKeyword(n, KindTable);
    DetectMatchesTable(Some(name));
    assert Some(name).GetOr("") == name;
    assert DetectProviderKind(Some(name)) == r.GetOr(Unknown);
    KindsAreKnown();
    if r.Some? {
      var i :| 0 <= i < |KindTable| && AnyIn(n, KindTable[i].0) && KindTable[i].1 == r.value;
    }
  }

  lemma KindsAreKnown()
    ensures forall i :: 0 <= i < |KindTable| ==> KindTable[i].1 != Unknown
  {
  }

  // ---------------------------------------------------------------- API keys

  /** Where keys are read from: an application setting and an environment variable, each by name. */
  datatype KeySources = KeySources(setting: string -> Option<string>, env: string -> Option<string>)

  /** A set, non-empty text: Python's truthiness of an optional string. */
  predicate Given(v: Option<string>) { v.Some? && v.value != [] }

  /** `a or b or ... or None` over optional texts: the first given one, else `None`. */
  function FirstGiven(vs: seq<Option<string>>): (r: Option<string>)
    ensures r.None? <==> forall i :: 0 <= i < |vs| ==> !Given(vs[i])
    ensures r.Some? ==> exists i :: 0 <= i < |vs| && vs[i] == r && Given(r)
                          && forall j :: 0 <= j < i ==> !Given(vs[j])
  {
    if vs == [] then None
    else if Given(vs[0]) then vs[0]
    else
      var r := FirstGiven(vs[1..]);
      assert forall i :: 1 <= i < |vs| ==> vs[i] == vs[1..][i - 1];
      r
  }

  /** The variable each family's key is known by. */
  function EnvName(kind: ProviderKind): (r: Option<string>)
    ensures r.Some? <==> kind !in {Vertex, Unknown}
  {
    match kind
    case OpenAI => Some("OPENAI_API_KEY")
    case Gemini => Some("GOOGLE_API_KEY")
    case Anthropic => Some("ANTHROPIC_API_KEY")
    case Groq => Some("GROQ_API_KEY")
    case Mistral => Some("MISTRAL_API_KEY")
    case Cohere => Some("COHERE_API_KEY")
    case _ => None
  }

  /** A key and the variable it is known by. */
  datatype ApiKey = ApiKey(key: Option<string>, envName: Option<string>)

  /**
   * `_get_provider_api_key`: OpenAI's key is the setting as it stands;
   * Gemini's is the first of the Google setting, the Gemini setting, then
   * the two environment variables; the other named families take the
   * setting, then the environment variable; Vertex and unknown providers
   * have none.
   */
  function ProviderApiKey(kind: ProviderKind, src: KeySources): (r: ApiKey)
    ensures r.envName == EnvName(kind)
    ensures kind == OpenAI ==> r.key == src.setting("OPENAI_API_KEY")
    ensures kind == Gemini ==> r.key == FirstGiven([src.setting("GOOGLE_API_KEY"), src.setting("GEMINI_API_KEY"),
                                                    src.env("GOOGLE_API_KEY"), src.env("GEMINI_API_KEY")])
    ensures (kind in {Anthropic, Groq, Mistral, Cohere})
              ==> r.key == FirstGiven([src.setting(EnvName(kind).value), src.env(EnvName(kind).value)])
    ensures kind in {Vertex, Unknown} ==> r.key.None?
    ensures kind != OpenAI && r.key.Some? ==> r.key.value != []
  {
    match kind
    case OpenAI => ApiKey(src.setting("OPENAI_API_KEY"), Some("OPENAI_API_KEY"))
    case Gemini =>
      ApiKey(FirstGiven([src.setting("GOOGLE_API_KEY"), src.setting("GEMINI_API_KEY"),
                         src.env("GOOGLE_API_KEY"), src.env("GEMINI_API_KEY")]), Some("GOOGLE_API_KEY"))
    case Vertex => ApiKey(None, None)
    case Unknown => ApiKey(None, None)
    case _ =>
      var name := EnvName(kind).value;
      ApiKey(FirstGiven([src.setting(name), src.env(name)]), Some(name))
  }

  /** How many trailing characters of a key may be shown. */
  const SuffixLength := 4

  /** The shown part of a key: nothing when missing or blank, else at most its last four stripped characters. */
  function MaskKey(key: Option<string>): (r: Option<string>)
    ensures r.None? <==> !Given(key) || IsBlank(key.value)
    ensures r.Some? ==> 1 <= |r.value| <= SuffixLength && EndsWith(Strip(key.value), r.value)
    ensures r.Some? && |Strip(key.value)| <= SuffixLength ==> r.value == Strip(key.value)
  {
    if !Given(key) then None
    else
      var cleaned := Strip(key.value);
      if cleaned == [] then None
      else if |cleaned| > SuffixLength then Some(cleaned[|cleaned| - SuffixLength..])
      else Some(cleaned)
  }

  /** The shown part depends only on the last four stripped characters: nothing before them leaks. */
  lemma MaskShowsOnlyTail(a: string, b: string)
    requires |Strip(a)| > SuffixLength && |Strip(b)| > SuffixLength
    requires Strip(a)[|Strip(a)| - SuffixLength..] == Strip(b)[|Strip(b)| - SuffixLength..]
    ensures MaskKey(Some(a)) == MaskKey(Some(b))
  {
  }

  /** `get_provider_key_suffix`: the shown part of the provider's key, and the variable it is known by. */
  function KeySuffix(providerName: Option<string>, src: KeySources): (r: ApiKey)
    ensures r.envName == EnvName(DetectProviderKind(providerName))
    ensures r.key == MaskKey(ProviderApiKey(DetectProviderKind(providerName), src).key)
  {
    var found := ProviderApiKey(DetectProviderKind(providerName), src);
    ApiKey(MaskKey(found.key), found.envName)
  }

  // ---------------------------------------------------------------- connection test

  const VertexNeedsCloud := "Teste de Vertex AI requer credenciais do Google Cloud."
  const NoAutomaticTest := "Provedor sem teste automatico implementado."

  /** `f"Defina {env_name or 'API_KEY'} no .env para testar este provedor."` */
  function DefineKey(envName: Option<string>): string {
    "Defina " + envName.GetOr("API_KEY") + " no .env para testar este provedor."
  }

  /**
   * The early returns of `test_model_connection`: Vertex and unknown
   * providers are not tested, nor is a provider without a key. `None`
   * means the model is called.
   */
  function ConnectionPrecheck(providerName: Option<string>, src: KeySources): (r: Option<string>)
    ensures DetectProviderKind(providerName) == Vertex ==> r == Some(VertexNeedsCloud)
    ensures DetectProviderKind(providerName) == Unknown ==> r == Some(NoAutomaticTest)
    ensures r.None? <==> DetectProviderKind(providerName) !in {Vertex, Unknown}
                         && Given(ProviderApiKey(DetectProviderKind(providerName), src).key)
  {
    var kind := DetectProviderKind(providerName);
    if kind == Vertex then Some(VertexNeedsCloud)
    else if kind == Unknown then Some(NoAutomaticTest)
    else
      var found := ProviderApiKey(kind, src);
      if !Given(found.key) then Some(DefineKey(found.envName)) else None
  }

  /** A missing key is reported under the family's own variable: the `API_KEY` fallback never shows. */
  lemma MissingKeyNamesVariable(providerName: Option<string>, src: KeySources)
    requires DetectProviderKind(providerName) !in {Vertex, Unknown}
    requires !Given(ProviderApiKey(DetectProviderKind(providerName), src).key)
    ensures ConnectionPrecheck(providerName, src) == Some(DefineKey(EnvName(DetectProviderKind(providerName))))
    ensures ConnectionPrecheck(providerName, src) != Some(DefineKey(None))
  {
    var kind := DetectProviderKind(providerName);
    assert ConnectionPrecheck(providerName, src) == Some(DefineKey(EnvName(kind)));
    NamedNotFallback(kind);
  }

  /** Every family's variable is longer than the `API_KEY` fallback, so the two messages differ. */
  lemma NamedNotFallback(kind: ProviderKind)
    requires kind !in {Vertex, Unknown}
    ensures DefineKey(EnvName(kind)) != DefineKey(None)
  {
    var name := EnvName(kind).value;
    assert |name| > |"API_KEY"|;
    assert |DefineKey(Some(name))| != |DefineKey(None)|;
  }

  /** What the model returns when asked to answer the test prompt. */
  datatype ModelTest =
    | PrepareFailed(detail: string)
    | CohereUnavailable(detail: string)
    | ConnectFailed(detail: string)
    | Replied(text: Option<string>)

  /**
   * `test_model_connection`: the early returns, then the model's outcome:
   * a failure to build or reach the model, a blank answer, or success.
   */
  function TestConnection(providerName: Option<string>, modelName: string, src: KeySources,
                          run: (ProviderKind, string, string) -> ModelTest): (r: (bool, string))
    ensures ConnectionPrecheck(providerName, src).Some? ==> r == (false, ConnectionPrecheck(providerName, src).value)
    ensures r.0 <==> (ConnectionPrecheck(providerName, src).None?
                      && var out := run(DetectProviderKind(providerName), modelName,
                                        ProviderApiKey(DetectProviderKind(providerName), src).key.value);
                         out.Replied? && !IsBlank(out.text.GetOr("")))
  {
    match ConnectionPrecheck(providerName, src)
    case Some(message) => (false, message)
    case None =>
      var kind := DetectProviderKind(providerName);
      match run(kind, modelName, ProviderApiKey(kind, src).key.value)
      case PrepareFailed(detail) => (false, "Falha ao preparar modelo: " + detail)
      case CohereUnavailable(detail) => (false, "Cohere nao disponivel neste ambiente: " + detail)
      case ConnectFailed(detail) => (false, "Falha ao conectar: " + detail)
      case Replied(text) =>
        if IsBlank(text.GetOr("")) then (false, "Conexao estabelecida, mas sem resposta valida.")
        else (true, "Conexao realizada com sucesso.")
  }

  /** When a check fails early, the model is never consulted: any model gives the same outcome. */
  lemma PrecheckSkipsModel(providerName: Option<string>, modelName: string, src: KeySources,
                           run: (ProviderKind, string, string) -> ModelTest,
                           other: (ProviderKind, string, string) -> ModelTest)
    requires ConnectionPrecheck(providerName, src).Some?
    ensures TestConnection(providerName, modelName, src, run) == TestConnection(providerName, modelName, src, other)
  {
  }
}
