/**
 * Retrieval around an agent call (src/core/orchestration.py, with the live
 * copy in src/frontend/views/bot_tests.py): the status an agent's retrieval
 * settings give before any query, the gates in front of the vector query,
 * how the hits are rendered into the prompt, and how the vector store's host
 * setting is read. The vector query itself is a parameter.
 */
module Rag {
  import opened Wrappers
  import opened PyText
  import opened PyValue
  import Repair

  const ChromaProvider := "RAG_CHROMADB"
  const OpenAiProvider := "RAG_OPENAI"

  /** The number of hits asked of the vector store. */
  const TopK := 3

  /** The longest document text the live copy puts into one chunk. */
  const DocumentLimit := 600

  // ---------------------------------------------------------------- debug record

  /** The `rag_*` debug entries of one agent call. */
  datatype RagDebug = RagDebug(
    ragId: Value, identificador: Value, nome: Value, provedor: Value,
    configurado: bool, consultado: bool, status: string, topK: int, resultados: seq<Dict>)

  /**
   * `_empty_rag_debug`: the agent's retrieval settings before any query.
   * Retrieval counts as configured when either the identifier or the id is
   * truthy.
   */
  function EmptyRagDebug(agent: Dict): (r: RagDebug)
    ensures r.configurado <==> Truthy(Lookup(agent, "rag_identificador")) || Truthy(Lookup(agent, "rag_id"))
    ensures r.status == (if r.configurado then "nao consultado" else "nao configurado")
    ensures !r.consultado && r.topK == 0 && r.resultados == []
    ensures r.ragId == Lookup(agent, "rag_id") && r.identificador == Lookup(agent, "rag_identificador")
    ensures r.nome == Lookup(agent, "rag_nome") && r.provedor == Lookup(agent, "rag_provedor")
  {
    var ragId := Lookup(agent, "rag_id");
    var identificador := Lookup(agent, "rag_identificador");
    var configurado := Truthy(PyOr(identificador, ragId));
    RagDebug(ragId, identificador, Lookup(agent, "rag_nome"), Lookup(agent, "rag_provedor"),
             configurado, false, if !configurado then "nao configurado" else "nao consultado", 0, [])
  }

  /** A debug entry under a `rag_`-prefixed key. */
  function RagEntry(suffix: string, v: Value): (e: Entry)
    ensures e.key.VStr? && StartsWith(e.key.s, "rag_")
  {
    assert ("rag_" + suffix)[..4] == "rag_";
    Entry(VStr("rag_" + suffix), v)
  }

  /** Every key is a string starting with `rag_`. */
  predicate RagKeyed(d: Dict) {
    forall i :: 0 <= i < |d| ==> d[i].key.VStr? && StartsWith(d[i].key.s, "rag_")
  }

  /** The debug record as the dict the router shows. */
  function RagDebugDict(r: RagDebug): (d: Dict)
    ensures RagKeyed(d) && |d| == 9
  {
    [ RagEntry("id", r.ragId), RagEntry("identificador", r.identificador), RagEntry("nome", r.nome),
      RagEntry("provedor", r.provedor), RagEntry("configurado", VBool(r.configurado)),
      RagEntry("consultado", VBool(r.consultado)), RagEntry("status", VStr(r.status)),
      RagEntry("top_k", VInt(r.topK)), RagEntry("resultados", VList(seq(|r.resultados|, i requires 0 <= i < |r.resultados| => VDict(r.resultados[i])))) ]
  }

  /**
   * `_merge_rag_debug`: every `rag_`-prefixed entry of the retrieval debug
   * overrides the agent's debug; every other key keeps its old value. The
   * source calls `startswith` on every key, so the keys must be strings.
   */
  function MergeRagDebug(agentDebug: Dict, rag: Dict): (r: Dict)
    requires forall i :: 0 <= i < |rag| ==> rag[i].key.VStr?
    ensures forall k :: Get(r, k) == (if StartsWith(k, "rag_") && Get(rag, k).Some? then Get(rag, k) else Get(agentDebug, k))
    decreases |rag|
  {
    if rag == [] then agentDebug
    else
      var rest := MergeRagDebug(agentDebug, rag[1..]);
      if StartsWith(rag[0].key.s, "rag_") then Put(rest, rag[0].key.s, rag[0].val) else rest
  }

  /** Merging a retrieval debug record shows every one of its entries and leaves the agent's other keys alone. */
  lemma MergeShowsRecord(agentDebug: Dict, r: RagDebug, k: string)
    ensures Get(RagDebugDict(r), k).Some? ==> Get(MergeRagDebug(agentDebug, RagDebugDict(r)), k) == Get(RagDebugDict(r), k)
    ensures !StartsWith(k, "rag_") ==> Get(MergeRagDebug(agentDebug, RagDebugDict(r)), k) == Get(agentDebug, k)
  {
    var d := RagDebugDict(r);
    if Get(d, k).Some? {
      var i :| 0 <= i < |d| && d[i] == Entry(VStr(k), Get(d, k).value);
      assert StartsWith(d[i].key.s, "rag_");
    }
  }

  // ---------------------------------------------------------------- the query gates

  /** What the vector query gives: its hits, or the text of the exception it raised. */
  datatype RagQuery = Hits(results: seq<Dict>) | QueryError(message: string)

  /** The gates in front of the query: retrieval configured, an identifier, and a non-blank prompt. */
  predicate QueryGatesOpen(agent: Dict, prompt: string) {
    var base := EmptyRagDebug(agent);
    base.configurado && Truthy(base.identificador) && !IsBlank(prompt)
  }

  /**
   * `_get_rag_context`: the context text for the prompt and the retrieval
   * debug. Only a Chroma-backed agent with an identifier and a non-blank
   * prompt queries, with `query(identifier, prompt)` standing for
   * `_query_chromadb` with three hits; every other path gives an empty
   * context and says why in the status.
   */
  function GetRagContext(copy: Repair.Copy, dist: Value -> string, agent: Dict, prompt: string,
                         query: (Value, string) -> RagQuery): (r: (string, RagDebug))
    ensures var base := EmptyRagDebug(agent);
            r.1.ragId == base.ragId && r.1.identificador == base.identificador
            && r.1.nome == base.nome && r.1.provedor == base.provedor && r.1.configurado == base.configurado
    ensures !EmptyRagDebug(agent).configurado ==> r == ("", EmptyRagDebug(agent))
    ensures (EmptyRagDebug(agent).configurado && !Truthy(Lookup(agent, "rag_identificador")))
              ==> r.0 == "" && r.1.status == "identificador do RAG nao encontrado"
    ensures (EmptyRagDebug(agent).configurado && Truthy(Lookup(agent, "rag_identificador")) && IsBlank(prompt))
              ==> r.0 == "" && r.1.status == "consulta vazia"
    ensures (QueryGatesOpen(agent, prompt) && Lookup(agent, "rag_provedor") == VStr(OpenAiProvider))
              ==> r.0 == "" && r.1.status == "provedor OpenAI nao suportado no playground"
    ensures (QueryGatesOpen(agent, prompt) && Lookup(agent, "rag_provedor") != VStr(OpenAiProvider)
              && Lookup(agent, "rag_provedor") != VStr(ChromaProvider))
              ==> r.0 == "" && r.1.status == "provedor nao suportado no playground"
    ensures r.1.consultado <==> QueryGatesOpen(agent, prompt) && Lookup(agent, "rag_provedor") == VStr(ChromaProvider)
                                && query(Lookup(agent, "rag_identificador"), prompt).Hits?
    ensures (QueryGatesOpen(agent, prompt) && Lookup(agent, "rag_provedor") == VStr(ChromaProvider)
            && query(Lookup(agent, "rag_identificador"), prompt).QueryError?)
              ==> r.0 == "" && r.1.status == "erro ao consultar RAG: " + query(Lookup(agent, "rag_identificador"), prompt).message
    ensures r.1.consultado ==>
              var hits := query(Lookup(agent, "rag_identificador"), prompt).results;
              r.0 == FormatRagContext(copy, dist, hits) && r.1.topK == TopK && r.1.resultados == hits
              && r.1.status == (if hits == [] then "sem resultados" else "ok")
    ensures !r.1.consultado ==> r.0 == "" && r.1.topK == 0 && r.1.resultados == []
  {
    var base := EmptyRagDebug(agent);
    if !base.configurado then ("", base)
    else if !Truthy(base.identificador) then ("", base.(status := "identificador do RAG nao encontrado"))
    else if IsBlank(prompt) then ("", base.(status := "consulta vazia"))
    else if base.provedor == VStr(ChromaProvider) then
      match query(base.identificador, prompt)
      case QueryError(message) => ("", base.(status := "erro ao consultar RAG: " + message))
      case Hits(hits) =>
        (FormatRagContext(copy, dist, hits),
         base.(consultado := true, topK := TopK, resultados := hits, status := if hits != [] then "ok" else "sem resultados"))
    else if base.provedor == VStr(OpenAiProvider) then ("", base.(status := "provedor OpenAI nao suportado no playground"))
    else ("", base.(status := "provedor nao suportado no playground"))
  }

  /** A non-empty context only ever comes from a query that returned hits. */
  lemma ContextNeedsHits(copy: Repair.Copy, dist: Value -> string, agent: Dict, prompt: string, query: (Value, string) -> RagQuery)
    ensures GetRagContext(copy, dist, agent, prompt, query).0 != [] ==>
              GetRagContext(copy, dist, agent, prompt, query).1.status == "ok"
  {
    var r := GetRagContext(copy, dist, agent, prompt, query);
    if r.0 != [] {
      var hits := query(Lookup(agent, "rag_identificador"), prompt).results;
      assert r.0 == FormatRagContext(copy, dist, hits);
    }
  }

  // ---------------------------------------------------------------- rendering hits

  /** The metadata keys, in order, that name a hit's source. */
  function SourceKeys(copy: Repair.Copy): seq<string> {
    if copy.Core? then ["source", "filename", "file", "title", "name"]
    else ["source", "arquivo", "file", "url", "path", "titulo", "title"]
  }

  /** The value of the first key among `keys` that is truthy in `meta`. */
  function FirstTruthy(meta: Dict, keys: seq<string>): (r: Option<Value>)
    ensures r.None? <==> forall i :: 0 <= i < |keys| ==> !Truthy(Lookup(meta, keys[i]))
    ensures r.Some? ==> Truthy(r.value)
    ensures r.Some? ==> exists i :: 0 <= i < |keys| && Lookup(meta, keys[i]) == r.value
                                     && forall j :: 0 <= j < i ==> !Truthy(Lookup(meta, keys[j]))
  {
    if keys == [] then None
    else if Truthy(Lookup(meta, keys[0])) then Some(Lookup(meta, keys[0]))
    else
      var r := FirstTruthy(meta, keys[1..]);
      assert forall i :: 1 <= i < |keys| ==> keys[i] == keys[1..][i - 1];
      r
  }

  /** `_pick_rag_source`: the text of the first truthy source key of the copy, else the empty text. */
  function PickRagSource(copy: Repair.Copy, meta: Dict): (r: string)
    ensures (forall i :: 0 <= i < |SourceKeys(copy)| ==> !Truthy(Lookup(meta, SourceKeys(copy)[i]))) ==> r == []
    ensures forall i :: 0 <= i < |SourceKeys(copy)| && Truthy(Lookup(meta, SourceKeys(copy)[i]))
                        && (forall j :: 0 <= j < i ==> !Truthy(Lookup(meta, SourceKeys(copy)[j])))
                        ==> r == Str(Lookup(meta, SourceKeys(copy)[i]))
  {
    var keys := SourceKeys(copy);
    match FirstTruthy(meta, keys)
    case Some(v) => Str(v)
    case None => []
  }

  /** Over a one-entry dict with a truthy value, the first truthy key is that entry's key, if it is asked for. */
  lemma {:induction false} FirstTruthyOfOne(k: string, v: Value, keys: seq<string>)
    requires Truthy(v)
    ensures FirstTruthy([Entry(VStr(k), v)], keys) == if k in keys then Some(v) else None
    decreases |keys|
  {
    var meta := [Entry(VStr(k), v)];
    if keys != [] {
      FirstTruthyOfOne(k, v, keys[1..]);
      assert Get(meta[1..], keys[0]) == None;
      assert keys == [keys[0]] + keys[1..];
    }
  }

  /** The two copies read different keys: a hit named only by `arquivo` has a source in the live copy alone. */
  lemma SourceKeysDiffer(name: string)
    requires name != []
    ensures PickRagSource(Repair.Core, [Entry(VStr("arquivo"), VStr(name))]) == []
    ensures PickRagSource(Repair.Live, [Entry(VStr("arquivo"), VStr(name))]) == name
  {
    FirstTruthyOfOne("arquivo", VStr(name), SourceKeys(Repair.Core));
    FirstTruthyOfOne("arquivo", VStr(name), SourceKeys(Repair.Live));
    assert SourceKeys(Repair.Live)[1] == "arquivo";
  }

  /**
   * `_truncate_text`: the stripped text when it fits the limit, otherwise its
   * first `max(0, limit - 3)` characters and an ellipsis.
   */
  function Truncate(text: string, limit: int): (r: string)
    ensures |Strip(text)| <= limit ==> r == Strip(text)
    ensures |Strip(text)| > limit ==> EndsWith(r, "...") && |r| == (if limit > 3 then limit else 3)
                                       && StartsWith(Strip(text), r[..|r| - 3])
    ensures limit >= 3 ==> |r| <= limit
  {
    var cleaned := Strip(text);
    if |cleaned| <= limit then cleaned
    else
      var keep := if limit - 3 > 0 then limit - 3 else 0;
      cleaned[..keep] + "..."
  }

  /** A truncated text is already stripped and within the limit, so truncating again changes nothing. */
  lemma TruncateIdempotent(text: string, limit: int)
    ensures Truncate(Truncate(text, limit), limit) == Truncate(text, limit)
  {
    var cleaned := Strip(text);
    if |cleaned| <= limit {
      StripIdempotent(text);
    } else {
      var keep := if limit - 3 > 0 then limit - 3 else 0;
      var r := cleaned[..keep] + "...";
      assert Truncate(text, limit) == r;
      assert cleaned == [] || !IsSpace(cleaned[0]);
      EllipsisTrimmed(cleaned, keep);
      if keep == 0 {
        assert r == "...";
        assert Truncate(r, limit) == Strip(r)[..0] + "...";
      }
    }
  }

  /** A prefix of a stripped text followed by an ellipsis is its own strip. */
  lemma EllipsisTrimmed(cleaned: string, keep: nat)
    requires keep <= |cleaned| && (cleaned == [] || !IsSpace(cleaned[0]))
    ensures Strip(cleaned[..keep] + "...") == cleaned[..keep] + "..."
  {
    var r := cleaned[..keep] + "...";
    assert r[|r| - 1] == '.';
    if keep > 0 {
      assert r[0] == cleaned[0];
    } else {
      assert r[0] == '.';
    }
    StripOfTrimmed(r);
  }

  /** A stripped non-empty text starts and ends with a non-space. */
  lemma StripEnds(s: string)
    ensures Strip(s) != [] ==> !IsSpace(Strip(s)[0]) && !IsSpace(Strip(s)[|Strip(s)| - 1])
  {
    StripIdempotent(s);
  }

  /** The `[i]` that opens the `i`-th chunk. */
  function Ordinal(i: nat): string {
    "[" + IntToString(i) + "]"
  }

  /** The live copy's document text for a hit: the text of `documento`, truncated. */
  function LiveDocument(item: Dict): (r: string)
    ensures |r| <= DocumentLimit
  {
    Truncate(Str(PyOr(Lookup(item, "documento"), VStr(""))), DocumentLimit)
  }

  /** `d.get(k, dflt)` */
  function GetOr(d: Dict, k: string, dflt: Value): Value {
    match Get(d, k)
    case Some(v) => v
    case None => dflt
  }

  /** A chunk: the ordinal, whatever else the header holds, a line break and the body. */
  function Framed(ordinal: string, extra: string, body: string): (r: string)
    ensures StartsWith(r, ordinal) && EndsWith(r, "\n" + body)
  {
    var r := ordinal + extra + "\n" + body;
    assert r[..|ordinal|] == ordinal;
    assert r[|r| - |"\n" + body|..] == "\n" + body;
    r
  }

  /**
   * The chunk for the `i`-th hit. The core copy heads it with the hit's
   * source in parentheses and the formatted distance; the live copy with
   * `Fonte:` and the source picked from the hit's metadata.
   */
  function Chunk(copy: Repair.Copy, dist: Value -> string, i: nat, item: Dict): (r: string)
    ensures StartsWith(r, Ordinal(i))
    ensures copy.Live? ==> EndsWith(r, "\n" + LiveDocument(item))
    ensures copy.Core? ==> EndsWith(r, "\n" + Str(GetOr(item, "content", VStr(""))))
  {
    if copy.Core? then
      var source := GetOr(item, "source", VStr(""));
      var distance := Lookup(item, "distance");
      Framed(Ordinal(i), (if Truthy(source) then " (" + Str(source) + ")" else "")
                         + (if distance.VNone? then "" else " [dist: " + dist(distance) + "]"),
             Str(GetOr(item, "content", VStr(""))))
    else
      var metadata := PyOr(Lookup(item, "metadados"), VDict([]));
      var source := PickRagSource(copy, if metadata.VDict? then metadata.entries else []);
      Framed(Ordinal(i), if source != [] then " Fonte: " + source else "", LiveDocument(item))
  }

  /** `[f(1, xs[0]), f(2, xs[1]), ...]`: Python's `enumerate(xs, 1)` mapped through `f`. */
  function Numbered<T>(f: (nat, T) -> string, xs: seq<T>): (r: seq<string>)
    ensures |r| == |xs|
    ensures forall i :: 0 <= i < |xs| ==> r[i] == f(i + 1, xs[i])
    decreases |xs|
  {
    if xs == [] then []
    else Numbered(f, xs[..|xs| - 1]) + [f(|xs|, xs[|xs| - 1])]
  }

  /** The chunks for the hits, numbered from 1. */
  function Chunks(copy: Repair.Copy, dist: Value -> string, hits: seq<Dict>): (r: seq<string>)
    ensures |r| == |hits|
    ensures forall i :: 0 <= i < |hits| ==> r[i] == Chunk(copy, dist, i + 1, hits[i])
  {
    Numbered((i, item) => Chunk(copy, dist, i, item), hits)
  }

  /** `_format_rag_context`: the chunks joined by a blank line; no hits give the empty text. */
  function FormatRagContext(copy: Repair.Copy, dist: Value -> string, hits: seq<Dict>): (r: string)
    ensures r == [] <==> hits == []
    ensures hits != [] ==> StartsWith(r, Chunk(copy, dist, 1, hits[0]))
  {
    if hits == [] then []
    else
      var chunks := Chunks(copy, dist, hits);
      assert StartsWith(chunks[0], Ordinal(1));
      Join("\n\n", chunks)
  }

  /** One more hit adds a blank line and its own chunk, and leaves the earlier chunks as they were. */
  lemma FormatRagContextSnoc(copy: Repair.Copy, dist: Value -> string, hits: seq<Dict>, item: Dict)
    requires hits != []
    ensures FormatRagContext(copy, dist, hits + [item])
            == FormatRagContext(copy, dist, hits) + "\n\n" + Chunk(copy, dist, |hits| + 1, item)
  {
    var all := hits + [item];
    assert all[..|all| - 1] == hits;
    assert Chunks(copy, dist, all) == Chunks(copy, dist, hits) + [Chunk(copy, dist, |hits| + 1, item)];
    JoinSnoc("\n\n", Chunks(copy, dist, hits), Chunk(copy, dist, |hits| + 1, item));
  }

  // ---------------------------------------------------------------- the host setting

  /** The scheme and network location `urlsplit` finds, which is all the host reading looks at. */
  datatype UrlHead = UrlHead(scheme: string, netloc: string)

  /** A character `urlsplit` accepts in a scheme. */
  predicate SchemeChar(c: char) {
    IsAsciiAlnum(c) || c == '+' || c == '-' || c == '.'
  }

  /** `s` without the tabs and line breaks `urlsplit` removes. */
  function DropUnsafe(s: string): (r: string)
    ensures |r| <= |s|
    ensures forall k :: 0 <= k < |r| ==> r[k] != '\t' && r[k] != '\r' && r[k] != '\n'
  {
    if s == [] then []
    else (if s[0] == '\t' || s[0] == '\r' || s[0] == '\n' then [] else [s[0]]) + DropUnsafe(s[1..])
  }

  lemma {:induction false} DropUnsafeConcat(a: string, b: string)
    ensures DropUnsafe(a + b) == DropUnsafe(a) + DropUnsafe(b)
    decreases |a|
  {
    if a != [] {
      var head := if a[0] == '\t' || a[0] == '\r' || a[0] == '\n' then [] else [a[0]];
      assert (a + b)[0] == a[0];
      assert (a + b)[1..] == a[1..] + b;
      DropUnsafeConcat(a[1..], b);
      assert DropUnsafe(a + b) == head + DropUnsafe(a[1..] + b);
      assert DropUnsafe(a) == head + DropUnsafe(a[1..]);
    } else {
      assert a + b == b;
    }
  }

  /** The index up to which the network location runs: the first `/`, `?` or `#` from `start`, else the end. */
  function NetlocEnd(s: string, start: nat): (r: nat)
    requires start <= |s|
    ensures start <= r <= |s|
    ensures forall k :: start <= k < r ==> s[k] != '/' && s[k] != '?' && s[k] != '#'
    ensures r < |s| ==> s[r] == '/' || s[r] == '?' || s[r] == '#'
    decreases |s| - start
  {
    if start == |s| || s[start] == '/' || s[start] == '?' || s[start] == '#' then start
    else NetlocEnd(s, start + 1)
  }

  /** Is `s[..i]` a scheme: a letter first and scheme characters throughout? */
  predicate SchemeBefore(s: string, i: int) {
    0 < i <= |s| && IsAsciiLetter(s[0]) && forall k :: 0 <= k < i ==> SchemeChar(s[k])
  }

  /**
   * The scheme and network location `urllib.parse.urlsplit` gives for an
   * already stripped text (Python 3.9 and later): the scheme is the text
   * before the first `:` when that is a letter followed by scheme
   * characters, and the network location is what follows a `//` up to the
   * next `/`, `?` or `#`.
   */
  function UrlSplit(s: string): (r: UrlHead)
    ensures var u := DropUnsafe(s); var i := Find(u, ":");
            r.scheme == (if SchemeBefore(u, i) then Lower(u[..i]) else [])
  {
    var u := DropUnsafe(s);
    var i := Find(u, ":");
    var rest := if SchemeBefore(u, i) then u[i + 1..] else u;
    var scheme := if SchemeBefore(u, i) then Lower(u[..i]) else [];
    if StartsWith(rest, "//") then UrlHead(scheme, rest[2..NetlocEnd(rest, 2)])
    else UrlHead(scheme, [])
  }

  /** What `.port` gives: no port, a port, or the `ValueError` of an unreadable one. */
  datatype PortRead = NoPort | Port(p: int) | BadPort

  /** `.hostname` and `.port` of a parsed URL, as functions of its network location. */
  datatype UrlReader = UrlReader(hostname: string -> Option<string>, port: string -> PortRead)

  /** Host, port and TLS flag for the vector store client. */
  datatype ChromaHost = ChromaHost(host: string, port: int, ssl: bool)

  /** Why the host setting could not be read: an unreadable port, or (live copy) an empty host. */
  datatype HostError = PortNotReadable | HostInvalid

  const DefaultChromaPort := 8000

  /** `parsed.port or 8000` */
  function PortOr8000(p: PortRead): Result<int, HostError> {
    match p
    case NoPort => Success(DefaultChromaPort)
    case Port(n) => Success(if n == 0 then DefaultChromaPort else n)
    case BadPort => Failure(PortNotReadable)
  }

  /**
   * The core copy of `_parse_chroma_host`: a text without `://` is read as
   * `http://` plus the text; the host defaults to `localhost` and the port to
   * 8000, and TLS is on only for an `https` scheme.
   */
  function CoreParseChromaHost(url: UrlReader, setting: string): (r: Result<ChromaHost, HostError>)
    ensures r.Success? ==> r.value.host != [] && r.value.port != 0
    ensures r.Success? ==> (r.value.ssl <==> UrlSplit(if Contains(setting, "://") then setting else "http://" + setting).scheme == "https")
  {
    var target := if Contains(setting, "://") then setting else "http://" + setting;
    var head := UrlSplit(target);
    var host := match url.hostname(head.netloc) case Some(h) => (if h != [] then h else "localhost") case None => "localhost";
    match PortOr8000(url.port(head.netloc))
    case Failure(e) => Failure(e)
    case Success(port) => Success(ChromaHost(host, port, head.scheme == "https"))
  }

  /** `s.find(c)` is `i` when `c` sits at `i` and nowhere before. */
  lemma FindCharAt(s: string, c: char, i: nat)
    requires i < |s| && s[i] == c && forall k :: 0 <= k < i ==> s[k] != c
    ensures Find(s, [c]) == i
  {
    assert OccursAt(s, [c], i) by { assert s[i..i + 1] == [c]; }
    forall k | 0 <= k < i ensures !OccursAt(s, [c], k) {
      assert s[k..k + 1][0] == s[k];
    }
  }

  /** A character is missing from a text exactly when `find` gives -1; otherwise `find` points at it. */
  lemma FindChar(s: string, c: char)
    ensures Find(s, [c]) < 0 <==> Free(s, c)
    ensures Find(s, [c]) >= 0 ==> Find(s, [c]) < |s| && s[Find(s, [c])] == c
  {
    var i := Find(s, [c]);
    if i < 0 {
      forall k | 0 <= k < |s| ensures s[k] != c {
        assert !OccursAt(s, [c], k);
      }
    } else {
      assert s[i..i + 1][0] == s[i];
      assert !Free(s, c);
    }
  }

  /** A text without tabs or line breaks loses nothing to `DropUnsafe`. */
  lemma {:induction false} DropUnsafeKeeps(s: string)
    requires forall k :: 0 <= k < |s| ==> s[k] != '\t' && s[k] != '\r' && s[k] != '\n'
    ensures DropUnsafe(s) == s
    decreases |s|
  {
    if s != [] {
      DropUnsafeKeeps(s[1..]);
      assert [s[0]] + s[1..] == s;
    }
  }

  /** The scheme of `http://` followed by anything is `http`. */
  lemma HttpScheme(rest: string)
    ensures UrlSplit("http://" + rest).scheme == "http"
  {
    var u := DropUnsafe("http://" + rest);
    HttpKept(rest);
    HttpPrefix(u);
    LowerFixed("http");
  }

  /** Dropping tabs and line breaks keeps an `http://` opening. */
  lemma HttpKept(rest: string)
    ensures |DropUnsafe("http://" + rest)| >= 5 && DropUnsafe("http://" + rest)[..5] == "http:"
  {
    DropUnsafeConcat("http://", rest);
    DropUnsafeKeeps("http://");
    var u := DropUnsafe("http://" + rest);
    assert u == "http://" + DropUnsafe(rest);
  }

  /** A text opening with `http:` has its first colon at 4, after a valid scheme. */
  lemma HttpPrefix(u: string)
    requires |u| >= 5 && u[..5] == "http:"
    ensures Find(u, ":") == 4 && SchemeBefore(u, 4) && u[..4] == "http"
  {
    assert u[0] == 'h' && u[1] == 't' && u[2] == 't' && u[3] == 'p' && u[4] == ':';
    FindCharAt(u, ':', 4);
  }

  /** In the core copy a setting without a scheme separator is plain HTTP. */
  lemma CoreBareHostIsPlain(url: UrlReader, setting: string)
    requires !Contains(setting, "://")
    ensures CoreParseChromaHost(url, setting).Success? ==> !CoreParseChromaHost(url, setting).value.ssl
  {
    HttpScheme(setting);
  }

  /**
   * The live copy of `_parse_chroma_host`, as written: a setting `urlsplit`
   * gives a scheme is read through the URL; otherwise `host:port` is split at
   * the first colon, both halves stripped and the port read with `int`
   * (8000 when blank). An empty host is rejected.
   */
  function LiveParseChromaHost(url: UrlReader, setting: string): (r: Result<ChromaHost, HostError>)
    ensures r.Success? ==> r.value.host != [] && (r.value.ssl <==> UrlSplit(setting).scheme == "https")
    ensures (UrlSplit(setting).scheme == [] && Free(setting, ':') && !IsBlank(setting))
              ==> r == Success(ChromaHost(Strip(setting), DefaultChromaPort, false))
  {
    var head := UrlSplit(setting);
    var ssl := head.scheme == "https";
    var hostPort: Result<(string, int), HostError> :=
      if head.scheme != [] then
        var host := match url.hostname(head.netloc) case Some(h) => h case None => [];
        match PortOr8000(url.port(head.netloc))
        case Failure(e) => Failure(e)
        case Success(port) => Success((host, port))
      else SplitHostPort(setting);
    match hostPort
    case Failure(e) => Failure(e)
    case Success((host, port)) => if host == [] then Failure(HostInvalid) else Success(ChromaHost(host, port, ssl))
  }

  /** `host:port` without a scheme: split at the first colon, both halves stripped, a blank port read as 8000. */
  function SplitHostPort(setting: string): (r: Result<(string, int), HostError>)
    ensures Free(setting, ':') ==> r == Success((Strip(setting), DefaultChromaPort))
    ensures !Free(setting, ':') ==> 0 <= Find(setting, ":") < |setting|
    ensures (!Free(setting, ':') && r.Success?) ==> r.value.0 == Strip(setting[..Find(setting, ":")])
    ensures (!Free(setting, ':') && IsBlank(setting[Find(setting, ":") + 1..])) ==> r.Success? && r.value.1 == DefaultChromaPort
    ensures (!Free(setting, ':') && !IsBlank(setting[Find(setting, ":") + 1..]))
              ==> (r.Success? <==> ParseInt(Strip(setting[Find(setting, ":") + 1..])).Some?)
  {
    var i := Find(setting, ":");
    FindChar(setting, ':');
    if i < 0 then Success((Strip(setting), DefaultChromaPort))
    else
      var r := SplitAt(setting, i);
      assert IsBlank(setting[i + 1..]) ==> r.Success? && r.value.1 == DefaultChromaPort;
      r
  }

  /** The split at colon `i`: the stripped host before it, the port after it, 8000 when blank. */
  function SplitAt(setting: string, i: nat): (r: Result<(string, int), HostError>)
    requires i < |setting|
    ensures r.Success? ==> r.value.0 == Strip(setting[..i])
    ensures IsBlank(setting[i + 1..]) ==> r.Success? && r.value.1 == DefaultChromaPort
    ensures !IsBlank(setting[i + 1..]) ==> (r.Success? <==> ParseInt(Strip(setting[i + 1..])).Some?)
  {
    var host := Strip(setting[..i]);
    var portText := Strip(setting[i + 1..]);
    if portText == [] then Success((host, DefaultChromaPort))
    else match ParseInt(portText)
      case Some(p) => Success((host, p))
      case None => Failure(PortNotReadable)
  }

  /** A text whose scheme is not followed by `//` has no network location. */
  lemma SchemeWithoutNetloc(s: string, i: nat)
    requires DropUnsafe(s) == s && Find(s, ":") == i && SchemeBefore(s, i) && i + 1 < |s| && s[i + 1] != '/'
    ensures UrlSplit(s).netloc == [] && UrlSplit(s).scheme == Lower(s[..i])
  {
    var rest := s[i + 1..];
    assert rest[0] == s[i + 1];
    assert !StartsWith(rest, "//") by {
      if |rest| >= 2 { assert rest[..2][0] == rest[0]; }
    }
    assert UrlSplit(s) == UrlHead(Lower(s[..i]), []);
  }

  /** Text of ASCII letters. */
  predicate Letters(h: string) {
    forall k :: 0 <= k < |h| ==> IsAsciiLetter(h[k])
  }

  /**
   * The live copy's scheme test misfires on a named host with a port: for
   * `chroma:8000`, `urlsplit` takes `chroma` for the scheme and finds no
   * network location, so the host comes out empty and the setting is
   * rejected, although the `host:port` branch was written for it.
   */
  lemma LiveNamedHostRejected(url: UrlReader, host: string, port: nat)
    requires host != [] && Letters(host)
    requires url.hostname([]) == None && url.port([]) == NoPort
    ensures LiveParseChromaHost(url, host + ":" + IntToString(port)) == Failure(HostInvalid)
  {
    NamedHostHead(host, IntToString(port));
  }

  /** `urlsplit("name:digits")` takes the name for the scheme and finds no network location. */
  lemma NamedHostHead(host: string, digits: string)
    requires host != [] && Letters(host) && digits != [] && AllDigits(digits)
    ensures UrlSplit(host + ":" + digits).scheme != [] && UrlSplit(host + ":" + digits).netloc == []
  {
    var s := host + ":" + digits;
    assert forall k :: 0 <= k < |host| ==> s[k] == host[k];
    assert forall k :: |host| < k < |s| ==> s[k] == digits[k - |host| - 1];
    assert DropUnsafe(s) == s by { DropUnsafeKeeps(s); }
    assert Find(s, ":") == |host| by { FindCharAt(s, ':', |host|); }
    assert SchemeBefore(s, |host|);
    SchemeWithoutNetloc(s, |host|);
    assert |Lower(s[..|host|])| >= 1;
  }

  /**
   * The live copy as intended: a scheme counts only when the setting spells
   * out `://`, so a bare `host:port` always takes the split branch.
   */
  function LiveParseChromaHostFixed(url: UrlReader, setting: string): (r: Result<ChromaHost, HostError>)
    ensures r.Success? ==> r.value.host != []
    ensures !Contains(setting, "://") ==> r.Success? ==> !r.value.ssl
  {
    if Contains(setting, "://") then LiveParseChromaHost(url, setting)
    else
      match SplitHostPort(setting)
      case Failure(e) => Failure(e)
      case Success((host, port)) => if host == [] then Failure(HostInvalid) else Success(ChromaHost(host, port, false))
  }

  /** `host:port` with a digit after the colon spells no `://`. */
  lemma NoSchemeSeparator(host: string, digits: string)
    requires Free(host, ':') && digits != [] && IsDigit(digits[0]) && AllDigits(digits)
    ensures !Contains(host + ":" + digits, "://")
  {
    var s := host + ":" + digits;
    assert forall k :: 0 <= k < |host| ==> s[k] == host[k];
    assert forall k :: |host| < k < |s| ==> s[k] == digits[k - |host| - 1];
    assert s[|host| + 1] == digits[0];
    forall i ensures !OccursAt(s, "://", i) {
      if 0 <= i && i + 3 <= |s| {
        assert s[i..i + 3][0] == s[i];
        assert s[i..i + 3][1] == s[i + 1];
      }
    }
  }

  /** Splitting `host:digits` gives the host and the number the digits spell. */
  lemma SplitsAtColon(host: string, port: nat)
    requires Free(host, ':') && Strip(host) == host && host != []
    ensures SplitHostPort(host + ":" + IntToString(port)) == Success((host, port))
  {
    var digits := IntToString(port);
    var s := host + ":" + digits;
    FindCharAt(s, ':', |host|);
    var i := Find(s, ":");
    assert s[..i] == host && s[i + 1..] == digits;
    PortDigits(port);
    assert ParseInt(Strip(s[i + 1..])) == Some(port);
    assert Strip(s[..i]) == host;
  }

  /** The digits of a port are their own strip and read back as the port. */
  lemma PortDigits(port: nat)
    ensures Strip(IntToString(port)) == IntToString(port) != []
    ensures ParseInt(Strip(IntToString(port))) == Some(port)
  {
    var digits := IntToString(port);
    NatToStringIsDigitRun(port);
    assert IsDigit(digits[0]) && IsDigit(digits[|digits| - 1]);
    StripOfTrimmed(digits);
    ParseIntToString(port);
  }

  /** With the fix, a bare `host:port` reads as that host and port over plain HTTP. */
  lemma LiveFixedSplitsHostPort(url: UrlReader, host: string, port: nat)
    requires host != [] && Free(host, ':') && Strip(host) == host
    ensures LiveParseChromaHostFixed(url, host + ":" + IntToString(port)) == Success(ChromaHost(host, port, false))
  {
    NoSchemeSeparator(host, IntToString(port));
    SplitsAtColon(host, port);
  }
}
