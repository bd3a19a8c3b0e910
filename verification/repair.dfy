/**
 * Recovering a usable reply from what a model returned: `extract_json`, which
 * digs a JSON object out of prose or a code fence, and `clean_reply_text`,
 * which peels contract wrappers, brackets and quotes off a reply. Both copies
 * of the clean-up are modelled: `Core` is src/core/orchestration.py and `Live`
 * is src/frontend/views/bot_tests.py, which differ only in the quote marker
 * and in whether a captured group may be empty.
 */
module Repair {
  import opened Wrappers
  import opened PyText
  import opened PyValue
  import opened ReplyPatterns

  /** Which copy of the helpers: src/core/orchestration.py or src/frontend/views/bot_tests.py. */
  datatype Copy = Core | Live {

    /** The quote marker the clean-up strips at both ends. */
    function Marker(): (m: Marker)
      ensures Core? <==> m.QuoteThenThree?
    {
      if Core? then QuoteThenThree else ThreeQuotes
    }

    /** The least length of a captured group: `.+?` in the core copy, `.*?` in the live one. */
    function MinGroup(): (n: nat)
      ensures Core? ==> n == 1
      ensures Live? ==> n == 0
    {
      if Core? then 1 else 0
    }
  }

  /**
   * The decoders the clean-up consults, as oracles: `json.loads` and
   * `ast.literal_eval` (`None` when they raise), and `str.isalnum` for
   * non-ASCII characters.
   */
  datatype Decoders = Decoders(
    jsonLoads: string -> Option<Value>,
    literalEval: string -> Option<Value>,
    nonAsciiAlnum: char -> bool)

  /** `c.isalnum()` */
  predicate IsAlnum(dec: Decoders, c: char) {
    if c < '\U{80}' then IsAsciiAlnum(c) else dec.nonAsciiAlnum(c)
  }

  /** `t` occurs in `s` as a contiguous slice. */
  ghost predicate Infix(t: string, s: string) {
    exists i :: OccursAt(s, t, i)
  }

  lemma InfixTrans(a: string, b: string, c: string)
    requires Infix(a, b) && Infix(b, c)
    ensures Infix(a, c)
  {
    var i :| OccursAt(b, a, i);
    var j :| OccursAt(c, b, j);
    forall k | 0 <= k < |a| ensures c[j + i + k] == a[k] {
      assert c[j + i + k] == b[i + k];
    }
    assert c[j + i..j + i + |a|] == a;
    assert OccursAt(c, a, j + i);
  }

  lemma StripInfix(s: string)
    ensures Infix(Strip(s), s)
  {
    var o := StripOffset(s);
    assert OccursAt(s, Strip(s), o);
  }

  /** Python's `s[n:]`, empty when `n` is past the end. */
  function Drop(s: string, n: nat): (r: string)
    ensures n <= |s| ==> r == s[n..]
    ensures n > |s| ==> r == []
  {
    if n <= |s| then s[n..] else []
  }

  // ---------------------------------------------------------------- extract_json

  /** The code-fence step: backticks stripped, then a leading `json` tag (any case) dropped. */
  function Unfence(p: string): (r: string)
  {
    if StartsWith(p, "```") then
      var q := Strip(StripChar(p, '`'));
      if StartsWith(Lower(q), "json") then Strip(Drop(q, 4)) else q
    else p
  }

  lemma StripCharInfix(p: string, c: char)
    ensures Infix(StripChar(p, c), p)
  {
    var l := LStripChar(p, c);
    var b := StripChar(p, c);
    assert OccursAt(p, l, |p| - |l|);
    assert OccursAt(l, b, 0);
    InfixTrans(b, l, p);
  }

  lemma DropInfix(q: string, n: nat)
    ensures Infix(Drop(q, n), q)
  {
    if n <= |q| {
      assert OccursAt(q, Drop(q, n), n);
    } else {
      assert OccursAt(q, Drop(q, n), 0);
    }
  }

  /** The code-fence step only ever removes characters from the ends. */
  lemma UnfenceInfix(p: string)
    ensures Infix(Unfence(p), p)
  {
    if StartsWith(p, "```") {
      var b := StripChar(p, '`');
      var q := Strip(b);
      StripCharInfix(p, '`');
      StripInfix(b);
      InfixTrans(q, b, p);
      if StartsWith(Lower(q), "json") {
        var t := Drop(q, 4);
        DropInfix(q, 4);
        StripInfix(t);
        InfixTrans(Strip(t), t, q);
        InfixTrans(Strip(t), q, p);
      }
    } else {
      assert OccursAt(p, p, 0);
    }
  }

  /** The brace step: unless the text is already `{...}`, keep the span from the first `{` to the last `}`. */
  function BraceSlice(p: string): (r: string)
    ensures Infix(r, p)
    ensures StartsWith(p, "{") && EndsWith(p, "}") ==> r == p
  {
    assert OccursAt(p, p, 0);
    if !(StartsWith(p, "{") && EndsWith(p, "}")) then
      var start := Find(p, "{");
      var end := RFindChar(p, '}');
      if start >= 0 && end > start then
        assert OccursAt(p, p[start..end + 1], start);
        p[start..end + 1]
      else p
    else p
  }

  /** The text `extract_json` hands to `json.loads`. */
  function JsonCandidate(text: string): string
  {
    BraceSlice(Unfence(Strip(text)))
  }

  /** `json.loads` only ever sees a contiguous slice of the model's text: nothing is added or reordered. */
  lemma JsonCandidateInfix(text: string)
    ensures Infix(JsonCandidate(text), text)
  {
    var s := Strip(text);
    var u := Unfence(s);
    StripInfix(text);
    UnfenceInfix(s);
    InfixTrans(u, s, text);
    InfixTrans(BraceSlice(u), u, text);
  }

  /**
   * `extract_json`: the object decoded from the candidate text, or `None` for
   * empty text, for text `json.loads` rejects, and for a decoded value that is
   * not an object. It never raises.
   */
  function ExtractJson(loads: string -> Option<Value>, text: string): (r: Option<Dict>)
    ensures text == [] ==> r.None?
    ensures r.Some? <==> text != [] && loads(JsonCandidate(text)).Some? && loads(JsonCandidate(text)).value.VDict?
    ensures r.Some? ==> loads(JsonCandidate(text)) == Some(VDict(r.value))
  {
    if text == [] then None
    else
      match loads(JsonCandidate(text))
      case Some(VDict(d)) => Some(d)
      case _ => None
  }

  // ---------------------------------------------------------------- clean_reply_text

  /** `s[1:-1]` */
  function Inner(s: string): (r: string)
    ensures |s| >= 2 ==> r == s[1..|s| - 1]
    ensures |s| < 2 ==> r == []
  {
    if |s| >= 2 then s[1..|s| - 1] else []
  }

  predicate Bracketed(s: string) {
    (StartsWith(s, "(") && EndsWith(s, ")")) || (StartsWith(s, "{") && EndsWith(s, "}"))
    || (StartsWith(s, "[") && EndsWith(s, "]"))
  }

  predicate QuotePaired(s: string) {
    (StartsWith(s, "\"") && EndsWith(s, "\"")) || (StartsWith(s, "'") && EndsWith(s, "'"))
  }

  /** `re.sub(r"^(?:<)?AgentReply(?:>)?[:\s]*", "", s, flags=re.IGNORECASE).strip()` */
  function DropTagPrefix(s: string): (r: string)
    ensures |r| <= |s|
  {
    Strip(s[TagPrefixEnd(s)..])
  }

  /**
   * The peeling steps of `clean_reply_text`, in order: strip, tag prefix,
   * leading and trailing quote marker, tag prefix again, closing tag, a
   * leading colon, one pair of brackets, one pair of quotes.
   */
  function Peel(copy: Copy, text: string): string
  {
    PeelWrappers(PeelMarkers(copy.Marker(), Strip(text)))
  }

  /** The marker steps, on stripped text: tag prefix, leading and trailing quote marker, tag prefix again. */
  function PeelMarkers(m: Marker, s: string): string
  {
    DropTagPrefix(DropTrailingMarker(m, DropLeadingMarker(m, DropTagPrefix(s))))
  }

  /** The wrapper steps: closing tag, a leading colon, one pair of brackets, one pair of quotes. */
  function PeelWrappers(s: string): string
  {
    var c5 := Strip(DropClosingTag(s));
    var c6 := if StartsWith(c5, ":") then Strip(c5[1..]) else c5;
    var c7 := if Bracketed(c6) then Strip(Inner(c6)) else c6;
    if QuotePaired(c7) then Inner(c7) else c7
  }

  /**
   * What the two decoders make of the text: `json.loads`, falling back to
   * `ast.literal_eval` when that raises or yields `None`. `None` here is
   * Python's `data is None`.
   */
  function Decode(dec: Decoders, s: string): (r: Option<Value>)
    ensures r.Some? ==> !r.value.VNone?
    ensures r.Some? ==> r == dec.jsonLoads(s) || r == dec.literalEval(s)
    ensures dec.jsonLoads(s).Some? && !dec.jsonLoads(s).value.VNone? ==> r == dec.jsonLoads(s)
  {
    var j := dec.jsonLoads(s);
    if j.Some? && !j.value.VNone? then j
    else
      var l := dec.literalEval(s);
      if l.Some? && !l.value.VNone? then l else None
  }

  /** The keys whose string value is preferred as the reply, in order. */
  const ReplyKeys: seq<string> := ["response", "mensagem", "message", "content", "text"]

  /** The value of the first key of `keys` present in `d` with a string value. */
  function PreferredText(d: Dict, keys: seq<string>): (r: Option<string>)
    ensures r.Some? ==> exists i :: 0 <= i < |keys| && Get(d, keys[i]) == Some(VStr(r.value))
                          && forall j :: 0 <= j < i ==> !(Get(d, keys[j]).Some? && Get(d, keys[j]).value.VStr?)
    ensures r.None? ==> forall i :: 0 <= i < |keys| ==> !(Get(d, keys[i]).Some? && Get(d, keys[i]).value.VStr?)
  {
    if keys == [] then None
    else
      var v := Get(d, keys[0]);
      if v.Some? && v.value.VStr? then Some(v.value.s)
      else
        PreferredText(d, keys[1..])
  }

  /** The first string value of the dict, in insertion order. */
  function FirstText(d: Dict): (r: Option<string>)
    ensures r.Some? ==> exists i :: 0 <= i < |d| && d[i].val == VStr(r.value) && forall j :: 0 <= j < i ==> !d[j].val.VStr?
    ensures r.None? ==> forall i :: 0 <= i < |d| ==> !d[i].val.VStr?
  {
    if d == [] then None
    else if d[0].val.VStr? then Some(d[0].val.s)
    else
      FirstText(d[1..])
  }

  /** The text a decoded dict yields: a preferred key's string, else the first string value. */
  function DictText(d: Dict): (r: Option<string>)
    ensures r.None? <==> forall i :: 0 <= i < |d| ==> !d[i].val.VStr?
  {
    var p := PreferredText(d, ReplyKeys);
    if p.Some? then p else FirstText(d)
  }

  /** The reply the decoded data gives directly, if any: a dict's text or a decoded string. */
  function Interpret(dec: Decoders, s: string): (r: Option<string>)
    ensures Decode(dec, s).None? ==> r.None?
  {
    match Decode(dec, s)
    case Some(VDict(d)) => DictText(d)
    case Some(VStr(x)) => Some(x)
    case _ => None
  }

  /** The garbage filter: fewer than five characters and none alphanumeric. */
  predicate Garbage(dec: Decoders, s: string) {
    |s| < 5 && forall k :: 0 <= k < |s| ==> !IsAlnum(dec, s[k])
  }

  /** The quoted span after `AgentReply`: from the first quote to the last occurrence of that same quote character. */
  function RemainderText(s: string): (r: Option<string>)
    ensures r.Some? ==> |r.value| + 2 <= |s|
  {
    var f1 := Find(s, "\"");
    var f2 := Find(s, "'");
    var first := if f1 == -1 then f2 else if f2 == -1 then f1 else if f1 < f2 then f1 else f2;
    if first == -1 then None
    else
      var last := RFindChar(s, s[first]);
      if last > first then Some(s[first + 1..last]) else None
  }

  /** The fallback search patterns, in the order they are tried. */
  const Fallbacks: seq<Pattern> := [KeyEquals, QuotedKey, ReplyCall, ReplyObject]

  /** The first fallback pattern from `pats` that matches. */
  function FirstFallback(pats: seq<Pattern>, s: string, min: nat): (r: Option<string>)
    ensures r.Some? ==> HasQuote(s) && |s| >= 6
    ensures !HasQuote(s) ==> r.None?
  {
    if pats == [] then None
    else
      var m := Search(pats[0], s, min);
      if m.Some? then m else FirstFallback(pats[1..], s, min)
  }

  /** Text after the key-prefix substitution: `re.sub(prefix_pattern, "", s).strip()`. */
  function DropKeyPrefix(s: string): (r: string)
    ensures KeyPrefixEnd(s).None? ==> r == Strip(s)
  {
    match KeyPrefixEnd(s)
    case Some(n) => Strip(s[n..])
    case None => Strip(s)
  }

  /** The salvage steps, used when decoding gave no text: key prefix, loose pattern, fallbacks, remainder, garbage filter. */
  function Salvage(dec: Decoders, copy: Copy, s: string): (r: string)
  {
    var c := DropKeyPrefix(s);
    var loose := Search(Loose, c, copy.MinGroup());
    if loose.Some? then loose.value
    else
      var fb := FirstFallback(Fallbacks, c, copy.MinGroup());
      if fb.Some? then fb.value
      else if StartsWith(c, "AgentReply") && RemainderText(c).Some? then RemainderText(c).value
      else if Garbage(dec, c) then []
      else c
  }

  /** `clean_reply_text` (core copy) and `_clean_reply_text` (live copy). */
  function CleanReplyText(dec: Decoders, copy: Copy, text: string): (r: string)
    ensures text == [] ==> r == []
    ensures text != [] && Interpret(dec, Peel(copy, text)).Some? ==> r == Interpret(dec, Peel(copy, text)).value
  {
    if text == [] then []
    else
      var c := Peel(copy, text);
      match Interpret(dec, c)
      case Some(x) => x
      case None => Salvage(dec, copy, c)
  }
}

module RepairProperties {
  import opened Wrappers
  import opened PyText
  import opened PyValue
  import opened ReplyPatterns
  import opened Repair

  // ---------------------------------------------------------------- extract_json

  /** Text that is already `{...}` once stripped is decoded as it stands. */
  lemma BraceDelimitedVerbatim(text: string)
    requires StartsWith(Strip(text), "{") && EndsWith(Strip(text), "}")
    ensures JsonCandidate(text) == Strip(text)
  {
    var s := Strip(text);
    StartsWithHead(s, "{");
    StartsWithHead(s, "```");
    assert Unfence(s) == s;
  }

  /** The backticks of a fence come off, leaving the tag line and the body. */
  lemma FenceTicks(body: string)
    requires body != [] && body[0] != '`' && body[|body| - 1] != '`'
    ensures StripChar("```" + body + "```", '`') == body
  {
    var text := "```" + body + "```";
    assert text == "```" + (body + "```");
    LStripCharRun("```", body + "```", '`');
    RStripCharRun(body, "```", '`');
  }

  /** Text opening with `json` passes the tag test, in any case. */
  lemma JsonTagLower(rest: string)
    ensures StartsWith(Lower("json" + rest), "json")
  {
    LowerConcat("json", rest);
    assert Lower("json") == "json";
    assert (Lower("json") + Lower(rest))[..4] == "json";
  }

  /** A fence body opening with a `json` tag line passes the tag test, and the tag is cut off. */
  lemma JsonTag(t: string)
    ensures StartsWith(Lower("json\n" + t), "json") && Drop("json\n" + t, 4) == "\n" + t
  {
    assert "json\n" + t == "json" + ("\n" + t);
    JsonTagLower("\n" + t);
  }

  /** A `json` fence opens with three backticks. */
  lemma JsonFenceOpens(t: string)
    ensures StartsWith("```json\n" + t + "\n```", "```")
  {
    assert ("```json\n" + t + "\n```")[..3] == "```";
  }

  /** The code-fence step on a fence whose body opens with a `json` tag. */
  lemma UnfenceTagged(p: string, q: string)
    requires StartsWith(p, "```") && Strip(StripChar(p, '`')) == q && StartsWith(Lower(q), "json")
    ensures Unfence(p) == Strip(Drop(q, 4))
  {
  }

  /** The backticks of a `json` fence come off, leaving the tag line and the body. */
  lemma JsonFenceTicks(t: string)
    ensures StripChar("```json\n" + t + "\n```", '`') == "json\n" + t + "\n"
  {
    var body := "json\n" + t + "\n";
    assert body[0] == 'j' && body[|body| - 1] == '\n';
    FenceTicks(body);
    FenceShape(t);
  }

  lemma FenceShape(t: string)
    ensures "```json\n" + t + "\n```" == "```" + ("json\n" + t + "\n") + "```"
  {
    var a := "```json\n" + t + "\n```";
    var b := "```" + ("json\n" + t + "\n") + "```";
    assert |a| == |b|;
    forall k | 0 <= k < |a|
      ensures a[k] == b[k]
    {
      if k < 8 {
      } else if k < 8 + |t| {
        assert a[k] == t[k - 8] == b[k];
      }
    }
  }

  /** The newline closing a fence body is blank and is stripped. */
  lemma JsonFenceBody(t: string)
    requires t != [] && !IsSpace(t[0]) && !IsSpace(t[|t| - 1])
    ensures Strip("json\n" + t + "\n") == "json\n" + t
  {
    var q := "json\n" + t;
    assert q + "\n" == [] + q + "\n";
    assert q[0] == 'j' && q[|q| - 1] == t[|t| - 1];
    StripPadded([], q, "\n");
  }

  /** The newline after the `json` tag is blank and is stripped. */
  lemma JsonTagLine(t: string)
    requires t != [] && !IsSpace(t[0]) && !IsSpace(t[|t| - 1])
    ensures Strip("\n" + t) == t
  {
    assert "\n" + t == "\n" + t + [];
    StripPadded("\n", t, []);
  }

  /** A leading `json` tag line is dropped from the fence body. */
  lemma JsonTagDropped(t: string)
    requires t != [] && !IsSpace(t[0]) && !IsSpace(t[|t| - 1])
    ensures Unfence("```json\n" + t + "\n```") == t
  {
    var p := "```json\n" + t + "\n```";
    var q := "json\n" + t;
    JsonFenceTicks(t);
    JsonFenceBody(t);
    JsonTag(t);
    JsonTagLine(t);
    JsonFenceOpens(t);
    UnfenceTagged(p, q);
  }

  /** A code fence tagged `json` decodes exactly the object inside it. */
  lemma FencedJson(t: string)
    requires StartsWith(t, "{") && EndsWith(t, "}")
    ensures JsonCandidate("```json\n" + t + "\n```") == t
  {
    var text := "```json\n" + t + "\n```";
    assert text[0] == '`' && text[|text| - 1] == '`';
    StripOfTrimmed(text);
    StartsWithHead(t, "{");
    EndsWithLast(t, "}");
    JsonTagDropped(t);
  }

  /** The first `{` of `a + t + b` is the one opening `t` when `a` has none. */
  lemma FirstBrace(a: string, t: string, b: string)
    requires StartsWith(t, "{")
    requires forall k :: 0 <= k < |a| ==> a[k] != '{'
    ensures Find(a + t + b, "{") == |a|
  {
    var s := a + t + b;
    StartsWithHead(t, "{");
    assert s[|a|..|a| + 1] == "{";
    assert OccursAt(s, "{", |a|);
    forall i | 0 <= i < |a| ensures !OccursAt(s, "{", i) {
      assert s[i] == a[i];
      assert s[i..i + 1][0] == s[i];
    }
  }

  /** The last `}` of `a + t + b` is the one closing `t` when `b` has none. */
  lemma LastBrace(a: string, t: string, b: string)
    requires EndsWith(t, "}")
    requires forall k :: 0 <= k < |b| ==> b[k] != '}'
    ensures RFindChar(a + t + b, '}') == |a| + |t| - 1
  {
    var s := a + t + b;
    EndsWithLast(t, "}");
    assert s[|a| + |t| - 1] == '}';
    forall k | |a| + |t| <= k < |s| ensures s[k] != '}' {
      assert s[k] == b[k - |a| - |t|];
    }
  }

  /** The brace step on text that is not already `{...}`: the span between the first `{` and the last `}`. */
  lemma BraceSpan(s: string, i: nat, j: nat)
    requires !(StartsWith(s, "{") && EndsWith(s, "}"))
    requires Find(s, "{") == i && RFindChar(s, '}') == j && i < j
    ensures BraceSlice(s) == s[i..j + 1]
  {
  }

  /** Prose that starts with neither a blank nor a backtick passes the code-fence step unchanged. */
  lemma UnfencedProse(s: string)
    requires s != [] && !IsSpace(s[0]) && s[0] != '`'
    ensures Unfence(s) == s
  {
    StartsWithHead(s, "```");
  }

  /** Text the strip and code-fence steps leave alone goes straight to the brace step. */
  lemma CandidateIsBraceSlice(s: string)
    requires s != [] && !IsSpace(s[0]) && !IsSpace(s[|s| - 1]) && s[0] != '`'
    ensures JsonCandidate(s) == BraceSlice(s)
  {
    StripOfTrimmed(s);
    UnfencedProse(s);
  }

  /**
   * An object embedded in prose is cut out from its first `{` to its last `}`,
   * provided the prose before it has no `{` and the prose after it no `}`.
   */
  lemma ProseWrappedObject(a: string, t: string, b: string)
    requires StartsWith(t, "{") && EndsWith(t, "}")
    requires forall k :: 0 <= k < |a| ==> a[k] != '{'
    requires forall k :: 0 <= k < |b| ==> b[k] != '}'
    requires a == [] || (!IsSpace(a[0]) && a[0] != '`')
    requires b == [] || !IsSpace(b[|b| - 1])
    ensures JsonCandidate(a + t + b) == t
  {
    var s := a + t + b;
    StartsWithHead(t, "{");
    EndsWithLast(t, "}");
    assert s[0] == (if a == [] then '{' else a[0]);
    assert s[|s| - 1] == (if b == [] then '}' else b[|b| - 1]);
    CandidateIsBraceSlice(s);
    if a == [] && b == [] {
      assert s == t;
    } else {
      FirstBrace(a, t, b);
      LastBrace(a, t, b);
      StartsWithHead(s, "{");
      EndsWithLast(s, "}");
      BraceSpan(s, |a|, |a| + |t| - 1);
      assert s[|a|..|a| + |t|] == t;
    }
  }

  // ---------------------------------------------------------------- clean_reply_text

  /** Prose with nothing for the clean-up to peel: no quotes, colons or `=`, no wrapper at either end. */
  predicate PlainProse(s: string) {
    s != [] && !IsSpace(s[0]) && !IsSpace(s[|s| - 1])
    && (forall k :: 0 <= k < |s| ==> !IsQuote(s[k]) && s[k] != ':' && s[k] != '=')
    && s[0] != '<' && s[0] != '(' && s[0] != '{' && s[0] != '[' && s[|s| - 1] != '>'
    && !CiWordAt(s, 0, "agentreply")
  }

  /** The head-character tests of the peeling steps, all false on plain prose. */
  lemma PlainHeads(s: string)
    requires PlainProse(s)
    ensures !StartsWith(s, ":") && !Bracketed(s) && !QuotePaired(s) && !StartsWith(s, "AgentReply")
  {
    StartsWithHead(s, ":");
    StartsWithHead(s, "(");
    StartsWithHead(s, "{");
    StartsWithHead(s, "[");
    StartsWithHead(s, "\"");
    StartsWithHead(s, "'");
    if StartsWith(s, "AgentReply") {
      assert s[..10] == "AgentReply";
      assert CiWordAt(s, 0, "agentreply");
    }
  }

  /** Trimmed text that opens with neither `<` nor the tag name keeps its head. */
  lemma NoTagPrefix(s: string)
    requires s == [] || (!IsSpace(s[0]) && !IsSpace(s[|s| - 1]) && s[0] != '<' && !CiWordAt(s, 0, "agentreply"))
    ensures DropTagPrefix(s) == s
  {
    StripOfTrimmed(s);
  }

  lemma TrailingMarkerFlush(m: Marker, s: string, k: nat)
    requires s != [] && !IsSpace(s[|s| - 1])
    ensures TrailingMarkerAt(m, s, k) ==> k + m.Len() == |s|
  {
    if k + m.Len() < |s| {
      assert s[k + m.Len()..][|s| - 1 - k - m.Len()] == s[|s| - 1];
    }
  }

  /** A trailing marker can only sit flush with the end of text that does not end in a blank. */
  lemma NoTrailingMarker(m: Marker, s: string)
    requires s != [] && !IsSpace(s[|s| - 1])
    requires |s| < m.Len() || !MarkerAt(m, s, |s| - m.Len())
    ensures DropTrailingMarker(m, s) == s
  {
    forall k | 0 <= k ensures !TrailingMarkerAt(m, s, k) {
      TrailingMarkerFlush(m, s, k);
    }
  }

  /** Text ending in neither `>` nor a newline has no closing tag to lose. */
  lemma NoClosingTag(s: string)
    requires s != [] && s[|s| - 1] != '>' && s[|s| - 1] != '\n'
    ensures DropClosingTag(s) == s
  {
    if |s| >= 13 {
      assert !CiChar(s[|s| - 13 + 12], "</agentreply>"[12]);
    }
  }

  /** Text whose first character is not an `a` of any case cannot open with the tag name. */
  lemma HeadNotTag(s: string)
    requires s != [] && !CiChar(s[0], 'a')
    ensures !CiWordAt(s, 0, "agentreply")
  {
    assert "agentreply"[0] == 'a';
  }

  /** The marker steps leave alone trimmed text with no tag prefix and no marker at either end. */
  lemma MarkersKeep(m: Marker, s: string)
    requires s != [] && !IsSpace(s[0]) && !IsSpace(s[|s| - 1]) && s[0] != '<' && !CiWordAt(s, 0, "agentreply")
    requires !MarkerAt(m, s, 0) && (|s| < m.Len() || !MarkerAt(m, s, |s| - m.Len()))
    ensures PeelMarkers(m, s) == s
  {
    NoTagPrefix(s);
    NoTrailingMarker(m, s);
  }

  /** The wrapper steps leave plain prose alone. */
  lemma WrappersKeepPlain(s: string)
    requires PlainProse(s)
    ensures PeelWrappers(s) == s
  {
    NoClosingTag(s);
    StripOfTrimmed(s);
    PlainHeads(s);
  }

  /** Plain prose has no marker at either end. */
  lemma PlainHasNoMarker(m: Marker, s: string)
    requires PlainProse(s)
    ensures !MarkerAt(m, s, 0) && (|s| < m.Len() || !MarkerAt(m, s, |s| - m.Len()))
  {
  }

  lemma PeelPlain(copy: Copy, s: string)
    requires PlainProse(s)
    ensures Peel(copy, s) == s
  {
    StripOfTrimmed(s);
    PlainHasNoMarker(copy.Marker(), s);
    MarkersKeep(copy.Marker(), s);
    WrappersKeepPlain(s);
  }

  /** Trimmed text with no quote, `:` or `=` that is not garbage survives the salvage steps. */
  lemma SalvageBare(dec: Decoders, copy: Copy, s: string)
    requires s != [] && !IsSpace(s[0]) && !IsSpace(s[|s| - 1])
    requires forall k :: 0 <= k < |s| ==> !IsQuote(s[k]) && s[k] != ':' && s[k] != '='
    requires !StartsWith(s, "AgentReply") && !Garbage(dec, s)
    ensures Salvage(dec, copy, s) == s
  {
    StripOfTrimmed(s);
    assert KeyPrefixEnd(s).None?;
    assert !HasQuote(s);
    assert DropKeyPrefix(s) == s;
  }

  lemma SalvagePlain(dec: Decoders, copy: Copy, s: string)
    requires PlainProse(s) && !Garbage(dec, s)
    ensures Salvage(dec, copy, s) == s
  {
    PlainHeads(s);
    SalvageBare(dec, copy, s);
  }

  /** Plain prose the decoders reject comes back unchanged from both copies. */
  lemma PlainProseUnchanged(dec: Decoders, copy: Copy, s: string)
    requires PlainProse(s) && !Garbage(dec, s)
    requires dec.jsonLoads(s).None? && dec.literalEval(s).None?
    ensures CleanReplyText(dec, copy, s) == s
  {
    PeelPlain(copy, s);
    SalvagePlain(dec, copy, s);
    CleanBySalvage(dec, copy, s);
  }

  /** A dict decoded by `json.loads` is interpreted through its text. */
  lemma InterpretDict(dec: Decoders, c: string, d: Dict)
    requires dec.jsonLoads(c) == Some(VDict(d))
    ensures Interpret(dec, c) == DictText(d)
  {
  }

  /** When the peeled text decodes to a dict holding a string, the reply is that dict's preferred text. */
  lemma DecodedDictReply(dec: Decoders, copy: Copy, text: string, d: Dict)
    requires text != [] && dec.jsonLoads(Peel(copy, text)) == Some(VDict(d))
    requires exists i :: 0 <= i < |d| && d[i].val.VStr?
    ensures DictText(d).Some? && CleanReplyText(dec, copy, text) == DictText(d).value
  {
    var c := Peel(copy, text);
    InterpretDict(dec, c, d);
  }

  /** The salvage of a leftover shorter than five characters: the garbage filter alone decides. */
  lemma SalvageShort(dec: Decoders, copy: Copy, p: string)
    requires |DropKeyPrefix(p)| < 5
    ensures Salvage(dec, copy, p) == if Garbage(dec, DropKeyPrefix(p)) then [] else DropKeyPrefix(p)
  {
    var c := DropKeyPrefix(p);
    var min := copy.MinGroup();
    var loose := Search(Loose, c, min);
    var fb := FirstFallback(Fallbacks, c, min);
    assert loose.None? && fb.None?;
    assert !StartsWith(c, "AgentReply");
  }

  /** Short leftovers are kept unless they hold no alphanumeric character, in which case nothing is returned. */
  lemma ShortLeftover(dec: Decoders, copy: Copy, text: string)
    requires text != [] && Interpret(dec, Peel(copy, text)).None?
    requires |DropKeyPrefix(Peel(copy, text))| < 5
    ensures Garbage(dec, DropKeyPrefix(Peel(copy, text))) ==> CleanReplyText(dec, copy, text) == []
    ensures !Garbage(dec, DropKeyPrefix(Peel(copy, text))) ==> CleanReplyText(dec, copy, text) == DropKeyPrefix(Peel(copy, text))
  {
    var p := Peel(copy, text);
    SalvageShort(dec, copy, p);
  }

  /** The wrapper steps on trimmed text between a pair of double quotes drop just that pair. */
  lemma WrappersDropQuotes(s: string)
    requires |s| >= 2 && s[0] == '"' && s[|s| - 1] == '"'
    ensures PeelWrappers(s) == Inner(s)
  {
    NoClosingTag(s);
    StripOfTrimmed(s);
    StartsWithHead(s, ":");
    StartsWithHead(s, "(");
    StartsWithHead(s, "{");
    StartsWithHead(s, "[");
    StartsWithHead(s, "\"");
    EndsWithLast(s, "\"");
  }

  /** A leading triple quote goes, with the blanks after it (there are none before plain prose). */
  lemma LeadingTriple(t: string)
    requires PlainProse(t)
    ensures DropLeadingMarker(ThreeQuotes, "\"\"\"" + t + "\"\"\"") == t + "\"\"\""
  {
    var text := "\"\"\"" + t + "\"\"\"";
    assert MarkerAt(ThreeQuotes, text, 0);
    assert text[3] == t[0];
    assert SkipSpace(text, 3) == 3;
    assert text[3..] == t + "\"\"\"";
  }

  /** A trailing triple quote after plain prose goes. */
  lemma TrailingTriple(t: string)
    requires PlainProse(t)
    ensures DropTrailingMarker(ThreeQuotes, t + "\"\"\"") == t
  {
    var c := t + "\"\"\"";
    assert TrailingMarkerAt(ThreeQuotes, c, |t|) by {
      assert c[|t| + 3..] == [];
    }
    forall k | 0 <= k < |t| ensures !TrailingMarkerAt(ThreeQuotes, c, k) {
      assert c[k] == t[k];
    }
    assert TrailingMarkerFrom(ThreeQuotes, c, 0) == Some(|t|);
  }

  /** The live copy's marker steps take both triple quotes off plain prose. */
  lemma LiveMarkersTriple(t: string)
    requires PlainProse(t)
    ensures PeelMarkers(ThreeQuotes, "\"\"\"" + t + "\"\"\"") == t
  {
    var text := "\"\"\"" + t + "\"\"\"";
    assert text[0] == '"' && text[|text| - 1] == '"';
    HeadNotTag(text);
    NoTagPrefix(text);
    LeadingTriple(t);
    TrailingTriple(t);
    NoTagPrefix(t);
  }

  /** The core copy's marker steps find no quote followed by a 3 at either end of a triple-quoted reply. */
  lemma CoreMarkersTriple(t: string)
    requires PlainProse(t)
    ensures PeelMarkers(QuoteThenThree, "\"\"\"" + t + "\"\"\"") == "\"\"\"" + t + "\"\"\""
  {
    var text := "\"\"\"" + t + "\"\"\"";
    assert text[0] == '"' && text[1] == '"' && text[|text| - 1] == '"';
    HeadNotTag(text);
    MarkersKeep(QuoteThenThree, text);
  }

  /** Peeling trimmed text is the marker steps followed by the wrapper steps. */
  lemma PeelTrimmed(copy: Copy, text: string)
    requires text == [] || (!IsSpace(text[0]) && !IsSpace(text[|text| - 1]))
    ensures Peel(copy, text) == PeelWrappers(PeelMarkers(copy.Marker(), text))
  {
    StripOfTrimmed(text);
  }

  /** The live copy takes a triple-quoted plain reply out of its quotes. */
  lemma LiveTripleQuotes(t: string)
    requires PlainProse(t)
    ensures Peel(Live, "\"\"\"" + t + "\"\"\"") == t
  {
    var text := "\"\"\"" + t + "\"\"\"";
    assert text[0] == '"' && text[|text| - 1] == '"';
    PeelTrimmed(Live, text);
    LiveMarkersTriple(t);
    WrappersKeepPlain(t);
  }

  /** One quote comes off each end of a triple-quoted text. */
  lemma InnerTriple(t: string)
    ensures Inner("\"\"\"" + t + "\"\"\"") == "\"\"" + t + "\"\""
  {
    var text := "\"\"\"" + t + "\"\"\"";
    assert text[1..|text| - 1] == "\"\"" + t + "\"\"";
  }

  /** The core copy leaves two of the three quotes at each end of a triple-quoted plain reply. */
  lemma CoreTripleQuotes(t: string)
    requires PlainProse(t)
    ensures Peel(Core, "\"\"\"" + t + "\"\"\"") == "\"\"" + t + "\"\""
  {
    var text := "\"\"\"" + t + "\"\"\"";
    assert text[0] == '"' && text[|text| - 1] == '"';
    PeelTrimmed(Core, text);
    CoreMarkersTriple(t);
    WrappersDropQuotes(text);
    InnerTriple(t);
  }

  /**
   * The two copies part ways on a reply wrapped in three double quotes: the
   * live copy strips the triple quotes, the core copy (whose pattern is a
   * quote followed by the digit 3) only removes one quote pair.
   */
  lemma TripleQuotesByCopy(t: string)
    requires PlainProse(t)
    ensures Peel(Live, "\"\"\"" + t + "\"\"\"") != Peel(Core, "\"\"\"" + t + "\"\"\"")
  {
    LiveTripleQuotes(t);
    CoreTripleQuotes(t);
    var c := "\"\"" + t + "\"\"";
    assert |c| == |t| + 4;
  }

  /** Neither copy finds a marker at the ends of a quoted text whose inner ends are not quotes. */
  lemma MarkersKeepQuoted(m: Marker, b: string)
    requires b != [] && !IsQuote(b[0]) && b[0] != '3' && !IsQuote(b[|b| - 1])
    ensures PeelMarkers(m, "\"" + b + "\"") == "\"" + b + "\""
  {
    var text := "\"" + b + "\"";
    assert text[0] == '"' && text[1] == b[0] && text[|text| - 1] == '"' && text[|text| - 2] == b[|b| - 1];
    HeadNotTag(text);
    MarkersKeep(m, text);
  }

  /** One quote comes off each end of a quoted text. */
  lemma InnerQuoted(b: string)
    ensures Inner("\"" + b + "\"") == b
  {
    var text := "\"" + b + "\"";
    assert text[1..|text| - 1] == b;
  }

  /** Quoted text whose inner ends are neither blanks nor quotes loses just its quotes. */
  lemma PeelQuoted(copy: Copy, b: string)
    requires b != [] && !IsSpace(b[0]) && !IsSpace(b[|b| - 1])
    requires !IsQuote(b[0]) && b[0] != '3' && !IsQuote(b[|b| - 1])
    ensures Peel(copy, "\"" + b + "\"") == b
  {
    var text := "\"" + b + "\"";
    assert text[0] == '"' && text[|text| - 1] == '"';
    PeelTrimmed(copy, text);
    MarkersKeepQuoted(copy.Marker(), b);
    WrappersDropQuotes(text);
    InnerQuoted(b);
  }

  /** The peeling of a quoted, bracketed plain reply takes off the quotes and keeps the brackets. */
  lemma PeelQuotedBrackets(copy: Copy, t: string)
    requires PlainProse(t)
    ensures Peel(copy, "\"" + ("(" + t + ")") + "\"") == "(" + t + ")"
  {
    var b := "(" + t + ")";
    assert b[0] == '(' && b[|b| - 1] == ')';
    PeelQuoted(copy, b);
  }

  /** No marker of either copy sits at the ends of a bracketed plain reply. */
  lemma MarkersKeepBrackets(m: Marker, t: string)
    requires PlainProse(t)
    ensures PeelMarkers(m, "(" + t + ")") == "(" + t + ")"
  {
    var b := "(" + t + ")";
    assert b[0] == '(' && b[|b| - 1] == ')' && b[|b| - 2] == t[|t| - 1];
    HeadNotTag(b);
    MarkersKeep(m, b);
  }

  /** The peeling of a bracketed plain reply takes off the brackets. */
  lemma PeelBrackets(copy: Copy, t: string)
    requires PlainProse(t)
    ensures Peel(copy, "(" + t + ")") == t
  {
    var b := "(" + t + ")";
    assert b[0] == '(' && b[|b| - 1] == ')';
    PeelTrimmed(copy, b);
    MarkersKeepBrackets(copy.Marker(), t);
    WrappersDropBrackets(t);
  }

  /** The wrapper steps on a bracketed plain reply drop the brackets. */
  lemma WrappersDropBrackets(t: string)
    requires PlainProse(t)
    ensures PeelWrappers("(" + t + ")") == t
  {
    var b := "(" + t + ")";
    assert b[0] == '(' && b[|b| - 1] == ')';
    NoClosingTag(b);
    StripOfTrimmed(b);
    StartsWithHead(b, ":");
    StartsWithHead(b, "(");
    EndsWithLast(b, ")");
    assert Inner(b) == t;
    StripOfTrimmed(t);
    PlainHeads(t);
  }

  /** A bracketed plain reply that is not garbage survives the salvage steps. */
  lemma SalvageBrackets(dec: Decoders, copy: Copy, t: string)
    requires PlainProse(t) && !Garbage(dec, t)
    ensures Salvage(dec, copy, "(" + t + ")") == "(" + t + ")"
  {
    var b := "(" + t + ")";
    assert b[0] == '(' && b[|b| - 1] == ')';
    forall k | 0 <= k < |b| ensures !IsQuote(b[k]) && b[k] != ':' && b[k] != '=' {
      if 0 < k < |b| - 1 {
        assert b[k] == t[k - 1];
      }
    }
    StartsWithHead(b, "AgentReply");
    assert !Garbage(dec, b) by {
      if |t| < 5 {
        var k :| 0 <= k < |t| && IsAlnum(dec, t[k]);
        assert b[k + 1] == t[k];
      }
    }
    SalvageBare(dec, copy, b);
  }

  /** Text neither decoder accepts is interpreted as nothing. */
  lemma InterpretRejected(dec: Decoders, c: string)
    requires dec.jsonLoads(c).None? && dec.literalEval(c).None?
    ensures Interpret(dec, c).None?
  {
  }

  /** When neither decoder accepts the peeled text, the reply is its salvage. */
  lemma CleanBySalvage(dec: Decoders, copy: Copy, text: string)
    requires text != []
    requires dec.jsonLoads(Peel(copy, text)).None? && dec.literalEval(Peel(copy, text)).None?
    ensures CleanReplyText(dec, copy, text) == Salvage(dec, copy, Peel(copy, text))
  {
    var c := Peel(copy, text);
    InterpretRejected(dec, c);
  }

  /** First pass over a quoted, bracketed reply: the quotes go, the brackets stay. */
  lemma CleanQuotedBrackets(dec: Decoders, copy: Copy, t: string)
    requires PlainProse(t) && !Garbage(dec, t)
    requires dec.jsonLoads("(" + t + ")").None? && dec.literalEval("(" + t + ")").None?
    ensures CleanReplyText(dec, copy, "\"" + ("(" + t + ")") + "\"") == "(" + t + ")"
  {
    var b := "(" + t + ")";
    PeelQuotedBrackets(copy, t);
    SalvageBrackets(dec, copy, t);
    CleanBySalvage(dec, copy, "\"" + ("(" + t + ")") + "\"");
  }

  /** Second pass: the brackets go. */
  lemma CleanBrackets(dec: Decoders, copy: Copy, t: string)
    requires PlainProse(t) && !Garbage(dec, t)
    requires dec.jsonLoads(t).None? && dec.literalEval(t).None?
    ensures CleanReplyText(dec, copy, "(" + t + ")") == t
  {
    PeelBrackets(copy, t);
    SalvagePlain(dec, copy, t);
    CleanBySalvage(dec, copy, "(" + t + ")");
  }

  /**
   * The clean-up is not idempotent: a quoted, bracketed reply loses its quotes
   * on one pass and its brackets only on a second.
   */
  lemma CleanNotIdempotent(dec: Decoders, copy: Copy, t: string)
    requires PlainProse(t) && !Garbage(dec, t)
    requires dec.jsonLoads("(" + t + ")").None? && dec.literalEval("(" + t + ")").None?
    requires dec.jsonLoads(t).None? && dec.literalEval(t).None?
    ensures CleanReplyText(dec, copy, CleanReplyText(dec, copy, "\"" + ("(" + t + ")") + "\"")) != CleanReplyText(dec, copy, "\"" + ("(" + t + ")") + "\"")
  {
    CleanQuotedBrackets(dec, copy, t);
    CleanBrackets(dec, copy, t);
    assert |"(" + t + ")"| == |t| + 2;
  }
}
