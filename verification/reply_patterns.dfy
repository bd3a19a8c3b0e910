/**
 * The regular expressions `clean_reply_text` applies, each written out as the
 * match CPython's backtracking engine finds: leftmost start, greedy `\s*`,
 * optional quotes taken when present, alternatives tried in pattern order and
 * lazy groups closed at the first quote whose continuation also matches.
 * Letters in the patterns compare under IGNORECASE (`CiWordAt`); `.` is DOTALL.
 */
module ReplyPatterns {
  import opened Wrappers
  import opened PyText

  predicate IsQuote(c: char) { c == '"' || c == '\'' }

  predicate HasQuote(s: string) { exists k :: 0 <= k < |s| && IsQuote(s[k]) }

  /** Where a greedy `\s*` starting at `i` stops. */
  function SkipSpace(s: string, i: nat): (j: nat)
    requires i <= |s|
    ensures i <= j <= |s|
    ensures forall k :: i <= k < j ==> IsSpace(s[k])
    ensures j == |s| || !IsSpace(s[j])
    decreases |s| - i
  {
    if i < |s| && IsSpace(s[i]) then SkipSpace(s, i + 1) else i
  }

  /** Where a greedy `[:\s]*` starting at `i` stops. */
  function SkipColonSpace(s: string, i: nat): (j: nat)
    requires i <= |s|
    ensures i <= j <= |s|
    ensures forall k :: i <= k < j ==> s[k] == ':' || IsSpace(s[k])
    ensures j == |s| || (s[j] != ':' && !IsSpace(s[j]))
    decreases |s| - i
  {
    if i < |s| && (s[i] == ':' || IsSpace(s[i])) then SkipColonSpace(s, i + 1) else i
  }

  // ---------------------------------------------------------------- anchored clean-up patterns

  /**
   * Length of the match of `^(?:<)?AgentReply(?:>)?[:\s]*` (IGNORECASE), 0 when
   * there is none: what the substitution removes from the front.
   */
  function TagPrefixEnd(s: string): (n: nat)
    ensures n <= |s|
    ensures n == 0 <==> !(CiWordAt(s, 0, "agentreply") || (|s| > 0 && s[0] == '<' && CiWordAt(s, 1, "agentreply")))
    ensures n > 0 ==> n == |s| || (s[n] != ':' && !IsSpace(s[n]))
  {
    var a := if |s| > 0 && s[0] == '<' && CiWordAt(s, 1, "agentreply") then 1 else 0;
    if CiWordAt(s, a, "agentreply") then
      var b := a + 10;
      var c := if b < |s| && s[b] == '>' then b + 1 else b;
      SkipColonSpace(s, c)
    else 0
  }

  /** The two-or-three-character quote marker the two copies of the clean-up strip. */
  datatype Marker =
    | QuoteThenThree   // `['\"]3`: a quote followed by the digit 3
    | ThreeQuotes      // `['\"]{3}`: three quote characters
  {
    function Len(): (n: nat)
      ensures n == 2 || n == 3
    {
      if QuoteThenThree? then 2 else 3
    }
  }

  predicate MarkerAt(m: Marker, s: string, i: nat) {
    i + m.Len() <= |s| && IsQuote(s[i])
    && (if m.QuoteThenThree? then s[i + 1] == '3' else IsQuote(s[i + 1]) && IsQuote(s[i + 2]))
  }

  /** `re.sub(r"^<marker>\s*", "", s)` */
  function DropLeadingMarker(m: Marker, s: string): (r: string)
    ensures !MarkerAt(m, s, 0) ==> r == s
    ensures MarkerAt(m, s, 0) ==> |r| <= |s| - m.Len() && r == s[|s| - |r|..]
    ensures MarkerAt(m, s, 0) ==> r == [] || !IsSpace(r[0])
  {
    if MarkerAt(m, s, 0) then s[SkipSpace(s, m.Len())..] else s
  }

  /** Does the pattern `<marker>\s*$` match at `i`? (`\s*` is greedy, so only whitespace may follow the marker.) */
  predicate TrailingMarkerAt(m: Marker, s: string, i: nat) {
    MarkerAt(m, s, i) && AllSpace(s[i + m.Len()..])
  }

  /** The leftmost start at or after `i` of a match of `<marker>\s*$`. */
  function TrailingMarkerFrom(m: Marker, s: string, i: nat): (r: Option<nat>)
    ensures r.Some? ==> i <= r.value < |s| && TrailingMarkerAt(m, s, r.value)
    ensures r.Some? ==> forall k :: i <= k < r.value ==> !TrailingMarkerAt(m, s, k)
    ensures r.None? ==> forall k :: i <= k ==> !TrailingMarkerAt(m, s, k)
    decreases |s| - i
  {
    if i >= |s| then None
    else if TrailingMarkerAt(m, s, i) then Some(i)
    else TrailingMarkerFrom(m, s, i + 1)
  }

  /** `re.sub(r"<marker>\s*$", "", s)`: cut at the match, which runs to the end of the text. */
  function DropTrailingMarker(m: Marker, s: string): (r: string)
    ensures (forall k :: !TrailingMarkerAt(m, s, k)) ==> r == s
    ensures |r| <= |s| && r == s[..|r|]
    ensures |r| < |s| ==> TrailingMarkerAt(m, s, |r|)
  {
    match TrailingMarkerFrom(m, s, 0)
    case Some(i) => s[..i]
    case None => s
  }

  /**
   * `re.sub(r"</AgentReply>$", "", s, flags=re.IGNORECASE)`. `$` also matches
   * just before a final newline, which the substitution keeps.
   */
  function DropClosingTag(s: string): (r: string)
    ensures |r| <= |s|
    ensures (|s| < 13 || !CiWordAt(s, |s| - 13, "</agentreply>")) && !(|s| >= 14 && s[|s| - 1] == '\n' && CiWordAt(s, |s| - 14, "</agentreply>")) ==> r == s
  {
    var n := |s|;
    if n >= 14 && s[n - 1] == '\n' && CiWordAt(s, n - 14, "</agentreply>") then s[..n - 14] + "\n"
    else if n >= 13 && CiWordAt(s, n - 13, "</agentreply>") then s[..n - 13]
    else s
  }

  // ---------------------------------------------------------------- keyword patterns

  /** The keys of the prefix and loose patterns, in alternation order. */
  const LooseKeys: seq<string> :=
    ["response", "resposta", "mensagem", "message", "content", "text", "cliente", "client", "bot", "atendente", "assistant"]

  /** The keys of the four fallback patterns, in alternation order. */
  const StrictKeys: seq<string> := ["message", "mensagem", "response"]

  /**
   * `["\']?\s*[:=]\s*` starting right after a key that ends at `e`: the index
   * after the final `\s*`, or `None` when there is no `:` or `=`.
   */
  function AssignAfter(s: string, e: nat): (r: Option<nat>)
    requires e <= |s|
    ensures r.Some? ==> e < r.value <= |s| && exists k :: e <= k < r.value && (s[k] == ':' || s[k] == '=')
  {
    var a := if e < |s| && IsQuote(s[e]) then e + 1 else e;
    var b := SkipSpace(s, a);
    if b < |s| && (s[b] == ':' || s[b] == '=') then Some(SkipSpace(s, b + 1)) else None
  }

  /** The first key of `keys` written at `b` whose assignment continues; the index after `\s*[:=]\s*`. */
  function KeyAssignAt(s: string, b: nat, keys: seq<string>): (r: Option<nat>)
    requires b <= |s|
    ensures r.Some? ==> b < r.value <= |s| && exists k :: b <= k < r.value && (s[k] == ':' || s[k] == '=')
  {
    if keys == [] then None
    else if CiWordAt(s, b, keys[0]) && AssignAfter(s, b + |keys[0]|).Some? then
      AssignAfter(s, b + |keys[0]|)
    else KeyAssignAt(s, b, keys[1..])
  }

  /**
   * Length of the match of
   * `^\s*["\']?(?:response|...|assistant)["\']?\s*[:=]\s*["\']?` (IGNORECASE),
   * `None` when it does not match.
   */
  function KeyPrefixEnd(s: string): (r: Option<nat>)
    ensures r.Some? ==> 0 < r.value <= |s| && exists k :: 0 <= k < r.value && (s[k] == ':' || s[k] == '=')
  {
    var a := SkipSpace(s, 0);
    var b := if a < |s| && IsQuote(s[a]) then a + 1 else a;
    match KeyAssignAt(s, b, LooseKeys)
    case Some(c) => Some(if c < |s| && IsQuote(s[c]) then c + 1 else c)
    case None => None
  }

  /** What may follow the closing quote of a fallback pattern's group. */
  datatype Tail =
    | Nothing         // the group's closing quote ends the pattern
    | Delimiter       // `(?:,|}|\)|$)`
    | CloseParen      // `\s*\)`
    | CloseBrace(min: nat)  // `.+?\}` (min 1) or `.*?\}` (min 0)

  predicate TailAt(t: Tail, s: string, p: nat)
    requires p <= |s|
  {
    match t
    case Nothing => true
    case Delimiter => p == |s| || s[p] == ',' || s[p] == '}' || s[p] == ')' || (p == |s| - 1 && s[p] == '\n')
    case CloseParen => SkipSpace(s, p) < |s| && s[SkipSpace(s, p)] == ')'
    case CloseBrace(min) => exists k :: p + min <= k < |s| && s[k] == '}'
  }

  /** A closing quote at `j` whose continuation matches. */
  predicate ClosesAt(s: string, j: nat, t: Tail) {
    j < |s| && IsQuote(s[j]) && TailAt(t, s, j + 1)
  }

  /** The lazy group `(.+?)['\"]<tail>`: the first closing position at or after `j`. */
  function LazyClose(s: string, j: nat, t: Tail): (r: Option<nat>)
    ensures r.Some? ==> j <= r.value < |s| && ClosesAt(s, r.value, t)
    ensures r.Some? ==> forall k :: j <= k < r.value ==> !ClosesAt(s, k, t)
    ensures r.None? ==> forall k :: j <= k ==> !ClosesAt(s, k, t)
    decreases |s| - j
  {
    if j >= |s| then None
    else if ClosesAt(s, j, t) then Some(j)
    else LazyClose(s, j + 1, t)
  }

  /** A captured group: the text between `start` and `end`, framed by quotes. */
  predicate QuotedGroup(s: string, g: (nat, nat), min: nat) {
    0 < g.0 && g.0 + min <= g.1 < |s| && IsQuote(s[g.0 - 1]) && IsQuote(s[g.1])
  }

  /** The group once its opening quote sits at `q`. */
  function GroupFrom(s: string, q: nat, min: nat, t: Tail): (r: Option<(nat, nat)>)
    ensures r.Some? ==> QuotedGroup(s, r.value, min) && r.value.0 == q + 1
  {
    if q < |s| && IsQuote(s[q]) then
      match LazyClose(s, q + 1 + min, t)
      case Some(j) => Some((q + 1, j))
      case None => None
    else None
  }

  /** The loose pattern with its key starting at `k`: `KEY["\']?\s*[:=]\s*["\'](.+?)["\']`, keys tried in order. */
  function LooseKeyAt(s: string, k: nat, keys: seq<string>, min: nat): (r: Option<(nat, nat)>)
    requires k <= |s|
    requires forall i :: 0 <= i < |keys| ==> |keys[i]| >= 3
    ensures r.Some? ==> QuotedGroup(s, r.value, min) && r.value.0 >= k + 5
  {
    if keys == [] then None
    else
      var g :=
        if CiWordAt(s, k, keys[0]) then
          match AssignAfter(s, k + |keys[0]|)
          case Some(c) => GroupFrom(s, c, min, Nothing)
          case None => None
        else None;
      if g.Some? then g else LooseKeyAt(s, k, keys[1..], min)
  }

  /** Which of the search patterns a match is for. */
  datatype Pattern =
    | Loose        // `["\']?(?:response|...)["\']?\s*[:=]\s*["\'](.+?)["\']`
    | KeyEquals    // `(?:message|mensagem|response)\s*=\s*['\"](.+?)['\"](?:,|}|\)|$)`
    | QuotedKey    // `['\"](?:message|mensagem|response)['\"]\s*[:=]\s*['\"](.+?)['\"](?:,|}|\)|$)`
    | ReplyCall    // `AgentReply\s*\(\s*['\"](.+?)['\"]\s*\)`
    | ReplyObject  // `AgentReply\s*\{.+?['\"](?:message|mensagem|response)['\"]\s*:\s*['\"](.+?)['\"].+?\}`

  /** The quoted-key body shared by `QuotedKey` and `ReplyObject`: a quote at `q`, a key, a quote, the separator, the group. */
  function QuotedKeyAt(s: string, q: nat, keys: seq<string>, colonOnly: bool, min: nat, t: Tail): (r: Option<(nat, nat)>)
    requires forall i :: 0 <= i < |keys| ==> |keys[i]| >= 3
    ensures r.Some? ==> QuotedGroup(s, r.value, min) && r.value.0 >= q + 5
  {
    if keys == [] || !(q < |s| && IsQuote(s[q])) then None
    else
      var e := q + 1 + |keys[0]|;
      var g :=
        if CiWordAt(s, q + 1, keys[0]) && e < |s| && IsQuote(s[e]) then
          var b := SkipSpace(s, e + 1);
          if b < |s| && (s[b] == ':' || (!colonOnly && s[b] == '=')) then GroupFrom(s, SkipSpace(s, b + 1), min, t)
          else None
        else None;
      if g.Some? then g else QuotedKeyAt(s, q, keys[1..], colonOnly, min, t)
  }

  /** `KEY\s*=\s*['\"](.+?)['\"](?:,|}|\)|$)` with the key at `k`. */
  function KeyEqualsAt(s: string, k: nat, keys: seq<string>, min: nat): (r: Option<(nat, nat)>)
    requires forall i :: 0 <= i < |keys| ==> |keys[i]| >= 3
    ensures r.Some? ==> QuotedGroup(s, r.value, min) && r.value.0 >= k + 5
  {
    if keys == [] || k > |s| then None
    else
      var g :=
        if CiWordAt(s, k, keys[0]) then
          var a := SkipSpace(s, k + |keys[0]|);
          if a < |s| && s[a] == '=' then GroupFrom(s, SkipSpace(s, a + 1), min, Delimiter) else None
        else None;
      if g.Some? then g else KeyEqualsAt(s, k, keys[1..], min)
  }

  /** The lazy `.+?` of `ReplyObject`: the first position at or after `p` where the quoted key and its group match. */
  function ObjectBodyFrom(s: string, p: nat, min: nat): (r: Option<(nat, nat)>)
    ensures r.Some? ==> QuotedGroup(s, r.value, min) && r.value.0 >= p + 5
    decreases |s| - p
  {
    if p >= |s| then None
    else
      var g := QuotedKeyAt(s, p, StrictKeys, true, min, CloseBrace(min));
      if g.Some? then g else ObjectBodyFrom(s, p + 1, min)
  }

  /** The match of `pat` starting exactly at `i`, as the span of its group. */
  function MatchAt(pat: Pattern, s: string, i: nat, min: nat): (r: Option<(nat, nat)>)
    requires i < |s|
    ensures r.Some? ==> QuotedGroup(s, r.value, min) && r.value.0 >= i + 5
  {
    match pat
    case Loose =>
      if IsQuote(s[i]) then LooseKeyAt(s, i + 1, LooseKeys, min) else LooseKeyAt(s, i, LooseKeys, min)
    case KeyEquals => KeyEqualsAt(s, i, StrictKeys, min)
    case QuotedKey => QuotedKeyAt(s, i, StrictKeys, false, min, Delimiter)
    case ReplyCall =>
      if CiWordAt(s, i, "agentreply") then
        var a := SkipSpace(s, i + 10);
        if a < |s| && s[a] == '(' then GroupFrom(s, SkipSpace(s, a + 1), min, CloseParen) else None
      else None
    case ReplyObject =>
      if CiWordAt(s, i, "agentreply") then
        var a := SkipSpace(s, i + 10);
        if a < |s| && s[a] == '{' then ObjectBodyFrom(s, a + 1 + min, min) else None
      else None
  }

  /** `re.search(pat, s[i:])` positions: the group of the leftmost match starting at or after `i`. */
  function SearchFrom(pat: Pattern, s: string, i: nat, min: nat): (r: Option<(nat, nat)>)
    ensures r.Some? ==> QuotedGroup(s, r.value, min) && r.value.0 >= i + 5
    ensures r.None? ==> forall k :: i <= k < |s| ==> MatchAt(pat, s, k, min).None?
    decreases |s| - i
  {
    if i >= |s| then None
    else
      var m := MatchAt(pat, s, i, min);
      if m.Some? then m else SearchFrom(pat, s, i + 1, min)
  }

  /** `re.search(pat, s)`: the captured text, if the pattern matches anywhere. */
  function Search(pat: Pattern, s: string, min: nat): (r: Option<string>)
    ensures r.Some? ==> HasQuote(s) && |r.value| >= min && |s| >= 6
    ensures r.Some? ==> exists a: nat, b: nat :: QuotedGroup(s, (a, b), min) && r.value == s[a..b]
    ensures !HasQuote(s) ==> r.None?
  {
    match SearchFrom(pat, s, 0, min)
    case Some(g) => assert IsQuote(s[g.1]); Some(s[g.0..g.1])
    case None => None
  }
}
