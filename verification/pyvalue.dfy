/**
 * Python values as the decoders (`json.loads`, `ast.literal_eval`) hand them
 * to the application, and the three things the application asks of them:
 * truthiness, `dict.get`, and `str()`.
 */
module PyValue {
  import opened Wrappers
  import opened PyText

  /**
   * A decoded value. Floats, tuples, sets and bytes are `VOther`: the model
   * keeps only their `repr` and their truthiness, which is all the
   * application observes of them.
   */
  datatype Value =
    | VNone
    | VBool(b: bool)
    | VInt(i: int)
    | VStr(s: string)
    | VList(items: seq<Value>)
    | VDict(entries: seq<Entry>)
    | VOther(repr: string, truthy: bool)

  /** One `key: value` pair of a dict, in insertion order. */
  datatype Entry = Entry(key: Value, val: Value)

  type Dict = seq<Entry>

  /** Python truthiness (`bool(v)`). */
  predicate Truthy(v: Value) {
    match v
    case VNone => false
    case VBool(b) => b
    case VInt(i) => i != 0
    case VStr(s) => s != []
    case VList(items) => items != []
    case VDict(entries) => entries != []
    case VOther(_, t) => t
  }

  /** `d.get(k)` with `None` for a missing key; the first entry wins, as the keys of a Python dict are distinct. */
  function Get(d: Dict, k: string): (r: Option<Value>)
    ensures r.Some? ==> exists i :: 0 <= i < |d| && d[i] == Entry(VStr(k), r.value)
    ensures r.None? ==> forall i :: 0 <= i < |d| ==> d[i].key != VStr(k)
  {
    if d == [] then None
    else if d[0].key == VStr(k) then Some(d[0].val)
    else Get(d[1..], k)
  }

  /** Filtering keys out leaves every other key's value as it was, and the filtered keys missing. */
  lemma {:induction false} GetWithout(d: Dict, ks: set<string>, k: string)
    ensures Get(Without(d, ks), k) == (if k in ks then None else Get(d, k))
  {
    if d != [] {
      GetWithout(d[1..], ks, k);
    }
  }

  /** `d[k] = v`: an existing key keeps its place and takes the new value; a new key goes last. */
  function Put(d: Dict, k: string, v: Value): (r: Dict)
    ensures Get(r, k) == Some(v)
    ensures forall k' :: k' != k ==> Get(r, k') == Get(d, k')
    ensures |r| == |d| + (if HasKey(d, k) then 0 else 1)
  {
    if d == [] then [Entry(VStr(k), v)]
    else if d[0].key == VStr(k) then [Entry(VStr(k), v)] + d[1..]
    else [d[0]] + Put(d[1..], k, v)
  }

  /** Python's `a or b` on values. */
  function PyOr(a: Value, b: Value): (r: Value)
    ensures Truthy(a) ==> r == a
    ensures !Truthy(a) ==> r == b
  {
    if Truthy(a) then a else b
  }

  /** Looking up a dict with one more entry in front: that entry answers for its own key. */
  lemma GetCons(e: Entry, rest: Dict, k: string)
    ensures Get([e] + rest, k) == if e.key == VStr(k) then Some(e.val) else Get(rest, k)
  {
    assert ([e] + rest)[1..] == rest;
  }

  /** `d.get(k)` as the Python value it evaluates to: a missing key reads as `None`. */
  function Lookup(d: Dict, k: string): (v: Value)
    ensures Get(d, k).None? ==> v == VNone
    ensures Get(d, k).Some? ==> v == Get(d, k).value
  {
    Get(d, k).GetOr(VNone)
  }

  /** `k in d` */
  predicate HasKey(d: Dict, k: string) { Get(d, k).Some? }

  /** The dict without the entries whose key is one of `ks` (a filtering dict comprehension). */
  function Without(d: Dict, ks: set<string>): (r: Dict)
    ensures |r| <= |d|
    ensures forall i :: 0 <= i < |r| ==> r[i] in d && !(r[i].key.VStr? && r[i].key.s in ks)
    ensures forall i :: 0 <= i < |d| && !(d[i].key.VStr? && d[i].key.s in ks) ==> d[i] in r
  {
    if d == [] then []
    else if d[0].key.VStr? && d[0].key.s in ks then Without(d[1..], ks)
    else [d[0]] + Without(d[1..], ks)
  }

  // ---------------------------------------------------------------- str and repr

  function HexDigit(n: nat): char
    requires n < 16
  {
    if n < 10 then DigitChar(n) else ('a' as int + n - 10) as char
  }

  /**
   * The escape `repr` writes for one character of a string quoted with `q`.
   * Printability is Python's `str.isprintable` restricted to Latin-1: every
   * character above U+00FF is taken as printable and written as it stands.
   * Within Latin-1 a character stands as itself exactly when Python counts it
   * printable (ASCII from the blank to `~`, or U+00A1 to U+00FF except the
   * soft hyphen) and it is neither the quote nor the backslash; every other
   * character becomes a backslash escape.
   */
  function EscapeChar(c: char, q: char): (r: string)
    ensures |r| >= 1
    ensures (c == q || c == '\\') ==> r == ['\\', c]
    ensures c <= '\U{FF}' ==>
              (r == [c] <==> c != q && c != '\\' && ((' ' <= c <= '~') || ('\U{A1}' <= c && c != '\U{AD}')))
    ensures r != [c] ==> r[0] == '\\' && |r| >= 2
  {
    if c == '\\' || c == q then ['\\', c]
    else if c == '\n' then "\\n"
    else if c == '\r' then "\\r"
    else if c == '\t' then "\\t"
    else if c < ' ' || ('\U{7F}' <= c <= '\U{A0}') || c == '\U{AD}' then
      "\\x" + [HexDigit(c as int / 16), HexDigit(c as int % 16)]
    else [c]
  }

  function EscapeAll(s: string, q: char): (r: string)
    ensures |r| >= |s|
  {
    if s == [] then [] else EscapeChar(s[0], q) + EscapeAll(s[1..], q)
  }

  /**
   * `repr(s)`: single quotes unless the text holds a single quote and no
   * double quote, with backslash escapes for the quote, the backslash and
   * control characters.
   */
  function StrRepr(s: string): (r: string)
    ensures |r| >= |s| + 2
    ensures r[0] == r[|r| - 1] && (r[0] == '\'' || r[0] == '"')
  {
    var q := if '\'' in s && '"' !in s then '"' else '\'';
    [q] + EscapeAll(s, q) + [q]
  }

  /** `repr(v)` */
  function Repr(v: Value): (r: string)
    ensures |r| >= 1
    decreases v, 1
  {
    match v
    case VNone => "None"
    case VBool(b) => if b then "True" else "False"
    case VInt(i) => IntToString(i)
    case VStr(s) => StrRepr(s)
    case VList(items) => "[" + Join(", ", ReprItems(v, items)) + "]"
    case VDict(entries) => "{" + Join(", ", ReprEntries(v, entries)) + "}"
    case VOther(repr, _) => if repr == [] then "?" else repr
  }

  function ReprItems(parent: Value, items: seq<Value>): (r: seq<string>)
    requires forall i :: 0 <= i < |items| ==> items[i] < parent
    ensures |r| == |items|
    decreases parent, 0, |items|
  {
    if items == [] then [] else [Repr(items[0])] + ReprItems(parent, items[1..])
  }

  function ReprEntries(parent: Value, entries: seq<Entry>): (r: seq<string>)
    requires forall i :: 0 <= i < |entries| ==> entries[i] < parent
    ensures |r| == |entries|
    decreases parent, 0, |entries|
  {
    if entries == [] then []
    else
      assert entries[0].key < entries[0] && entries[0].val < entries[0];
      [Repr(entries[0].key) + ": " + Repr(entries[0].val)] + ReprEntries(parent, entries[1..])
  }

  /** `str(v)`: the text itself for a string, `repr(v)` otherwise. */
  function Str(v: Value): (r: string)
    ensures v.VStr? ==> r == v.s
    ensures !v.VStr? ==> r == Repr(v)
  {
    if v.VStr? then v.s else Repr(v)
  }

  /** The first character of `repr` for a list or dict is its opening bracket. */
  lemma ContainerReprOpens(v: Value)
    requires v.VList? || v.VDict?
    ensures Repr(v)[0] == (if v.VList? then '[' else '{')
  {
  }

  /**
   * `_string_or_none`: `None` for a missing or `None` value, otherwise
   * `str(value).strip()`, with a blank text read as `None`.
   */
  function StringOrNone(v: Option<Value>): (r: Option<string>)
    ensures (v.None? || v.value.VNone?) ==> r.None?
    ensures r.Some? ==> r.value != [] && Strip(r.value) == r.value
    ensures v.Some? && v.value.VStr? ==> (r.Some? <==> !IsBlank(v.value.s))
    ensures r.Some? && v.value.VStr? ==> r.value == Strip(v.value.s)
  {
    match v
    case None => None
    case Some(VNone) => None
    case Some(x) =>
      var t := Strip(Str(x));
      StripIdempotent(Str(x));
      if t == [] then None else Some(t)
  }

  /** A list or dict is never read as missing text, however empty it is. */
  lemma ContainersAreText(v: Value)
    requires v.VList? || v.VDict?
    ensures StringOrNone(Some(v)).Some?
    ensures StringOrNone(Some(v)).value[0] == (if v.VList? then '[' else '{')
  {
    var r := Repr(v);
    ContainerReprOpens(v);
    assert !IsSpace(r[0]);
    assert LStrip(r) == r;
  }
}
