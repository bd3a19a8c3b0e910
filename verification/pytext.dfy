/**
 * The Python string primitives the application's code leans on, with the
 * meaning CPython gives them: `str.isspace`/`str.strip`, `str.lower`,
 * `str.upper`, `str.find`/`str.rfind`, `str.join`, `str(int)` and `int(str)`,
 * plus the per-character comparison the `re` module performs under IGNORECASE.
 */
module PyText {
  import opened Wrappers

  /** `str.isspace` for one character: the set `str.strip()` and the regex class `\s` remove or match. */
  predicate IsSpace(c: char) {
    c == ' ' || ('\t' <= c <= '\r') || ('\U{1C}' <= c <= '\U{1F}') || c == '\U{85}' || c == '\U{A0}'
    || c == '\U{1680}' || ('\U{2000}' <= c <= '\U{200A}') || c == '\U{2028}' || c == '\U{2029}'
    || c == '\U{202F}' || c == '\U{205F}' || c == '\U{3000}'
  }

  predicate AllSpace(s: string) {
    forall k :: 0 <= k < |s| ==> IsSpace(s[k])
  }

  predicate IsDigit(c: char) { '0' <= c <= '9' }

  predicate IsAsciiLetter(c: char) { 'a' <= c <= 'z' || 'A' <= c <= 'Z' }

  predicate IsAsciiAlnum(c: char) { IsDigit(c) || IsAsciiLetter(c) }

  predicate IsAscii(s: string) { forall k :: 0 <= k < |s| ==> s[k] < '\U{80}' }

  // ---------------------------------------------------------------- strip

  /** `s.lstrip()`: the longest suffix of `s` that does not start with whitespace. */
  function LStrip(s: string): (r: string)
    ensures |r| <= |s| && r == s[|s| - |r|..]
    ensures forall k :: 0 <= k < |s| - |r| ==> IsSpace(s[k])
    ensures r == [] || !IsSpace(r[0])
  {
    if |s| > 0 && IsSpace(s[0]) then LStrip(s[1..]) else s
  }

  /** `s.rstrip()`: the longest prefix of `s` that does not end with whitespace. */
  function RStrip(s: string): (r: string)
    ensures |r| <= |s| && r == s[..|r|]
    ensures forall k :: |r| <= k < |s| ==> IsSpace(s[k])
    ensures r == [] || !IsSpace(r[|r| - 1])
  {
    if |s| > 0 && IsSpace(s[|s| - 1]) then RStrip(s[..|s| - 1]) else s
  }

  /** How many leading characters `s.strip()` removes. */
  function StripOffset(s: string): (n: nat)
    ensures n <= |s|
  {
    |s| - |LStrip(s)|
  }

  /**
   * `s.strip()`: the infix of `s` obtained by dropping whitespace at both ends;
   * everything dropped is whitespace and the result neither starts nor ends with it.
   */
  function Strip(s: string): (r: string)
    ensures StripOffset(s) + |r| <= |s|
    ensures r == s[StripOffset(s)..StripOffset(s) + |r|]
    ensures AllSpace(s[..StripOffset(s)]) && AllSpace(s[StripOffset(s) + |r|..])
    ensures r == [] || (!IsSpace(r[0]) && !IsSpace(r[|r| - 1]))
  {
    RStrip(LStrip(s))
  }

  /** `not s.strip()` */
  predicate IsBlank(s: string) { Strip(s) == [] }

  lemma {:induction false} LStripOfAllSpace(s: string)
    requires AllSpace(s)
    ensures LStrip(s) == []
    decreases |s|
  {
    if |s| > 0 {
      LStripOfAllSpace(s[1..]);
    }
  }

  /** A string is blank exactly when every character of it is whitespace. */
  lemma BlankIffAllSpace(s: string)
    ensures IsBlank(s) <==> AllSpace(s)
  {
    if AllSpace(s) {
      LStripOfAllSpace(s);
    }
    if IsBlank(s) {
      assert s[..StripOffset(s)] == s;
    }
  }

  /** Empty, or neither starting nor ending with whitespace. */
  predicate Trimmed(s: string) { s == [] || (!IsSpace(s[0]) && !IsSpace(s[|s| - 1])) }

  /** A string that neither starts nor ends with whitespace is its own strip. */
  lemma StripOfTrimmed(s: string)
    requires Trimmed(s)
    ensures Strip(s) == s
  {
  }

  /** Stripping twice is stripping once. */
  lemma StripIdempotent(s: string)
    ensures Strip(Strip(s)) == Strip(s)
  {
    StripOfTrimmed(Strip(s));
  }

  lemma {:induction false} LStripPadded(a: string, x: string)
    requires AllSpace(a) && (x == [] || !IsSpace(x[0]))
    ensures LStrip(a + x) == x
    decreases |a|
  {
    if a != [] {
      assert (a + x)[1..] == a[1..] + x;
      LStripPadded(a[1..], x);
    } else {
      assert a + x == x;
    }
  }

  lemma {:induction false} RStripPadded(x: string, b: string)
    requires AllSpace(b) && (x == [] || !IsSpace(x[|x| - 1]))
    ensures RStrip(x + b) == x
    decreases |b|
  {
    if b != [] {
      assert (x + b)[..|x + b| - 1] == x + b[..|b| - 1];
      RStripPadded(x, b[..|b| - 1]);
    } else {
      assert x + b == x;
    }
  }

  /** Whitespace around a trimmed text is exactly what `strip` removes. */
  lemma StripPadded(a: string, x: string, b: string)
    requires AllSpace(a) && AllSpace(b)
    requires x == [] || (!IsSpace(x[0]) && !IsSpace(x[|x| - 1]))
    ensures Strip(a + x + b) == x
  {
    if x == [] {
      assert a + x + b == a + b;
      assert AllSpace(a + b);
      BlankIffAllSpace(a + b);
    } else {
      assert a + x + b == a + (x + b);
      LStripPadded(a, x + b);
      RStripPadded(x, b);
    }
  }

  /** `s.rstrip(c)` for a one-character argument. */
  function RStripChar(s: string, c: char): (r: string)
    ensures |r| <= |s| && r == s[..|r|]
    ensures forall k :: |r| <= k < |s| ==> s[k] == c
    ensures r == [] || r[|r| - 1] != c
  {
    if |s| > 0 && s[|s| - 1] == c then RStripChar(s[..|s| - 1], c) else s
  }

  /** `s.lstrip(c)` for a one-character argument. */
  function LStripChar(s: string, c: char): (r: string)
    ensures |r| <= |s| && r == s[|s| - |r|..]
    ensures forall k :: 0 <= k < |s| - |r| ==> s[k] == c
    ensures r == [] || r[0] != c
  {
    if |s| > 0 && s[0] == c then LStripChar(s[1..], c) else s
  }

  lemma {:induction false} LStripCharRun(run: string, x: string, c: char)
    requires forall k :: 0 <= k < |run| ==> run[k] == c
    requires x == [] || x[0] != c
    ensures LStripChar(run + x, c) == x
    decreases |run|
  {
    if run != [] {
      assert (run + x)[1..] == run[1..] + x;
      LStripCharRun(run[1..], x, c);
    } else {
      assert run + x == x;
    }
  }

  lemma {:induction false} RStripCharRun(x: string, run: string, c: char)
    requires forall k :: 0 <= k < |run| ==> run[k] == c
    requires x == [] || x[|x| - 1] != c
    ensures RStripChar(x + run, c) == x
    decreases |run|
  {
    if run != [] {
      assert (x + run)[..|x + run| - 1] == x + run[..|run| - 1];
      RStripCharRun(x, run[..|run| - 1], c);
    } else {
      assert x + run == x;
    }
  }

  /** `s.strip(c)` for a one-character argument. */
  function StripChar(s: string, c: char): (r: string)
    ensures |r| <= |s|
    ensures r == [] || (r[0] != c && r[|r| - 1] != c)
  {
    RStripChar(LStripChar(s, c), c)
  }

  // ---------------------------------------------------------------- prefixes and search

  predicate StartsWith(s: string, p: string) { |p| <= |s| && s[..|p|] == p }

  /** The first character decides a one-character prefix test. */
  lemma StartsWithHead(s: string, p: string)
    requires |s| > 0 && |p| > 0
    ensures StartsWith(s, p) ==> s[0] == p[0]
    ensures |p| == 1 ==> (StartsWith(s, p) <==> s[0] == p[0])
  {
    if StartsWith(s, p) {
      assert s[..|p|][0] == s[0];
    }
    if |p| == 1 && s[0] == p[0] {
      assert s[..1] == [s[0]];
    }
  }

  /** The last character decides a one-character suffix test. */
  lemma EndsWithLast(s: string, p: string)
    requires |s| > 0 && |p| > 0
    ensures EndsWith(s, p) ==> s[|s| - 1] == p[|p| - 1]
    ensures |p| == 1 ==> (EndsWith(s, p) <==> s[|s| - 1] == p[0])
  {
    if EndsWith(s, p) {
      assert s[|s| - |p|..][|p| - 1] == s[|s| - 1];
    }
    if |p| == 1 && s[|s| - 1] == p[0] {
      assert s[|s| - 1..] == [s[|s| - 1]];
    }
  }

  predicate EndsWith(s: string, p: string) { |p| <= |s| && s[|s| - |p|..] == p }

  predicate OccursAt(s: string, p: string, i: int) {
    0 <= i && i + |p| <= |s| && s[i..i + |p|] == p
  }

  /** `s.find(p, start)`: the first index at or after `start` where `p` occurs, or -1. */
  function FindFrom(s: string, p: string, start: nat): (r: int)
    ensures r == -1 || (start <= r && OccursAt(s, p, r))
    ensures r == -1 ==> forall i :: start <= i ==> !OccursAt(s, p, i)
    ensures r >= 0 ==> forall i :: start <= i < r ==> !OccursAt(s, p, i)
    decreases |s| - start
  {
    if start + |p| > |s| then -1
    else if s[start..start + |p|] == p then start
    else FindFrom(s, p, start + 1)
  }

  /** `s.find(p)` */
  function Find(s: string, p: string): (r: int)
    ensures r == -1 || OccursAt(s, p, r)
    ensures r == -1 <==> forall i :: !OccursAt(s, p, i)
    ensures r >= 0 ==> forall i :: 0 <= i < r ==> !OccursAt(s, p, i)
  {
    FindFrom(s, p, 0)
  }

  /** `p in s` */
  predicate Contains(s: string, p: string) { Find(s, p) >= 0 }

  /** Does one of `words` occur in `s`? (`any(w in s for w in words)`) */
  predicate AnyIn(s: string, words: seq<string>) {
    words != [] && (Contains(s, words[0]) || AnyIn(s, words[1..]))
  }

  /** The value of the first table row one of whose words occurs in `s`: an if-chain of `in` tests, as a table. */
  function FirstKeyword<T>(s: string, table: seq<(seq<string>, T)>): (r: Option<T>)
    ensures r.None? <==> forall i :: 0 <= i < |table| ==> !AnyIn(s, table[i].0)
    ensures r.Some? ==> exists i :: 0 <= i < |table| && AnyIn(s, table[i].0) && table[i].1 == r.value
                          && forall j :: 0 <= j < i ==> !AnyIn(s, table[j].0)
  {
    FirstKeywordFrom(s, table, 0)
  }

  /** The table search from row `i` on. */
  function FirstKeywordFrom<T>(s: string, table: seq<(seq<string>, T)>, i: nat): (r: Option<T>)
    requires i <= |table|
    ensures r.None? <==> forall j :: i <= j < |table| ==> !AnyIn(s, table[j].0)
    ensures r.Some? ==> exists j :: i <= j < |table| && AnyIn(s, table[j].0) && table[j].1 == r.value
                          && forall l :: i <= l < j ==> !AnyIn(s, table[l].0)
    decreases |table| - i
  {
    if i == |table| then None
    else if AnyIn(s, table[i].0) then Some(table[i].1)
    else
      // row `i` is skipped, so the rows skipped from `i + 1` on extend to `i`
      assert forall l :: i <= l < i + 1 ==> !AnyIn(s, table[l].0);
      FirstKeywordFrom(s, table, i + 1)
  }

  /** `s.rfind(c)` for a one-character argument: the last index of `c`, or -1. */
  function RFindChar(s: string, c: char): (r: int)
    ensures -1 <= r < |s|
    ensures r >= 0 ==> s[r] == c
    ensures forall k :: r < k < |s| ==> s[k] != c
  {
    if |s| == 0 then -1
    else if s[|s| - 1] == c then |s| - 1
    else RFindChar(s[..|s| - 1], c)
  }

  // ---------------------------------------------------------------- case

  /** `c.lower()`: ASCII letters, plus the two non-ASCII characters whose lower case contains an ASCII letter. */
  function LowerChar(c: char): (r: string)
    ensures |r| >= 1
    ensures c < '\U{80}' ==> |r| == 1
  {
    if 'A' <= c <= 'Z' then [(c as int + 32) as char]
    else if c == '\U{130}' then "i\U{307}"
    else if c == '\U{212A}' then "k"
    else [c]
  }

  /**
   * `s.lower()`. Exact on ASCII and on every character whose lower case
   * involves an ASCII letter; other non-ASCII characters are kept as they are.
   */
  function Lower(s: string): (r: string)
    ensures |r| >= |s|
    ensures IsAscii(s) ==> |r| == |s| && forall k :: 0 <= k < |s| ==> r[k] == LowerChar(s[k])[0]
  {
    if s == [] then [] else LowerChar(s[0]) + Lower(s[1..])
  }

  /** No ASCII upper-case letter in `s`. */
  predicate NoUpper(s: string) { forall k :: 0 <= k < |s| ==> !('A' <= s[k] <= 'Z') }

  /** Lower-casing text that is already lower-case ASCII changes nothing. */
  lemma LowerFixed(s: string)
    requires IsAscii(s) && NoUpper(s)
    ensures Lower(s) == s
  {
    assert forall k :: 0 <= k < |s| ==> Lower(s)[k] == LowerChar(s[k])[0];
  }

  /** Case mapping one character at a time: each character's image, in order. */
  function FlatMap(f: char -> string, s: string): string {
    if s == [] then [] else f(s[0]) + FlatMap(f, s[1..])
  }

  /** Mapping a concatenation maps each part. */
  lemma {:induction false} FlatMapConcat(f: char -> string, a: string, b: string)
    ensures FlatMap(f, a + b) == FlatMap(f, a) + FlatMap(f, b)
    decreases |a|
  {
    if a != [] {
      assert (a + b)[0] == a[0] && (a + b)[1..] == a[1..] + b;
      FlatMapConcat(f, a[1..], b);
    } else {
      assert a + b == b;
    }
  }

  lemma {:induction false} LowerIsFlatMap(s: string)
    ensures Lower(s) == FlatMap(LowerChar, s)
    decreases |s|
  {
    if s != [] {
      LowerIsFlatMap(s[1..]);
    }
  }

  lemma LowerConcat(a: string, b: string)
    ensures Lower(a + b) == Lower(a) + Lower(b)
  {
    LowerIsFlatMap(a + b);
    LowerIsFlatMap(a);
    LowerIsFlatMap(b);
    FlatMapConcat(LowerChar, a, b);
  }

  /** Lower-casing twice is lower-casing once. */
  lemma {:induction false} LowerIdempotent(s: string)
    ensures Lower(Lower(s)) == Lower(s)
    decreases |s|
  {
    if s != [] {
      var head, tail := LowerChar(s[0]), Lower(s[1..]);
      assert Lower(s) == head + tail;
      LowerConcat(head, tail);
      LowerCharFixed(s[0]);
      LowerIdempotent(s[1..]);
    }
  }

  /** A lower-cased character lower-cases to itself. */
  lemma LowerCharFixed(c: char)
    ensures Lower(LowerChar(c)) == LowerChar(c)
  {
    var h := LowerChar(c);
    if 'A' <= c <= 'Z' || c == '\U{212A}' {
      assert Lower(h) == LowerChar(h[0]) + Lower([]);
    } else if c == '\U{130}' {
      assert h == ['i'] + ['\U{307}'];
      LowerConcat(['i'], ['\U{307}']);
    } else {
      assert Lower(h) == LowerChar(h[0]) + Lower([]);
    }
  }

  /** Lower-casing never turns the first or last character of stripped text into whitespace. */
  lemma LowerKeepsEnds(s: string)
    requires s == [] || (!IsSpace(s[0]) && !IsSpace(s[|s| - 1]))
    ensures Lower(s) == [] || (!IsSpace(Lower(s)[0]) && !IsSpace(Lower(s)[|Lower(s)| - 1]))
  {
    if s != [] {
      var n := |s| - 1;
      LowerCharNotSpace(s[0]);
      LowerCharNotSpace(s[n]);
      assert s == s[..n] + [s[n]];
      LowerConcat(s[..n], [s[n]]);
      assert Lower([s[n]]) == LowerChar(s[n]);
    }
  }

  lemma LowerCharNotSpace(c: char)
    requires !IsSpace(c)
    ensures !IsSpace(LowerChar(c)[0]) && !IsSpace(LowerChar(c)[|LowerChar(c)| - 1])
  {
  }

  /** `c.upper()`: ASCII letters and the characters whose upper case is or starts with an ASCII letter. */
  function UpperChar(c: char): (r: string)
    ensures |r| >= 1
    ensures c < '\U{80}' ==> |r| == 1
  {
    if 'a' <= c <= 'z' then [(c as int - 32) as char]
    else if c == '\U{DF}' then "SS"
    else if c == '\U{131}' then "I"
    else if c == '\U{17F}' then "S"
    else if c == '\U{149}' then "\U{2BC}N"
    else if c == '\U{1F0}' then "J\U{30C}"
    else if c == '\U{1E96}' then "H\U{331}"
    else if c == '\U{1E97}' then "T\U{308}"
    else if c == '\U{1E98}' then "W\U{30A}"
    else if c == '\U{1E99}' then "Y\U{30A}"
    else if c == '\U{1E9A}' then "A\U{2BE}"
    else if c == '\U{FB00}' then "FF"
    else if c == '\U{FB01}' then "FI"
    else if c == '\U{FB02}' then "FL"
    else if c == '\U{FB03}' then "FFI"
    else if c == '\U{FB04}' then "FFL"
    else if c == '\U{FB05}' || c == '\U{FB06}' then "ST"
    else [c]
  }

  /** `s.upper()`, with the same coverage as `UpperChar`. */
  function Upper(s: string): (r: string)
    ensures |r| >= |s|
    ensures IsAscii(s) ==> |r| == |s| && forall k :: 0 <= k < |s| ==> r[k] == UpperChar(s[k])[0]
  {
    if s == [] then [] else UpperChar(s[0]) + Upper(s[1..])
  }

  /** Upper-casing ASCII text is upper-casing it character by character. */
  lemma UpperAscii(s: string, t: string)
    requires IsAscii(s) && |t| == |s|
    requires forall k :: 0 <= k < |s| ==> t[k] == UpperChar(s[k])[0]
    ensures Upper(s) == t
  {
    var r := Upper(s);
    assert forall k :: 0 <= k < |s| ==> r[k] == t[k];
  }

  lemma {:induction false} UpperIsFlatMap(s: string)
    ensures Upper(s) == FlatMap(UpperChar, s)
    decreases |s|
  {
    if s != [] {
      UpperIsFlatMap(s[1..]);
    }
  }

  lemma UpperConcat(a: string, b: string)
    ensures Upper(a + b) == Upper(a) + Upper(b)
  {
    UpperIsFlatMap(a + b);
    UpperIsFlatMap(a);
    UpperIsFlatMap(b);
    FlatMapConcat(UpperChar, a, b);
  }

  /** Upper-casing keeps every occurrence: what `s` contains, `s.upper()` contains upper-cased. */
  lemma ContainsUpper(s: string, w: string)
    requires Contains(s, w)
    ensures Contains(Upper(s), Upper(w))
  {
    var i := Find(s, w);
    var pre, post := s[..i], s[i + |w|..];
    assert s == pre + w + post;
    UpperConcat(pre + w, post);
    UpperConcat(pre, w);
    var u := Upper(s);
    assert u == Upper(pre) + Upper(w) + Upper(post);
    assert OccursAt(u, Upper(w), |Upper(pre)|) by {
      assert u[|Upper(pre)|..|Upper(pre)| + |Upper(w)|] == Upper(w);
    }
  }

  /**
   * Under `re.IGNORECASE`, does the subject character `c` match the pattern
   * character `x`? For an ASCII letter this accepts both cases and the
   * non-ASCII characters CPython's matcher folds onto it (dotted and dotless i,
   * the long s and the Kelvin sign).
   */
  predicate CiChar(c: char, x: char) {
    if 'a' <= x <= 'z' then
      c == x || c as int == x as int - 32
      || (x == 'i' && (c == '\U{130}' || c == '\U{131}'))
      || (x == 's' && c == '\U{17F}')
      || (x == 'k' && c == '\U{212A}')
    else c == x
  }

  /** Does the pattern word `w` (written in lower case) match `s` at index `i` under IGNORECASE? */
  predicate CiWordAt(s: string, i: nat, w: string) {
    i + |w| <= |s| && forall k :: 0 <= k < |w| ==> CiChar(s[i + k], w[k])
  }

  /** `s.replace(a, b)` for single characters. */
  function ReplaceChar(s: string, a: char, b: char): (r: string)
    ensures |r| == |s|
    ensures forall k :: 0 <= k < |s| ==> r[k] == (if s[k] == a then b else s[k])
  {
    if s == [] then [] else [if s[0] == a then b else s[0]] + ReplaceChar(s[1..], a, b)
  }

  // ---------------------------------------------------------------- join

  /** `sep.join(parts)` */
  function Join(sep: string, parts: seq<string>): (r: string)
    ensures parts == [] ==> r == []
    ensures |parts| == 1 ==> r == parts[0]
    ensures |parts| >= 1 ==> StartsWith(r, parts[0])
  {
    if parts == [] then []
    else if |parts| == 1 then parts[0]
    else parts[0] + sep + Join(sep, parts[1..])
  }

  /** Joining `k + 1` parts puts `sep` between the first part and the join of the rest. */
  lemma JoinCons(sep: string, parts: seq<string>)
    requires |parts| >= 2
    ensures Join(sep, parts) == parts[0] + sep + Join(sep, parts[1..])
  {
  }

  /** Joining one more part appends the separator and that part. */
  lemma {:induction false} JoinSnoc(sep: string, parts: seq<string>, x: string)
    requires |parts| >= 1
    ensures Join(sep, parts + [x]) == Join(sep, parts) + sep + x
    decreases |parts|
  {
    var all := parts + [x];
    if |parts| == 1 {
      assert all[1..] == [x];
    } else {
      assert all[1..] == parts[1..] + [x];
      JoinSnoc(sep, parts[1..], x);
    }
  }

  /** `c` does not occur in `s`. */
  predicate Free(s: string, c: char) { forall k :: 0 <= k < |s| ==> s[k] != c }

  /** `s.split(c)` for a one-character separator: the pieces between the occurrences of `c`. */
  function SplitChar(s: string, c: char): (r: seq<string>)
    ensures |r| >= 1
    ensures forall i :: 0 <= i < |r| ==> Free(r[i], c)
    ensures Free(s, c) ==> r == [s]
  {
    if s == [] then [[]]
    else
      var rest := SplitChar(s[1..], c);
      assert [s[0]] + s[1..] == s;
      assert Free(s, c) ==> Free(s[1..], c) by {
        if Free(s, c) {
          forall k | 0 <= k < |s| - 1 ensures s[1..][k] != c {
            assert s[1..][k] == s[k + 1];
          }
        }
      }
      if s[0] == c then [[]] + rest else [[s[0]] + rest[0]] + rest[1..]
  }

  /** A piece free of the separator, then the separator, splits off as one piece. */
  lemma {:induction false} SplitPiece(p: string, rest: string, c: char)
    requires Free(p, c)
    ensures SplitChar(p + [c] + rest, c) == [p] + SplitChar(rest, c)
    decreases |p|
  {
    if p == [] {
      assert p + [c] + rest == [c] + rest;
      assert ([c] + rest)[1..] == rest;
    } else {
      var s := p + [c] + rest;
      assert s[0] == p[0] && s[1..] == p[1..] + [c] + rest;
      SplitPiece(p[1..], rest, c);
      assert [p[0]] + p[1..] == p;
    }
  }

  /** Splitting undoes joining, when no part holds the separator. */
  lemma {:induction false} SplitJoin(parts: seq<string>, c: char)
    requires parts != []
    requires forall i :: 0 <= i < |parts| ==> Free(parts[i], c)
    ensures SplitChar(Join([c], parts), c) == parts
    decreases |parts|
  {
    if |parts| > 1 {
      JoinCons([c], parts);
      SplitPiece(parts[0], Join([c], parts[1..]), c);
      SplitJoin(parts[1..], c);
    }
  }

  // ---------------------------------------------------------------- integers

  function DigitChar(d: nat): (c: char)
    requires d < 10
    ensures IsDigit(c)
  {
    ('0' as int + d) as char
  }

  function DigitValue(c: char): (d: nat)
    requires IsDigit(c)
    ensures d < 10 && DigitChar(d) == c
  {
    c as int - '0' as int
  }

  predicate AllDigits(s: string) { forall k :: 0 <= k < |s| ==> IsDigit(s[k]) }

  /** The number a string of decimal digits denotes. */
  function DigitsValue(s: string): nat
    requires AllDigits(s)
  {
    if s == [] then 0 else DigitsValue(s[..|s| - 1]) * 10 + DigitValue(s[|s| - 1])
  }

  /** `str(n)` for a natural number: decimal digits without leading zeros. */
  function NatToString(n: nat): (r: string)
    ensures |r| >= 1 && AllDigits(r)
    ensures r[0] == '0' ==> |r| == 1
  {
    if n < 10 then [DigitChar(n)] else NatToString(n / 10) + [DigitChar(n % 10)]
  }

  /** `str(i)` */
  function IntToString(i: int): (r: string)
    ensures |r| >= 1
    ensures i >= 0 ==> r == NatToString(i)
    ensures i < 0 ==> r == "-" + NatToString(-i)
  {
    if i >= 0 then NatToString(i) else "-" + NatToString(-i)
  }

  lemma {:induction false} NatToStringValue(n: nat)
    ensures DigitsValue(NatToString(n)) == n
  {
    if n >= 10 {
      NatToStringValue(n / 10);
      var s := NatToString(n);
      assert s[..|s| - 1] == NatToString(n / 10);
    }
  }

  /**
   * A digit run as `int()` accepts it: digits, with single underscores allowed
   * between two digits.
   */
  predicate DigitRun(s: string) {
    |s| > 0 && IsDigit(s[0]) && IsDigit(s[|s| - 1])
    && (forall k :: 0 <= k < |s| ==> IsDigit(s[k]) || s[k] == '_')
    && (forall k :: 0 <= k < |s| - 1 ==> s[k] == '_' ==> s[k + 1] != '_')
  }

  /** The digits of a digit run, underscores dropped. */
  function DropUnderscores(s: string): (r: string)
    requires forall k :: 0 <= k < |s| ==> IsDigit(s[k]) || s[k] == '_'
    ensures AllDigits(r) && |r| <= |s|
    ensures AllDigits(s) ==> r == s
  {
    if s == [] then []
    else (if s[0] == '_' then [] else [s[0]]) + DropUnderscores(s[1..])
  }

  /**
   * `int(s)` for a decimal string: surrounding whitespace is ignored, an
   * optional sign is accepted, and `None` stands for the `ValueError`.
   */
  function ParseInt(s: string): (r: Option<int>)
    ensures IsBlank(s) ==> r == None
    ensures r.Some? ==> exists k :: 0 <= k < |s| && IsDigit(s[k])
  {
    var t := Strip(s);
    var r := SignedDigits(t);
    if r.Some? then
      assert t[|t| - 1] == s[StripOffset(s) + |t| - 1];
      r
    else r
  }

  /** The digits of `int(s)` once the whitespace is gone: an optional sign and a digit run. */
  function SignedDigits(t: string): (r: Option<int>)
    ensures r.Some? ==> t != [] && IsDigit(t[|t| - 1])
  {
    var neg := |t| > 0 && t[0] == '-';
    var body := if |t| > 0 && (t[0] == '+' || t[0] == '-') then t[1..] else t;
    if DigitRun(body) then
      var v: int := DigitsValue(DropUnderscores(body));
      assert body[|body| - 1] == t[|t| - 1];
      Some(if neg then -v else v)
    else None
  }

  /** A digit string with no leading zero is its own underscore-free digit run. */
  lemma NatToStringIsDigitRun(n: nat)
    ensures DigitRun(NatToString(n)) && DropUnderscores(NatToString(n)) == NatToString(n)
  {
  }

  /** `int(str(i)) == i` for every integer. */
  lemma ParseIntToString(i: int)
    ensures ParseInt(IntToString(i)) == Some(i)
  {
    if i >= 0 {
      ParseNatString(i);
    } else {
      ParseNegativeString(i);
    }
  }

  lemma ParseNatString(i: nat)
    ensures ParseInt(IntToString(i)) == Some(i)
  {
    var d := NatToString(i);
    NatToStringValue(i);
    NatToStringIsDigitRun(i);
    assert IntToString(i) == d;
    ParseDigits(d, i);
  }

  lemma ParseNegativeString(i: int)
    requires i < 0
    ensures ParseInt(IntToString(i)) == Some(i)
  {
    var n: nat := -i;
    var d := NatToString(n);
    NatToStringValue(n);
    NatToStringIsDigitRun(n);
    assert IntToString(i) == "-" + d;
    ParseNegative(d, n);
  }

  /** A digit run is read as its value. */
  lemma ParseDigits(d: string, v: nat)
    requires DigitRun(d) && DigitsValue(DropUnderscores(d)) == v
    ensures ParseInt(d) == Some(v)
  {
    assert !IsSpace(d[0]) && !IsSpace(d[|d| - 1]);
    StripOfTrimmed(d);
    assert d[0] != '+' && d[0] != '-';
  }

  /** A minus sign before a digit run negates its value. */
  lemma ParseNegative(d: string, v: nat)
    requires DigitRun(d) && DigitsValue(DropUnderscores(d)) == v
    ensures ParseInt("-" + d) == Some(-(v as int))
  {
    NegativeTrimmed(d);
  }

  lemma NegativeTrimmed(d: string)
    requires DigitRun(d)
    ensures Strip("-" + d) == "-" + d && ("-" + d)[0] == '-' && ("-" + d)[1..] == d
  {
    var s := "-" + d;
    assert s[|s| - 1] == d[|d| - 1];
    assert !IsSpace(s[0]) && !IsSpace(s[|s| - 1]);
    StripOfTrimmed(s);
  }
}
