/**
 * The reference sub-language of test files (class `Expression`).
 *
 * A reference is a key, optionally followed by a call suffix `(parameter?)`
 * or an index suffix `[index]`. `GetExpression` turns one of the three
 * expression types into a pattern: its delimiters and whether it is anchored.
 * The source compiles that pattern to a PCRE regular expression; the model
 * recognises the same language by hand:
 *
 *  - the key is `[a-zA-Z][a-zA-Z0-9\-_]{1,}`; none of `(`, `[`, `}` or the end
 *    of the subject is a key character, so a match always takes the longest
 *    run of key characters;
 *  - a parameter is `[a-zA-Z][a-zA-Z0-9\-_]{1,}|(['"]?)[a-zA-Z0-9\-_]{1,}\5`:
 *    one or more key characters, optionally wrapped in a pair of equal quotes;
 *    it cannot contain `)`, so it runs up to the first `)`;
 *  - an index is `[1-9]*[0-9]`: digits of which all but the last are non-zero;
 *    it runs up to the first `]`;
 *  - an anchored pattern (`^...$`) matches at the start of the subject only and
 *    must end at the end of the subject or just before a final "\n" (PCRE's `$`
 *    without the D modifier).
 */
module Expression {
  import opened Wrappers
  import opened Strings

  /** Expression types, `Expression::EXPRESSION_TYPE_*`. */
  const TYPE_PLAIN := "plain"
  const TYPE_REPLACE := "replace"
  const TYPE_INLINE_REPLACE := "inline_replace"

  /** Reference modes, `Globals::KEY_*`: a bare key, a call, or an element access. */
  datatype Mode =
    | Variable
    | Function(parameter: Option<string>)
    | ArrayIndex(index: string)

  /** A parsed reference; `Function(None)` is the record without a `parameters` field. */
  datatype Expr = Expr(key: string, mode: Mode)

  predicate IsLetter(c: char) {
    ('a' <= c <= 'z') || ('A' <= c <= 'Z')
  }

  predicate IsDigit(c: char) {
    '0' <= c <= '9'
  }

  /** The class `[a-zA-Z0-9\-_]`. */
  predicate IsKeyChar(c: char) {
    IsLetter(c) || IsDigit(c) || c == '-' || c == '_'
  }

  predicate AllKeyChars(s: string) {
    forall k :: 0 <= k < |s| ==> IsKeyChar(s[k])
  }

  /** `PATTERN_KEY`: a letter followed by at least one key character. */
  predicate IsKey(s: string) {
    |s| >= 2 && IsLetter(s[0]) && AllKeyChars(s)
  }

  predicate IsQuote(c: char) {
    c == '\'' || c == '"'
  }

  /** `PATTERN_FUNCTION_PARAMETER`: key characters, bare or between two equal quotes. */
  predicate IsParameter(s: string) {
    (|s| >= 1 && AllKeyChars(s))
    || (|s| >= 3 && IsQuote(s[0]) && s[|s| - 1] == s[0] && AllKeyChars(s[1..|s| - 1]))
  }

  /** `PATTERN_ARRAY_INDEX`: `[1-9]*[0-9]`. */
  predicate IsIndex(s: string) {
    |s| >= 1 && IsDigit(s[|s| - 1]) && forall k :: 0 <= k < |s| - 1 ==> '1' <= s[k] <= '9'
  }

  /** The references the grammar admits. */
  predicate WellFormed(e: Expr) {
    && IsKey(e.key)
    && (e.mode.Function? && e.mode.parameter.Some? ==> IsParameter(e.mode.parameter.value))
    && (e.mode.ArrayIndex? ==> IsIndex(e.mode.index))
  }

  /** The text of a reference, without delimiters. */
  function Render(e: Expr): string {
    e.key + match e.mode {
      case Variable => ""
      case Function(None) => "()"
      case Function(Some(p)) => "(" + p + ")"
      case ArrayIndex(i) => "[" + i + "]"
    }
  }

  /**
   * `getPrefixSuffix`: the delimiters of an expression type and its anchors;
   * an unknown type has neither.
   */
  function GetPrefixSuffix(expressionType: string): (r: (string, string, string, string))
    ensures expressionType == TYPE_PLAIN ==> r == ("", "", "^", "$")
    ensures expressionType == TYPE_REPLACE ==> r == ("{{{", "}}}", "^", "$")
    ensures expressionType == TYPE_INLINE_REPLACE ==> r == ("{{", "}}", "", "")
    ensures expressionType !in {TYPE_PLAIN, TYPE_REPLACE, TYPE_INLINE_REPLACE} ==> r == ("", "", "", "")
  {
    if expressionType == TYPE_PLAIN then ("", "", "^", "$")
    else if expressionType == TYPE_REPLACE then ("{{{", "}}}", "^", "$")
    else if expressionType == TYPE_INLINE_REPLACE then ("{{", "}}", "", "")
    else ("", "", "", "")
  }

  /** A compiled expression: delimiters around the reference grammar, with or without anchors. */
  datatype Pattern = Pattern(prefix: string, suffix: string, anchorStart: bool, anchorEnd: bool)

  /** `getExpression`, as the pattern it builds. */
  function GetExpression(expressionType: string): Pattern {
    var (prefix, suffix, patternPrefix, patternSuffix) := GetPrefixSuffix(expressionType);
    Pattern(prefix, suffix, patternPrefix == "^", patternSuffix == "$")
  }

  /** The end of the run of key characters that starts at `j`. */
  function KeyEnd(s: string, j: nat): (e: nat)
    requires j <= |s|
    ensures j <= e <= |s|
    ensures AllKeyChars(s[j..e])
    ensures e == |s| || !IsKeyChar(s[e])
    decreases |s| - j
  {
    if j < |s| && IsKeyChar(s[j]) then
      var e := KeyEnd(s, j + 1);
      assert s[j..e] == [s[j]] + s[j + 1..e];
      e
    else j
  }

  /** The first position at or after `j` that holds `c`. */
  function FindChar(s: string, j: nat, c: char): (r: Option<nat>)
    requires j <= |s|
    ensures r.Some? ==> j <= r.value < |s| && s[r.value] == c
    ensures r.Some? ==> forall k :: j <= k < r.value ==> s[k] != c
    ensures r.None? ==> forall k :: j <= k < |s| ==> s[k] != c
    decreases |s| - j
  {
    if j == |s| then None
    else if s[j] == c then Some(j)
    else FindChar(s, j + 1, c)
  }

  /**
   * The reference that starts at `j` and where it ends: the longest key, then a
   * call suffix or an index suffix when one follows, otherwise nothing. When a
   * suffix is opened but malformed, the bare key is returned; what follows it
   * (`(` or `[`) then fails every delimiter and anchor, as it does for the
   * regular expression.
   */
  function ValueAt(s: string, j: nat): (r: Option<(Expr, nat)>)
    requires j <= |s|
    ensures r.Some? ==> j < r.value.1 <= |s|
    ensures r.Some? ==> WellFormed(r.value.0) && s[j..r.value.1] == Render(r.value.0)
  {
    var e := KeyEnd(s, j);
    if e - j < 2 || !IsLetter(s[j]) then None
    else
      var key := s[j..e];
      assert IsKey(key);
      var bare := Some((Expr(key, Variable), e));
      if e < |s| && s[e] == '(' then
        match CallAt(s, j, e)
        case None => bare
        case Some(call) => Some(call)
      else if e < |s| && s[e] == '[' then
        match IndexAt(s, j, e)
        case None => bare
        case Some(element) => Some(element)
      else bare
  }

  /** A call suffix `(parameter?)` after the key `s[j..e]`, if a well-formed one follows. */
  function CallAt(s: string, j: nat, e: nat): (r: Option<(Expr, nat)>)
    requires j < e < |s| && s[e] == '(' && IsKey(s[j..e])
    ensures r.Some? ==> e < r.value.1 <= |s|
    ensures r.Some? ==> WellFormed(r.value.0) && s[j..r.value.1] == Render(r.value.0)
  {
    match FindChar(s, e + 1, ')')
    case None => None
    case Some(c) =>
      SliceAround(s, j, e, c);
      if c == e + 1 then
        assert s[e + 1..c] == [];
        Some((Expr(s[j..e], Function(None)), c + 1))
      else if IsParameter(s[e + 1..c]) then
        Some((Expr(s[j..e], Function(Some(s[e + 1..c]))), c + 1))
      else None
  }

  /** An index suffix `[index]` after the key `s[j..e]`, if a well-formed one follows. */
  function IndexAt(s: string, j: nat, e: nat): (r: Option<(Expr, nat)>)
    requires j < e < |s| && s[e] == '[' && IsKey(s[j..e])
    ensures r.Some? ==> e < r.value.1 <= |s|
    ensures r.Some? ==> WellFormed(r.value.0) && s[j..r.value.1] == Render(r.value.0)
  {
    match FindChar(s, e + 1, ']')
    case None => None
    case Some(c) =>
      SliceAround(s, j, e, c);
      if IsIndex(s[e + 1..c]) then
        Some((Expr(s[j..e], ArrayIndex(s[e + 1..c])), c + 1))
      else None
  }

  /** A slice cut into a front, one character, a middle and one character. */
  lemma SliceAround(s: string, j: nat, e: nat, c: nat)
    requires j <= e < c < |s|
    ensures s[j..c + 1] == s[j..e] + [s[e]] + s[e + 1..c] + [s[c]]
  {
  }

  /** One match: the parsed reference, the text of the `value` group, and where the match ends. */
  datatype Match = Match(expr: Expr, value: string, end: nat)

  /** The match of `p` that starts at position `i` of `s`, if there is one. */
  function MatchAt(p: Pattern, s: string, i: nat): (r: Option<Match>)
    requires i <= |s|
    ensures r.Some? ==> i < r.value.end <= |s|
    ensures r.Some? ==> WellFormed(r.value.expr) && r.value.value == Render(r.value.expr)
    ensures r.Some? ==> r.value.end == i + |p.prefix| + |r.value.value| + |p.suffix|
    ensures r.Some? ==> s[i..r.value.end] == p.prefix + r.value.value + p.suffix
    ensures !p.anchorStart && OccursAt(s, p.prefix, i) && i + |p.prefix| <= |s| && ValueAt(s, i + |p.prefix|).Some? ==>
      r == MatchAfter(p, s, i, ValueAt(s, i + |p.prefix|).value.0, ValueAt(s, i + |p.prefix|).value.1)
  {
    if p.anchorStart && i != 0 then None
    else if !OccursAt(s, p.prefix, i) then None
    else
      match ValueAt(s, i + |p.prefix|)
      case None => None
      case Some((expr, valueEnd)) => MatchAfter(p, s, i, expr, valueEnd)
  }

  /** The rest of a match once the prefix and the reference `s[i + |p.prefix|..valueEnd]` are read. */
  function MatchAfter(p: Pattern, s: string, i: nat, expr: Expr, valueEnd: nat): (r: Option<Match>)
    requires OccursAt(s, p.prefix, i) && i + |p.prefix| < valueEnd <= |s|
    requires WellFormed(expr) && s[i + |p.prefix|..valueEnd] == Render(expr)
    ensures r.Some? ==> i < r.value.end <= |s|
    ensures r.Some? ==> WellFormed(r.value.expr) && r.value.value == Render(r.value.expr)
    ensures r.Some? ==> r.value.end == i + |p.prefix| + |r.value.value| + |p.suffix|
    ensures r.Some? ==> s[i..r.value.end] == p.prefix + r.value.value + p.suffix
  {
    if !OccursAt(s, p.suffix, valueEnd) then None
    else
      var end := valueEnd + |p.suffix|;
      if p.anchorEnd && !(end == |s| || (end == |s| - 1 && s[end] == '\n')) then None
      else
        SliceSplit(s, i, i + |p.prefix|, valueEnd, end);
        Some(Match(expr, s[i + |p.prefix|..valueEnd], end))
  }

  /** An unanchored pattern matches a reference between its delimiters. */
  lemma ReferenceMatchAt(p: Pattern, s: string, i: nat, expr: Expr, e: nat)
    requires !p.anchorStart && !p.anchorEnd && OccursAt(s, p.prefix, i)
    requires i + |p.prefix| <= |s| && ValueAt(s, i + |p.prefix|) == Some((expr, e))
    requires OccursAt(s, p.suffix, e)
    ensures MatchAt(p, s, i) == Some(Match(expr, s[i + |p.prefix|..e], e + |p.suffix|))
  {
    UnanchoredMatchAt(p, s, i, expr, e);
    UnanchoredMatchAfter(p, s, i, expr, e);
  }

  /** Past its opening delimiter, an unanchored match depends only on the reference read there. */
  lemma UnanchoredMatchAt(p: Pattern, s: string, i: nat, expr: Expr, e: nat)
    requires !p.anchorStart && OccursAt(s, p.prefix, i)
    requires i + |p.prefix| <= |s| && ValueAt(s, i + |p.prefix|) == Some((expr, e))
    ensures MatchAt(p, s, i) == MatchAfter(p, s, i, expr, e)
  {
  }

  /** Once the reference is read, an unanchored pattern needs only its closing delimiter. */
  lemma UnanchoredMatchAfter(p: Pattern, s: string, i: nat, expr: Expr, e: nat)
    requires OccursAt(s, p.prefix, i) && i + |p.prefix| < e <= |s|
    requires WellFormed(expr) && s[i + |p.prefix|..e] == Render(expr)
    requires !p.anchorEnd && OccursAt(s, p.suffix, e)
    ensures MatchAfter(p, s, i, expr, e) == Some(Match(expr, s[i + |p.prefix|..e], e + |p.suffix|))
  {
  }

  lemma SliceSplit(s: string, a: nat, b: nat, c: nat, d: nat)
    requires a <= b <= c <= d <= |s|
    ensures s[a..d] == s[a..b] + s[b..c] + s[c..d]
  {
  }

  /** `preg_match_all`: successive non-overlapping matches, scanning from the left. */
  function FindAllFrom(p: Pattern, s: string, i: nat): (r: seq<Match>)
    requires i <= |s|
    ensures forall k :: 0 <= k < |r| ==> WellFormed(r[k].expr) && r[k].value == Render(r[k].expr)
    decreases |s| - i
  {
    if i == |s| then
      match MatchAt(p, s, i)
      case None => []
      case Some(m) => [m]
    else
      match MatchAt(p, s, i)
      case None => FindAllFrom(p, s, i + 1)
      case Some(m) => [m] + FindAllFrom(p, s, m.end)
  }

  function FindAll(p: Pattern, s: string): seq<Match> {
    FindAllFrom(p, s, 0)
  }

  /** `parse`: the reference that the whole string spells (anchored plain pattern), or null. */
  function Parse(value: string): Option<Expr> {
    match MatchAt(GetExpression(TYPE_PLAIN), value, 0)
    case None => None
    case Some(m) => Some(m.expr)
  }

  /** A string that is exactly `{{{reference}}}` (anchored replace pattern): the text of its reference. */
  function ReplaceMatch(value: string): Option<string> {
    match MatchAt(GetExpression(TYPE_REPLACE), value, 0)
    case None => None
    case Some(m) => Some(m.value)
  }

  /** The texts of the references in every `{{reference}}` of a string (inline pattern). */
  function InlineMatches(value: string): (r: seq<string>)
    ensures forall k :: 0 <= k < |r| ==> Parse(r[k]).Some?
  {
    var ms := FindAll(GetExpression(TYPE_INLINE_REPLACE), value);
    var r := seq(|ms|, k requires 0 <= k < |ms| => ms[k].value);
    forall k | 0 <= k < |r| ensures Parse(r[k]).Some? {
      RenderParses(ms[k].expr);
    }
    r
  }

  // ---------------------------------------------------------------------------
  // Properties of the grammar

  /** Where the key of a rendered reference ends. */
  lemma KeyEndOfRender(e: Expr, rest: string)
    requires WellFormed(e)
    requires |rest| == 0 || !IsKeyChar(rest[0])
    ensures KeyEnd(Render(e) + rest, 0) == |e.key|
  {
    var s := Render(e) + rest;
    assert s[..|e.key|] == e.key;
    KeyEndAt(s, 0, |e.key|);
  }

  lemma {:induction false} KeyEndAt(s: string, j: nat, e: nat)
    requires j <= e <= |s|
    requires AllKeyChars(s[j..e])
    requires e == |s| || !IsKeyChar(s[e])
    ensures KeyEnd(s, j) == e
    decreases e - j
  {
    if j < e {
      assert IsKeyChar(s[j..e][0]);
      assert s[j + 1..e] == s[j..e][1..];
      KeyEndAt(s, j + 1, e);
    }
  }

  /** Every well-formed reference parses back to itself, also with one trailing newline. */
  lemma RenderParses(e: Expr)
    requires WellFormed(e)
    ensures Parse(Render(e)) == Some(e)
    ensures Parse(Render(e) + "\n") == Some(e)
  {
    RenderParsesWith(e, "");
    assert Render(e) + "" == Render(e);
    RenderParsesWith(e, "\n");
  }

  lemma RenderParsesWith(e: Expr, rest: string)
    requires WellFormed(e)
    requires rest == "" || rest == "\n"
    ensures Parse(Render(e) + rest) == Some(e)
  {
    var s := Render(e) + rest;
    ValueAtRender(e, rest);
    assert s[|Render(e)|..] == rest;
    var m := MatchAt(GetExpression(TYPE_PLAIN), s, 0);
    assert OccursAt(s, "", 0) && OccursAt(s, "", |Render(e)|);
    assert m == Some(Match(e, s[0..|Render(e)|], |Render(e)|));
  }

  /** Reading a rendered reference gives it back, when no key character or suffix opener follows. */
  lemma ValueAtRender(e: Expr, rest: string)
    requires WellFormed(e)
    requires |rest| == 0 || (!IsKeyChar(rest[0]) && rest[0] != '(' && rest[0] != '[')
    ensures ValueAt(Render(e) + rest, 0) == Some((e, |Render(e)|))
  {
    var s := Render(e) + rest;
    var n := |e.key|;
    KeyEndOfRender(e, rest);
    assert s[..n] == e.key;
    assert IsLetter(s[0]);
    match e.mode
    case Variable =>
    case Function(None) =>
      assert s[n] == '(' && s[n + 1] == ')';
      assert FindChar(s, n + 1, ')') == Some(n + 1);
    case Function(Some(p)) =>
      ValueAtRenderCall(e.key, p, rest);
    case ArrayIndex(i) =>
      ValueAtRenderIndex(e.key, i, rest);
  }

  lemma ValueAtRenderCall(k: string, p: string, rest: string)
    requires WellFormed(Expr(k, Function(Some(p))))
    requires |rest| == 0 || !IsKeyChar(rest[0])
    ensures ValueAt(Render(Expr(k, Function(Some(p)))) + rest, 0) == Some((Expr(k, Function(Some(p))), |k| + |p| + 2))
  {
    var e := Expr(k, Function(Some(p)));
    var s := k + "(" + p + ")" + rest;
    assert Render(e) == k + ("(" + p + ")");
    assert Render(e) + rest == s;
    KeyEndOfRender(e, rest);
    ValueAtCallText(s, k, p, rest);
  }

  /** The text `k(p)` followed by a non-key character is read as that call. */
  lemma ValueAtCallText(s: string, k: string, p: string, rest: string)
    requires s == k + "(" + p + ")" + rest
    requires IsKey(k) && IsParameter(p) && KeyEnd(s, 0) == |k|
    ensures ValueAt(s, 0) == Some((Expr(k, Function(Some(p))), |k| + |p| + 2))
  {
    SuffixSlices(s, k, '(', p, ')', rest);
    assert s[0] == k[0];
    ParameterHasNoParen(p);
    CallAtOf(s, |k|, p);
    ValueAtSuffix(s, |k|);
  }

  /** The pieces of `k + [open] + body + [close] + rest`, as slices. */
  lemma SuffixSlices(s: string, k: string, open: char, body: string, close: char, rest: string)
    requires s == k + [open] + body + [close] + rest
    ensures s[0..|k|] == k && s[|k|] == open
    ensures s[|k| + 1..|k| + 1 + |body|] == body && s[|k| + 1 + |body|] == close
  {
  }

  /** A parameter between the parentheses that follow the key `s[..n]` makes a call. */
  lemma CallAtOf(s: string, n: nat, p: string)
    requires 2 <= n && n + |p| + 1 < |s| && IsKey(s[0..n]) && s[n] == '('
    requires s[n + 1..n + 1 + |p|] == p && s[n + 1 + |p|] == ')'
    requires IsParameter(p) && forall j :: 0 <= j < |p| ==> p[j] != ')'
    ensures CallAt(s, 0, n) == Some((Expr(s[0..n], Function(Some(p))), n + |p| + 2))
  {
    ClosingAt(s, n, p, ')');
  }

  /** An index between the brackets that follow the key `s[..n]` makes an element access. */
  lemma IndexAtOf(s: string, n: nat, i: string)
    requires 2 <= n && n + |i| + 1 < |s| && IsKey(s[0..n]) && s[n] == '['
    requires s[n + 1..n + 1 + |i|] == i && s[n + 1 + |i|] == ']'
    requires IsIndex(i)
    ensures IndexAt(s, 0, n) == Some((Expr(s[0..n], ArrayIndex(i)), n + |i| + 2))
  {
    assert forall j :: 0 <= j < |i| ==> i[j] != ']';
    ClosingAt(s, n, i, ']');
  }

  /** `s` holds `open`, then `body`, then `close` from position `n`: the first `close` after `n` ends it. */
  lemma ClosingAt(s: string, n: nat, body: string, close: char)
    requires n + |body| + 1 < |s|
    requires s[n + 1..n + 1 + |body|] == body && s[n + 1 + |body|] == close
    requires forall j :: 0 <= j < |body| ==> body[j] != close
    ensures FindChar(s, n + 1, close) == Some(n + 1 + |body|)
  {
    forall j | n + 1 <= j < n + 1 + |body|
      ensures s[j] != close
    {
      assert s[j] == s[n + 1..n + 1 + |body|][j - n - 1];
    }
    FindCharAt(s, n + 1, close, n + 1 + |body|);
  }

  lemma ParameterHasNoParen(p: string)
    requires IsParameter(p)
    ensures forall j :: 0 <= j < |p| ==> p[j] != ')'
  {
    if !AllKeyChars(p) {
      forall j | 0 < j < |p| - 1 ensures p[j] != ')' {
        assert p[j] == p[1..|p| - 1][j - 1];
      }
    }
  }

  lemma ValueAtRenderIndex(k: string, i: string, rest: string)
    requires WellFormed(Expr(k, ArrayIndex(i)))
    requires |rest| == 0 || !IsKeyChar(rest[0])
    ensures ValueAt(Render(Expr(k, ArrayIndex(i))) + rest, 0) == Some((Expr(k, ArrayIndex(i)), |k| + |i| + 2))
  {
    var e := Expr(k, ArrayIndex(i));
    var s := k + "[" + i + "]" + rest;
    assert Render(e) == k + ("[" + i + "]");
    assert Render(e) + rest == s;
    KeyEndOfRender(e, rest);
    ValueAtIndexText(s, k, i, rest);
  }

  /** The text `k[i]` followed by a non-key character is read as that element access. */
  lemma ValueAtIndexText(s: string, k: string, i: string, rest: string)
    requires s == k + "[" + i + "]" + rest
    requires IsKey(k) && IsIndex(i) && KeyEnd(s, 0) == |k|
    ensures ValueAt(s, 0) == Some((Expr(k, ArrayIndex(i)), |k| + |i| + 2))
  {
    SuffixSlices(s, k, '[', i, ']', rest);
    assert s[0] == k[0];
    IndexAtOf(s, |k|, i);
    ValueAtSuffix(s, |k|);
  }

  /** Once the key `s[..n]` is followed by a well-formed suffix, that suffix is what is read. */
  lemma ValueAtSuffix(s: string, n: nat)
    requires 2 <= n < |s| && KeyEnd(s, 0) == n && IsLetter(s[0])
    requires s[n] == '(' ==> CallAt(s, 0, n).Some?
    requires s[n] == '[' ==> IndexAt(s, 0, n).Some?
    ensures s[n] == '(' ==> ValueAt(s, 0) == CallAt(s, 0, n)
    ensures s[n] == '[' ==> ValueAt(s, 0) == IndexAt(s, 0, n)
  {
  }

  lemma {:induction false} FindCharAt(s: string, j: nat, c: char, at: nat)
    requires j <= at < |s| && s[at] == c
    requires forall k :: j <= k < at ==> s[k] != c
    ensures FindChar(s, j, c) == Some(at)
    decreases at - j
  {
    if j < at {
      FindCharAt(s, j + 1, c, at);
    }
  }

  /** What `parse` accepts is exactly a well-formed reference, possibly followed by one newline. */
  lemma ParseSound(s: string)
    requires Parse(s).Some?
    ensures WellFormed(Parse(s).value)
    ensures s == Render(Parse(s).value) || s == Render(Parse(s).value) + "\n"
  {
    var m := MatchAt(GetExpression(TYPE_PLAIN), s, 0).value;
    assert s[0..m.end] == m.value;
    if m.end == |s| {
      assert s == s[0..m.end];
    } else {
      assert s == s[0..m.end] + "\n";
    }
  }

  /** `parse` succeeds exactly on the rendered references (with at most one trailing newline). */
  lemma ParseCharacterisation(s: string, e: Expr)
    ensures Parse(s) == Some(e) <==> WellFormed(e) && (s == Render(e) || s == Render(e) + "\n")
  {
    if Parse(s) == Some(e) {
      ParseSound(s);
    }
    if WellFormed(e) && (s == Render(e) || s == Render(e) + "\n") {
      RenderParses(e);
    }
  }

  /** A bare key parses to mode `variable` with that key; a string that is not a key never does. */
  lemma ParseBareKey(k: string)
    ensures Parse(k) == Some(Expr(k, Variable)) <==> IsKey(k)
  {
    var e := Expr(k, Variable);
    assert Render(e) == k;
    assert WellFormed(e) <==> IsKey(k);
    ParseCharacterisation(k, e);
    assert |k + "\n"| != |k|;
  }

  /** `name()` parses to mode `function` without parameters. */
  lemma ParseCallWithoutParameter(k: string)
    requires IsKey(k)
    ensures Parse(k + "()") == Some(Expr(k, Function(None)))
  {
    RenderParses(Expr(k, Function(None)));
  }

  /** `name(p)` carries `p`'s raw text, quotes included, exactly when `p` is a parameter. */
  lemma ParseCallWithParameter(k: string, p: string)
    requires IsKey(k) && |p| > 0
    ensures Parse(k + "(" + p + ")") == Some(Expr(k, Function(Some(p)))) <==> IsParameter(p)
  {
    var e := Expr(k, Function(Some(p)));
    var s := k + "(" + p + ")";
    assert Render(e) == s;
    assert WellFormed(e) <==> IsParameter(p);
    ParseCharacterisation(s, e);
    assert |s + "\n"| != |s|;
  }

  /** `name[i]` parses to mode `array` with index `i` exactly when `i` matches `[1-9]*[0-9]`. */
  lemma ParseIndexed(k: string, i: string)
    requires IsKey(k)
    ensures Parse(k + "[" + i + "]") == Some(Expr(k, ArrayIndex(i))) <==> IsIndex(i)
  {
    var e := Expr(k, ArrayIndex(i));
    var s := k + "[" + i + "]";
    assert Render(e) == s;
    assert WellFormed(e) <==> IsIndex(i);
    ParseCharacterisation(s, e);
    assert |s + "\n"| != |s|;
  }

  /** Every parsed key is at least two characters long and starts with a letter. */
  lemma ParsedKeyShape(s: string)
    requires Parse(s).Some?
    ensures |Parse(s).value.key| >= 2 && IsLetter(Parse(s).value.key[0])
  {
    ParseSound(s);
  }

  /** Accepted example: a bare key. */
  lemma ParseKeyExample()
    ensures Parse("key") == Some(Expr("key", Variable))
  {
    assert IsKey("key");
    ParseBareKey("key");
  }

  /** Accepted example: an element access. */
  lemma ParseIndexExample()
    ensures Parse("array[0]") == Some(Expr("array", ArrayIndex("0")))
  {
    assert IsKey("array") && IsIndex("0");
    assert "array" + "[" + "0" + "]" == "array[0]";
    ParseIndexed("array", "0");
  }

  /** Accepted example: a call without a parameter. */
  lemma ParseCallExample()
    ensures Parse("func()") == Some(Expr("func", Function(None)))
  {
    assert IsKey("func");
    assert "func" + "()" == "func()";
    ParseCallWithoutParameter("func");
  }

  /** Accepted examples: a digit and a word as parameter. */
  lemma ParseParameterExamples()
    ensures Parse("func(0)") == Some(Expr("func", Function(Some("0"))))
    ensures Parse("func(abc)") == Some(Expr("func", Function(Some("abc"))))
  {
    assert IsKey("func") && IsParameter("0") && IsParameter("abc");
    assert "func" + "(" + "0" + ")" == "func(0)";
    assert "func" + "(" + "abc" + ")" == "func(abc)";
    ParseCallWithParameter("func", "0");
    ParseCallWithParameter("func", "abc");
  }

  /** A double-quoted parameter keeps its quotes. */
  lemma ParseDoubleQuotedExample()
    ensures Parse("func(\"abc\")") == Some(Expr("func", Function(Some("\"abc\""))))
  {
    assert IsKey("func");
    assert "\"abc\""[1..4] == "abc";
    assert IsParameter("\"abc\"");
    assert "func" + "(" + "\"abc\"" + ")" == "func(\"abc\")";
    ParseCallWithParameter("func", "\"abc\"");
  }

  /** A single-quoted parameter keeps its quotes. */
  lemma ParseSingleQuotedExample()
    ensures Parse("func('abc')") == Some(Expr("func", Function(Some("'abc'"))))
  {
    assert IsKey("func");
    assert "'abc'"[1..4] == "abc";
    assert IsParameter("'abc'");
    assert "func" + "(" + "'abc'" + ")" == "func('abc')";
    ParseCallWithParameter("func", "'abc'");
  }

  /** Rejected example: braces are not key characters. */
  lemma ParseRejectsBraces()
    ensures Parse("invalid{}") == None
  {
    var s := "invalid{}";
    assert AllKeyChars(s[0..7]);
    KeyEndAt(s, 0, 7);
    assert s[0..7] == "invalid" && IsLetter(s[0]) && s[7] == '{';
    assert ValueAt(s, 0) == Some((Expr("invalid", Variable), 7));
  }

  /** Indices with a zero before the last digit are refused, others accepted. */
  lemma IndexExamples()
    ensures IsIndex("0") && IsIndex("10") && IsIndex("120")
    ensures !IsIndex("01") && !IsIndex("100") && !IsIndex("")
  {
    assert "01"[0] == '0';
    assert "100"[1] == '0';
  }

  /** A single letter is never a key, so it never parses. */
  lemma SingleLetterNeverParses(c: char)
    ensures Parse([c]) == None
  {
    if Parse([c]).Some? {
      ParsedKeyShape([c]);
      ParseSound([c]);
    }
  }

  /** The whole-value form: `{{{k}}}` for a key `k` yields `k`, which parses as a variable. */
  lemma ReplaceOfKey(k: string)
    requires IsKey(k)
    ensures ReplaceMatch("{{{" + k + "}}}") == Some(k)
    ensures Parse(k) == Some(Expr(k, Variable))
  {
    var s := "{{{" + k + "}}}";
    ParseBareKey(k);
    KeyInBraces(k);
    assert OccursAt(s, "{{{", 0);
    assert OccursAt(s, "}}}", 3 + |k|);
    assert s[3..3 + |k|] == k;
  }

  /** Inside `{{{k}}}` the reference read at position 3 is the bare key `k`. */
  lemma KeyInBraces(k: string)
    requires IsKey(k)
    ensures ValueAt("{{{" + k + "}}}", 3) == Some((Expr(k, Variable), 3 + |k|))
  {
    var s := "{{{" + k + "}}}";
    var e := 3 + |k|;
    assert s[3..e] == k;
    assert s[e] == '}';
    KeyEndAt(s, 3, e);
    assert IsLetter(s[3]);
  }
}
