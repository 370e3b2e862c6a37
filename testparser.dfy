/**
 * The test file expander (class `TestParser`): the template rewrite that
 * substitutes globals into a parsed test, and the expansion of one test file
 * into test cases, one per iterator combination and request body.
 */
module TestParser {
  import opened Wrappers
  import opened Values
  import opened Strings
  import opened Expression
  import opened Globals
  import opened Util

  // ---------------------------------------------------------------------------
  // searchAndReplace

  /** Why the rewrite throws: a global that `get` refuses, or a global that is no string. */
  datatype ReplaceError =
    | LookupFailed(cause: GetError)
    | NotAString(conversion: ConversionError)

  /** The first failure among results taken in order, or all the values. */
  function Collect(results: seq<Result<Value, ReplaceError>>): (r: Result<seq<Value>, ReplaceError>)
    ensures r.Ok? ==> |r.value| == |results| && forall k :: 0 <= k < |results| ==> results[k] == Ok(r.value[k])
    ensures r.Ok? <==> forall k :: 0 <= k < |results| ==> results[k].Ok?
  {
    if |results| == 0 then Ok([])
    else match results[0]
      case Err(e) => Err(e)
      case Ok(v) =>
        match Collect(results[1..])
        case Err(e) => Err(e)
        case Ok(rest) => Ok([v] + rest)
  }

  /**
   * `searchAndReplace` on a list or an object: every element, in order, is
   * rewritten by `ReplaceValue`; any other value comes back unchanged. The
   * result is a new value, the input is left as it was.
   */
  function SearchAndReplace(v: Value, view: map<string, Value>, php: Runtime)
    : (r: Result<Value, ReplaceError>)
    decreases v, 0
  {
    match v
    case Arr(items) =>
      var results := seq(|items|, k requires 0 <= k < |items| => ReplaceValue(items[k], view, php));
      (match Collect(results)
       case Err(e) => Err(e)
       case Ok(values) => Ok(Arr(values)))
    case Obj(members) =>
      var results := seq(|members|, k requires 0 <= k < |members| => ReplaceValue(members[k].1, view, php));
      (match Collect(results)
       case Err(e) => Err(e)
       case Ok(values) => Ok(Obj(seq(|members|, k requires 0 <= k < |members| => (members[k].0, values[k])))))
    case _ => Ok(v)
  }

  /**
   * The body of the loop of `searchAndReplace` for one element: lists and
   * objects are rewritten first, then a string is rewritten as a template.
   */
  function ReplaceValue(v: Value, view: map<string, Value>, php: Runtime)
    : (r: Result<Value, ReplaceError>)
    decreases v, 1
  {
    if v.Arr? || v.Obj? then SearchAndReplace(v, view, php)
    else if v.Str? then ReplaceString(v.s, view, php)
    else Ok(v)
  }

  /**
   * A string that is exactly `{{{reference}}}` becomes the global itself,
   * whatever its type; otherwise each `{{reference}}` found is replaced, in
   * the order found, by the string form of its global.
   */
  function ReplaceString(s: string, view: map<string, Value>, php: Runtime)
    : (r: Result<Value, ReplaceError>)
  {
    match ReplaceMatch(s)
    case Some(reference) =>
      (match Lookup(view, reference, php)
       case Err(e) => Err(LookupFailed(e))
       case Ok(global) => Ok(global))
    case None =>
      match InlineReplace(s, InlineMatches(s), view, php)
      case Err(e) => Err(e)
      case Ok(t) => Ok(Str(t))
  }

  /** The inner loop: `str_replace` of `{{reference}}` by each global in turn, on the text as it stands. */
  function InlineReplace(s: string, references: seq<string>, view: map<string, Value>,
                         php: Runtime): (r: Result<string, ReplaceError>)
    decreases |references|
  {
    if |references| == 0 then Ok(s)
    else
      var (prefix, suffix, _, _) := GetPrefixSuffix(TYPE_INLINE_REPLACE);
      match Lookup(view, references[0], php)
      case Err(e) => Err(LookupFailed(e))
      case Ok(global) =>
        match ToPhpString(global)
        case Err(e) => Err(NotAString(e))
        case Ok(text) => InlineReplace(ReplaceAll(s, prefix + references[0] + suffix, text), references[1..], view, php)
  }

  /** Two values have the same shape: lists of the same length, objects with the same member names in order. */
  predicate SameShape(a: Value, b: Value) {
    && (a.Arr? ==> b.Arr? && |b.items| == |a.items|)
    && (a.Obj? ==> b.Obj? && |b.members| == |a.members| && forall k :: 0 <= k < |a.members| ==> b.members[k].0 == a.members[k].0)
  }

  /**
   * The rewrite preserves structure: a list keeps its length, an object its
   * member names in order, every element is the rewrite of the element at
   * the same place, and a value that is neither a container nor a string is
   * unchanged.
   */
  lemma SearchAndReplaceShape(v: Value, view: map<string, Value>, php: Runtime)
    requires SearchAndReplace(v, view, php).Ok?
    ensures SameShape(v, SearchAndReplace(v, view, php).value)
    ensures v.Arr? ==> forall k :: 0 <= k < |v.items| ==>
              ReplaceValue(v.items[k], view, php) == Ok(SearchAndReplace(v, view, php).value.items[k])
    ensures v.Obj? ==> forall k :: 0 <= k < |v.members| ==>
              ReplaceValue(v.members[k].1, view, php) == Ok(SearchAndReplace(v, view, php).value.members[k].1)
    ensures !v.Arr? && !v.Obj? ==> SearchAndReplace(v, view, php).value == v
  {
  }

  /** A container fails exactly when one of its elements does. */
  lemma SearchAndReplaceFails(items: seq<Value>, view: map<string, Value>, php: Runtime)
    ensures SearchAndReplace(Arr(items), view, php).Err? <==> exists k :: 0 <= k < |items| && ReplaceValue(items[k], view, php).Err?
  {
    var results := seq(|items|, k requires 0 <= k < |items| => ReplaceValue(items[k], view, php));
    assert forall k :: 0 <= k < |items| ==> results[k] == ReplaceValue(items[k], view, php);
  }

  /** Scalars other than strings are never touched. */
  lemma ScalarsUnchanged(v: Value, view: map<string, Value>, php: Runtime)
    requires v.Null? || v.Bool? || v.Int? || v.Closure?
    ensures ReplaceValue(v, view, php) == Ok(v)
  {
  }

  /** No match can start where the delimiter does not occur. */
  lemma {:induction false} NoMatchesFrom(p: Pattern, s: string, i: nat)
    requires i <= |s|
    requires forall j :: i <= j <= |s| ==> !OccursAt(s, p.prefix, j)
    ensures FindAllFrom(p, s, i) == []
    decreases |s| - i
  {
    if i < |s| {
      NoMatchesFrom(p, s, i + 1);
    }
  }

  /** Where `{{{` occurs, so does `{{`. */
  lemma TripleHasDouble(s: string, j: nat)
    ensures OccursAt(s, "{{{", j) ==> OccursAt(s, "{{", j)
  {
    if j + 3 <= |s| {
      assert s[j..j + 2] == s[j..j + 3][..2];
    }
  }

  /** A string without `{{` is left as it is. */
  lemma NoTemplateUnchanged(s: string, view: map<string, Value>, php: Runtime)
    requires forall j :: 0 <= j <= |s| ==> !OccursAt(s, "{{", j)
    ensures ReplaceValue(Str(s), view, php) == Ok(Str(s))
  {
    TripleHasDouble(s, 0);
    NoMatchesFrom(GetExpression(TYPE_INLINE_REPLACE), s, 0);
  }

  /** `{{{k}}}` becomes the global `k` itself, keeping its type: a number stays a number, a list a list. */
  lemma WholeValueKeepsType(k: string, view: map<string, Value>, php: Runtime)
    requires IsKey(k) && k in view
    ensures ReplaceValue(Str("{{{" + k + "}}}"), view, php) == Ok(view[k])
  {
    ReplaceOfKey(k);
    LookupVariable(view, k, php);
  }

  /**
   * The rewrite is single-pass: the global that replaces `{{{k}}}` is not
   * rewritten again, even when it is itself a template.
   */
  lemma SubstitutionNotRescanned(k: string, t: string, view: map<string, Value>,
                                 php: Runtime)
    requires IsKey(k) && k in view && view[k] == Str(t)
    ensures ReplaceValue(Str("{{{" + k + "}}}"), view, php) == Ok(Str(t))
  {
    WholeValueKeepsType(k, view, php);
  }

  /** `{{{k}}}` with no global `k` throws NotFound. */
  lemma WholeValueMissing(k: string, view: map<string, Value>, php: Runtime)
    requires IsKey(k) && k !in view
    ensures ReplaceValue(Str("{{{" + k + "}}}"), view, php) == Err(LookupFailed(NotFound(k)))
  {
    ReplaceOfKey(k);
  }

  /** Inside `{{k}}` the reference read after the delimiter is the bare key `k`. */
  lemma KeyInDoubleBraces(k: string)
    requires IsKey(k)
    ensures ValueAt("{{" + k + "}}", 2) == Some((Expr(k, Variable), 2 + |k|))
  {
    var s := "{{" + k + "}}";
    var e := 2 + |k|;
    assert s[2..e] == k;
    assert s[e] == '}';
    KeyEndAt(s, 2, e);
    assert IsLetter(s[2]);
  }

  /** `{{k}}` on its own is found once, as the reference `k`, and is not a whole-value template. */
  lemma InlineOfKey(k: string)
    requires IsKey(k)
    ensures ReplaceMatch("{{" + k + "}}") == None
    ensures InlineMatches("{{" + k + "}}") == [k]
  {
    var s := "{{" + k + "}}";
    assert s[2] == k[0];
    assert !OccursAt(s, "{{{", 0);
    KeyInDoubleBraces(k);
    var p := GetExpression(TYPE_INLINE_REPLACE);
    assert OccursAt(s, "{{", 0);
    assert OccursAt(s, "}}", 2 + |k|);
    assert s[2..2 + |k|] == k;
    var m := MatchAt(p, s, 0);
    assert m == Some(Match(Expr(k, Variable), k, |s|));
    assert FindAllFrom(p, s, |s|) == [];
    assert FindAll(p, s) == [Match(Expr(k, Variable), k, |s|)];
  }

  /** A string that is only `{{k}}` becomes the string form of `k`: `{{n}}` with `n` = 5 gives "5". */
  lemma InlineOfKeyReplaced(k: string, t: string, view: map<string, Value>, php: Runtime)
    requires IsKey(k) && k in view && ToPhpString(view[k]) == Ok(t)
    ensures ReplaceValue(Str("{{" + k + "}}"), view, php) == Ok(Str(t))
  {
    InlineOfKey(k);
    LookupVariable(view, k, php);
    var s := "{{" + k + "}}";
    assert s[..|s|] == s;
    assert ReplaceAll(s, s, t) == t + ReplaceAll(s[|s|..], s, t);
    assert ReplaceAll(s, s, t) == t;
    assert [k][1..] == [];
    assert InlineReplace(s, [k], view, php) == InlineReplace(t, [], view, php);
  }

  /** `{{k}}` whose global is an object throws, since an object has no string form. */
  lemma InlineOfObjectFails(k: string, view: map<string, Value>, php: Runtime)
    requires IsKey(k) && k in view && view[k].Obj?
    ensures ReplaceValue(Str("{{" + k + "}}"), view, php) == Err(NotAString(NotConvertible("object")))
  {
    InlineOfKey(k);
    LookupVariable(view, k, php);
  }

  /** No `{` anywhere in the text. */
  predicate NoBrace(s: string) {
    forall j :: 0 <= j < |s| ==> s[j] != '{'
  }

  /** `{{k}}` at position `i` is an inline match of the reference `k` that ends right after it. */
  lemma {:induction false} InlineMatchAt(s: string, i: nat, k: string)
    requires IsKey(k) && i + 4 + |k| <= |s|
    requires s[i..i + 4 + |k|] == "{{" + k + "}}"
    ensures MatchAt(GetExpression(TYPE_INLINE_REPLACE), s, i) == Some(Match(Expr(k, Variable), k, i + 4 + |k|))
  {
    InlineParts(s, i, k);
    var p := GetExpression(TYPE_INLINE_REPLACE);
    assert p == Pattern("{{", "}}", false, false);
    ReferenceMatchAt(p, s, i, Expr(k, Variable), i + 2 + |k|);
  }

  /** The parts of `{{k}}` at position `i`: the opening braces, the key read as a bare reference, the closing braces. */
  lemma {:induction false} InlineParts(s: string, i: nat, k: string)
    requires IsKey(k) && i + 4 + |k| <= |s|
    requires s[i..i + 4 + |k|] == "{{" + k + "}}"
    ensures OccursAt(s, "{{", i) && OccursAt(s, "}}", i + 2 + |k|)
    ensures ValueAt(s, i + 2) == Some((Expr(k, Variable), i + 2 + |k|))
    ensures s[i + 2..i + 2 + |k|] == k
  {
    InlineSlices(s, i, k);
    BareKeyAt(s, i + 2, k);
  }

  /** `{{k}}` at position `i`, cut into its delimiters and its key. */
  lemma InlineSlices(s: string, i: nat, k: string)
    requires i + 4 + |k| <= |s|
    requires s[i..i + 4 + |k|] == "{{" + k + "}}"
    ensures OccursAt(s, "{{", i) && OccursAt(s, "}}", i + 2 + |k|)
    ensures s[i + 2..i + 2 + |k|] == k && s[i + 2 + |k|] == '}'
  {
    var n := "{{" + k + "}}";
    var e := i + 2 + |k|;
    assert n[0..2] == "{{" && n[2..2 + |k|] == k && n[2 + |k|..|n|] == "}}";
    SliceWithin(s, i, n, 0, 2);
    SliceWithin(s, i, n, 2, 2 + |k|);
    SliceWithin(s, i, n, 2 + |k|, |n|);
    assert s[e] == s[e..e + 2][0];
  }

  /** A key followed by `}` is read as a bare reference. */
  lemma BareKeyAt(s: string, j: nat, k: string)
    requires IsKey(k) && j + |k| < |s| && s[j..j + |k|] == k && s[j + |k|] == '}'
    ensures ValueAt(s, j) == Some((Expr(k, Variable), j + |k|))
  {
    KeyEndAt(s, j, j + |k|);
    assert s[j] == k[0];
  }

  /** A slice of a part found at `i` is the slice of `s` at the same offsets from `i`. */
  lemma SliceWithin<T>(s: seq<T>, i: nat, n: seq<T>, lo: nat, hi: nat)
    requires i + |n| <= |s| && s[i..i + |n|] == n && lo <= hi <= |n|
    ensures s[i + lo..i + hi] == n[lo..hi]
  {
    forall j | 0 <= j < hi - lo
      ensures s[i + lo..i + hi][j] == n[lo..hi][j]
    {
      assert n[lo + j] == s[i..i + |n|][lo + j];
    }
  }

  /** A pattern whose matches open with `{`, as the inline pattern's do. */
  predicate OpensWithBrace(p: Pattern) {
    |p.prefix| > 0 && p.prefix[0] == '{'
  }

  /** The scan passes over text without `{`. */
  lemma {:induction false} ScanSkip(p: Pattern, s: string, i: nat, j: nat)
    requires OpensWithBrace(p) && i <= j <= |s| && NoBrace(s[i..j])
    ensures FindAllFrom(p, s, i) == FindAllFrom(p, s, j)
    decreases j - i
  {
    if i < j {
      assert s[i] == s[i..j][0];
      if i + |p.prefix| <= |s| {
        assert s[i..i + |p.prefix|][0] == s[i];
      }
      assert s[i + 1..j] == s[i..j][1..];
      ScanSkip(p, s, i + 1, j);
    }
  }

  /** Across text without `{`, the scan finds the match at `i` and, when only text without `{` follows it, nothing more. */
  lemma {:induction false} ScanLast(p: Pattern, s: string, j: nat, i: nat, m: Match)
    requires OpensWithBrace(p) && j <= i < |s| && MatchAt(p, s, i) == Some(m)
    requires NoBrace(s[j..i]) && NoBrace(s[m.end..|s|])
    ensures FindAllFrom(p, s, j) == [m]
  {
    ScanSkip(p, s, j, i);
    ScanSkip(p, s, m.end, |s|);
    assert [m] + [] == [m];
  }

  /** Two matches separated and surrounded by text without `{` are all the scan finds, in order. */
  lemma {:induction false} ScanPair(p: Pattern, s: string, i1: nat, m1: Match, i2: nat, m2: Match)
    requires OpensWithBrace(p) && i1 < |s| && MatchAt(p, s, i1) == Some(m1)
    requires m1.end <= i2 < |s| && MatchAt(p, s, i2) == Some(m2)
    requires NoBrace(s[0..i1]) && NoBrace(s[m1.end..i2]) && NoBrace(s[m2.end..|s|])
    ensures FindAllFrom(p, s, 0) == [m1, m2]
  {
    ScanSkip(p, s, 0, i1);
    ScanLast(p, s, m1.end, i2, m2);
    assert [m1] + [m2] == [m1, m2];
  }

  /** A needle that starts with `{` does not occur in text without `{`. */
  lemma {:induction false} NoBraceNoOccurrence(y: string, needle: string)
    requires NoBrace(y) && |needle| > 0 && needle[0] == '{'
    ensures forall i :: 0 <= i < |y| ==> !OccursAt(y, needle, i)
  {
    forall i | 0 <= i < |y|
      ensures !OccursAt(y, needle, i)
    {
      if i + |needle| <= |y| {
        assert y[i..i + |needle|][0] == y[i];
      }
    }
  }

  /** `str_replace` of a needle starting with `{`, after a text without `{`: the text is kept, the needle replaced, the scan goes on. */
  lemma {:induction false} ReplaceAfter(x: string, needle: string, y: string, t: string)
    requires NoBrace(x) && |needle| > 0 && needle[0] == '{'
    ensures ReplaceAll(x + needle + y, needle, t) == x + t + ReplaceAll(y, needle, t)
  {
    var rest := needle + y;
    forall i | 0 <= i < |x|
      ensures !OccursAt(x + rest, needle, i)
    {
      if i + |needle| <= |x + rest| {
        assert (x + rest)[i..i + |needle|][0] == x[i];
      }
    }
    ReplaceAllKeepsPrefix(x, rest, needle, t);
    assert rest[..|needle|] == needle && rest[|needle|..] == y;
    assert x + needle + y == x + rest;
  }

  /** `{{k1}}` does not occur at the start of `{{k2}}` for a different key. */
  lemma {:induction false} DistinctRefs(k1: string, k2: string, rest: string)
    requires IsKey(k1) && IsKey(k2) && k1 != k2
    ensures !OccursAt("{{" + k2 + "}}" + rest, "{{" + k1 + "}}", 0)
  {
    var s := "{{" + k2 + "}}" + rest;
    var n := "{{" + k1 + "}}";
    if |n| <= |s| {
      var d: nat;
      if |k1| < |k2| {
        d := 2 + |k1|;
        assert s[d] == k2[|k1|] && n[d] == '}';
      } else if |k1| > |k2| {
        d := 2 + |k2|;
        assert s[d] == '}' && n[d] == k1[|k2|];
      } else {
        var c :| 0 <= c < |k1| && k1[c] != k2[c];
        d := 2 + c;
        assert s[d] == k2[c] && n[d] == k1[c];
      }
      assert s[..|n|][d] != n[d];
    }
  }

  /** `{{k1}}` occurs nowhere in `m{{k2}}b` when `m` and `b` have no `{` and the keys differ. */
  lemma {:induction false} OtherRefAbsent(m: string, k1: string, k2: string, b: string)
    requires IsKey(k1) && IsKey(k2) && k1 != k2 && NoBrace(m) && NoBrace(b)
    ensures forall i :: 0 <= i < |m + ("{{" + k2 + "}}" + b)| ==> !OccursAt(m + ("{{" + k2 + "}}" + b), "{{" + k1 + "}}", i)
  {
    var n1 := "{{" + k1 + "}}";
    var tail := "{{" + k2 + "}}" + b;
    var y := m + tail;
    forall i | 0 <= i < |y|
      ensures !OccursAt(y, n1, i)
    {
      if i + |n1| > |y| {
      } else if i == |m| {
        DistinctRefs(k1, k2, b);
        assert y[i..i + |n1|] == tail[..|n1|];
      } else if i == |m| + 1 {
        assert y[i + 1] == k2[0];
        assert y[i..i + |n1|][1] == y[i + 1];
      } else {
        if i < |m| {
          assert y[i] == m[i];
        } else if i < |m| + 2 + |k2| {
          assert y[i] == k2[i - |m| - 2] && IsKeyChar(k2[i - |m| - 2]);
        } else if i < |m| + 4 + |k2| {
          assert y[i] == '}';
        } else {
          assert y[i] == b[i - |m| - 4 - |k2|];
        }
        assert y[i..i + |n1|][0] == y[i];
      }
    }
  }

  /** No `{{{` at the start, so a string with text around `{{k}}` is never a whole-value template. */
  lemma {:induction false} NotWholeValue(s: string)
    requires |s| < 3 || s[0] != '{' || s[2] != '{'
    ensures ReplaceMatch(s) == None
  {
    if |s| >= 3 {
      assert s[0..3][0] == s[0] && s[0..3][2] == s[2];
    }
  }

  /** `a{{k}}b` is not a whole-value template, and its only inline reference is `k`. */
  lemma {:induction false} InlineScanOne(a: string, k: string, b: string)
    requires IsKey(k) && NoBrace(a) && NoBrace(b)
    ensures ReplaceMatch(a + "{{" + k + "}}" + b) == None
    ensures InlineMatches(a + "{{" + k + "}}" + b) == [k]
  {
    var s := a + "{{" + k + "}}" + b;
    if |a| > 0 {
      assert s[0] == a[0];
    } else {
      assert s[2] == k[0];
    }
    NotWholeValue(s);
    InlineFindOne(a, k, b);
  }

  /** The inline matches of `a{{k}}b`: `k` alone. */
  lemma {:induction false} InlineFindOne(a: string, k: string, b: string)
    requires IsKey(k) && NoBrace(a) && NoBrace(b)
    ensures FindAll(GetExpression(TYPE_INLINE_REPLACE), a + "{{" + k + "}}" + b) == [Match(Expr(k, Variable), k, |a| + 4 + |k|)]
  {
    var n := "{{" + k + "}}";
    var s := a + n + b;
    assert s == a + "{{" + k + "}}" + b;
    assert s[|a|..|a| + |n|] == n;
    assert s[0..|a|] == a && s[|a| + |n|..|s|] == b;
    InlineFindSingle(s, |a|, k);
  }

  /** A string whose only `{` are those of one `{{k}}` at `i` has that one inline match. */
  lemma {:induction false} InlineFindSingle(s: string, i: nat, k: string)
    requires IsKey(k) && i + 4 + |k| <= |s| && s[i..i + 4 + |k|] == "{{" + k + "}}"
    requires NoBrace(s[0..i]) && NoBrace(s[i + 4 + |k|..|s|])
    ensures FindAll(GetExpression(TYPE_INLINE_REPLACE), s) == [Match(Expr(k, Variable), k, i + 4 + |k|)]
  {
    InlineMatchAt(s, i, k);
    ScanLast(GetExpression(TYPE_INLINE_REPLACE), s, 0, i, Match(Expr(k, Variable), k, i + 4 + |k|));
  }

  /** A string whose only `{` are those of `{{k1}}` at `i1` and `{{k2}}` at `i2` has those two inline matches, in order. */
  lemma {:induction false} InlineFindPair(s: string, i1: nat, k1: string, i2: nat, k2: string)
    requires IsKey(k2) && i2 + 4 + |k2| <= |s| && s[i2..i2 + 4 + |k2|] == "{{" + k2 + "}}"
    requires IsKey(k1) && i1 + 4 + |k1| <= i2 && s[i1..i1 + 4 + |k1|] == "{{" + k1 + "}}"
    requires NoBrace(s[0..i1]) && NoBrace(s[i1 + 4 + |k1|..i2]) && NoBrace(s[i2 + 4 + |k2|..|s|])
    ensures FindAll(GetExpression(TYPE_INLINE_REPLACE), s)
            == [Match(Expr(k1, Variable), k1, i1 + 4 + |k1|), Match(Expr(k2, Variable), k2, i2 + 4 + |k2|)]
  {
    InlineMatchAt(s, i1, k1);
    InlineMatchAt(s, i2, k2);
    ScanPair(GetExpression(TYPE_INLINE_REPLACE), s, i1, Match(Expr(k1, Variable), k1, i1 + 4 + |k1|),
             i2, Match(Expr(k2, Variable), k2, i2 + 4 + |k2|));
  }

  /** `a{{k1}}m{{k2}}b` is not a whole-value template, and its inline references are `k1` then `k2`. */
  lemma {:induction false} InlineScanTwo(a: string, k1: string, m: string, k2: string, b: string)
    requires IsKey(k1) && IsKey(k2) && NoBrace(a) && NoBrace(m) && NoBrace(b)
    ensures ReplaceMatch(a + "{{" + k1 + "}}" + m + "{{" + k2 + "}}" + b) == None
    ensures InlineMatches(a + "{{" + k1 + "}}" + m + "{{" + k2 + "}}" + b) == [k1, k2]
  {
    var n1 := "{{" + k1 + "}}";
    var n2 := "{{" + k2 + "}}";
    var s := a + n1 + m + n2 + b;
    TwoRefsText(a, k1, m, k2, b);
    Regroup(a + n1, m, n2, b);
    PlainStart(a, k1, m + n2 + b);
    FiveSlices(a, n1, m, n2, b);
    PairMatches(s, |a|, k1, |a| + |n1| + |m|, k2);
  }

  /** Text that opens with a part without `{` and then a reference is no whole-value template. */
  lemma {:induction false} PlainStart(a: string, k: string, rest: string)
    requires IsKey(k) && NoBrace(a)
    ensures ReplaceMatch(a + ("{{" + k + "}}") + rest) == None
  {
    var s := a + ("{{" + k + "}}") + rest;
    if |a| > 0 {
      assert s[0] == a[0];
    } else {
      assert s[2] == k[0];
    }
    NotWholeValue(s);
  }

  /** The inline references of a string whose only `{` are those of `{{k1}}` at `i1` and `{{k2}}` at `i2`. */
  lemma {:induction false} PairMatches(s: string, i1: nat, k1: string, i2: nat, k2: string)
    requires IsKey(k2) && i2 + 4 + |k2| <= |s| && s[i2..i2 + 4 + |k2|] == "{{" + k2 + "}}"
    requires IsKey(k1) && i1 + 4 + |k1| <= i2 && s[i1..i1 + 4 + |k1|] == "{{" + k1 + "}}"
    requires NoBrace(s[0..i1]) && NoBrace(s[i1 + 4 + |k1|..i2]) && NoBrace(s[i2 + 4 + |k2|..|s|])
    ensures InlineMatches(s) == [k1, k2]
  {
    InlineFindPair(s, i1, k1, i2, k2);
  }

  /** The five parts of `a + x + m + y + b`, as slices of it. */
  lemma FiveSlices<T>(a: seq<T>, x: seq<T>, m: seq<T>, y: seq<T>, b: seq<T>)
    ensures var s := a + x + m + y + b;
            var e1 := |a| + |x|;
            var i2 := e1 + |m|;
            && s[0..|a|] == a && s[|a|..e1] == x && s[e1..i2] == m
            && s[i2..i2 + |y|] == y && s[i2 + |y|..|s|] == b
  {
  }

  /** The first step of the inner loop: `{{k}}` is replaced everywhere by the string form of the global `k`. */
  lemma {:induction false} InlineStep(s: string, k: string, rest: seq<string>, t: string, view: map<string, Value>, php: Runtime)
    requires IsKey(k) && k in view && ToPhpString(view[k]) == Ok(t)
    ensures InlineReplace(s, [k] + rest, view, php) == InlineReplace(ReplaceAll(s, "{{" + k + "}}", t), rest, view, php)
  {
    LookupVariable(view, k, php);
    assert ([k] + rest)[1..] == rest;
  }

  /** `str_replace` of `{{k}}` in `a{{k}}b`, where `a` and `b` have no `{`. */
  lemma {:induction false} ReplaceOneText(a: string, k: string, b: string, t: string)
    requires NoBrace(a) && NoBrace(b)
    ensures ReplaceAll(a + "{{" + k + "}}" + b, "{{" + k + "}}", t) == a + t + b
  {
    var n := "{{" + k + "}}";
    assert a + "{{" + k + "}}" + b == a + n + b by {
      assert a + "{{" + k == a + ("{{" + k);
    }
    ReplaceAfter(a, n, b, t);
    NoBraceUnchanged(b, n, t);
  }

  /** The two `str_replace` calls on `a{{k1}}m{{k2}}b`, when the first replacement text has no `{`. */
  lemma {:induction false} ReplaceTwoText(a: string, k1: string, m: string, k2: string, b: string, t1: string, t2: string)
    requires IsKey(k1) && IsKey(k2) && NoBrace(a) && NoBrace(m) && NoBrace(b) && NoBrace(t1)
    requires k1 == k2 ==> t1 == t2
    ensures var n1 := "{{" + k1 + "}}";
            var n2 := "{{" + k2 + "}}";
            ReplaceAll(ReplaceAll(a + n1 + m + n2 + b, n1, t1), n2, t2) == a + t1 + m + t2 + b
  {
    if k1 == k2 {
      ReplaceSameAgain(a, k1, m, b, t1);
    } else {
      ReplaceOtherAfter(a, k1, m, k2, b, t1, t2);
    }
  }

  /** The second `str_replace` of the same reference finds nothing left to replace. */
  lemma {:induction false} ReplaceSameAgain(a: string, k: string, m: string, b: string, t: string)
    requires NoBrace(a) && NoBrace(m) && NoBrace(b) && NoBrace(t)
    ensures var n := "{{" + k + "}}";
            ReplaceAll(ReplaceAll(a + n + m + n + b, n, t), n, t) == a + t + m + t + b
  {
    var n := "{{" + k + "}}";
    var y := m + n + b;
    Regroup(a + n, m, n, b);
    ReplaceAfter(a, n, y, t);
    ReplaceAfter(m, n, b, t);
    NoBraceUnchanged(b, n, t);
    var first := a + t + (m + t + b);
    NoBraceJoin(m, t);
    NoBraceJoin(m + t, b);
    NoBraceJoin(a, t);
    NoBraceJoin(a + t, m + t + b);
    NoBraceUnchanged(first, n, t);
    Regroup(a + t, m, t, b);
  }

  /** With distinct references, the first `str_replace` leaves the second reference for the second one. */
  lemma {:induction false} ReplaceOtherAfter(a: string, k1: string, m: string, k2: string, b: string, t1: string, t2: string)
    requires IsKey(k1) && IsKey(k2) && k1 != k2 && NoBrace(a) && NoBrace(m) && NoBrace(b) && NoBrace(t1)
    ensures var n1 := "{{" + k1 + "}}";
            var n2 := "{{" + k2 + "}}";
            ReplaceAll(ReplaceAll(a + n1 + m + n2 + b, n1, t1), n2, t2) == a + t1 + m + t2 + b
  {
    var n1 := "{{" + k1 + "}}";
    var n2 := "{{" + k2 + "}}";
    var y := m + n2 + b;
    Regroup(a + n1, m, n2, b);
    ReplaceAfter(a, n1, y, t1);
    Regroup(m, n2, b, []);
    OtherRefUnchanged(m, k1, k2, b, t1);
    var c := a + t1 + m;
    NoBraceJoin(a, t1);
    NoBraceJoin(a + t1, m);
    Regroup(a + t1, m, n2, b);
    ReplaceAfter(c, n2, b, t2);
    NoBraceUnchanged(b, n2, t2);
  }

  /** Text without `{` holds no needle that starts with `{`: `str_replace` keeps it. */
  lemma NoBraceUnchanged(y: string, needle: string, t: string)
    requires NoBrace(y) && |needle| > 0 && needle[0] == '{'
    ensures ReplaceAll(y, needle, t) == y
  {
    NoBraceNoOccurrence(y, needle);
    ReplaceAllAbsent(y, needle, t);
  }

  /** The first reference does not occur in text that holds only the second one. */
  lemma OtherRefUnchanged(m: string, k1: string, k2: string, b: string, t: string)
    requires IsKey(k1) && IsKey(k2) && k1 != k2 && NoBrace(m) && NoBrace(b)
    ensures ReplaceAll(m + ("{{" + k2 + "}}" + b), "{{" + k1 + "}}", t) == m + ("{{" + k2 + "}}" + b)
  {
    OtherRefAbsent(m, k1, k2, b);
    ReplaceAllAbsent(m + ("{{" + k2 + "}}" + b), "{{" + k1 + "}}", t);
  }

  /** Concatenation regrouped to the left. */
  lemma Regroup<T>(x: seq<T>, p: seq<T>, q: seq<T>, r: seq<T>)
    ensures x + (p + q + r) == x + p + q + r
    ensures x + (p + q) == x + p + q
    ensures p + q + r == p + (q + r)
  {
  }

  /** Joining two texts without `{` gives one without `{`. */
  lemma NoBraceJoin(x: string, y: string)
    requires NoBrace(x) && NoBrace(y)
    ensures NoBrace(x + y)
  {
  }

  /**
   * Inline replacement keeps the surrounding text: `a{{k}}b` becomes `a`, the
   * string form of the global `k`, then `b`.
   */
  lemma {:induction false} InlineKeepsText(a: string, k: string, b: string, t: string, view: map<string, Value>, php: Runtime)
    requires IsKey(k) && k in view && ToPhpString(view[k]) == Ok(t)
    requires NoBrace(a) && NoBrace(b)
    ensures ReplaceValue(Str(a + "{{" + k + "}}" + b), view, php) == Ok(Str(a + t + b))
  {
    var s := a + "{{" + k + "}}" + b;
    InlineScanOne(a, k, b);
    InlineStep(s, k, [], t, view, php);
    assert [k] + [] == [k];
    ReplaceOneText(a, k, b, t);
  }

  /**
   * Every occurrence is replaced, left to right: `a{{k1}}m{{k2}}b` becomes `a`,
   * the string form of `k1`, `m`, the string form of `k2`, then `b`. (A
   * replacement text that holds a template would be rewritten by the later
   * replacements, hence no `{` in the first.)
   */
  lemma {:induction false} InlineReplacesEach(a: string, k1: string, m: string, k2: string, b: string, t1: string, t2: string,
                           view: map<string, Value>, php: Runtime)
    requires IsKey(k1) && k1 in view && ToPhpString(view[k1]) == Ok(t1)
    requires IsKey(k2) && k2 in view && ToPhpString(view[k2]) == Ok(t2)
    requires NoBrace(a) && NoBrace(m) && NoBrace(b) && NoBrace(t1)
    ensures ReplaceValue(Str(a + "{{" + k1 + "}}" + m + "{{" + k2 + "}}" + b), view, php) == Ok(Str(a + t1 + m + t2 + b))
  {
    var n1 := "{{" + k1 + "}}";
    var n2 := "{{" + k2 + "}}";
    var s := a + "{{" + k1 + "}}" + m + "{{" + k2 + "}}" + b;
    TwoRefsText(a, k1, m, k2, b);
    InlineScanTwo(a, k1, m, k2, b);
    ReplaceTwoText(a, k1, m, k2, b, t1, t2);
    InlineTwoValue(s, k1, k2, t1, t2, a + t1 + m + t2 + b, view, php);
  }

  /** `a{{k1}}m{{k2}}b`, grouped by reference. */
  lemma TwoRefsText(a: string, k1: string, m: string, k2: string, b: string)
    ensures a + "{{" + k1 + "}}" + m + "{{" + k2 + "}}" + b == a + ("{{" + k1 + "}}") + m + ("{{" + k2 + "}}") + b
  {
    assert a + "{{" + k1 == a + ("{{" + k1);
    assert a + ("{{" + k1 + "}}") + m + "{{" + k2 == a + ("{{" + k1 + "}}") + m + ("{{" + k2);
  }

  /** A string that is not one whole reference becomes the text the inner loop leaves. */
  lemma ReplaceStringInline(s: string, r: string, view: map<string, Value>, php: Runtime)
    requires ReplaceMatch(s) == None && InlineReplace(s, InlineMatches(s), view, php) == Ok(r)
    ensures ReplaceValue(Str(s), view, php) == Ok(Str(r))
  {
  }

  /** A string with two inline references becomes the text left by their two `str_replace` calls. */
  lemma InlineTwoValue(s: string, k1: string, k2: string, t1: string, t2: string, r: string,
                       view: map<string, Value>, php: Runtime)
    requires ReplaceMatch(s) == None && InlineMatches(s) == [k1, k2]
    requires IsKey(k1) && k1 in view && ToPhpString(view[k1]) == Ok(t1)
    requires IsKey(k2) && k2 in view && ToPhpString(view[k2]) == Ok(t2)
    requires ReplaceAll(ReplaceAll(s, "{{" + k1 + "}}", t1), "{{" + k2 + "}}", t2) == r
    ensures ReplaceValue(Str(s), view, php) == Ok(Str(r))
  {
    InlineTwoSteps(s, k1, k2, t1, t2, view, php);
    ReplaceStringInline(s, r, view, php);
  }

  /** The inner loop over two references: two `str_replace` calls in turn. */
  lemma {:induction false} InlineTwoSteps(s: string, k1: string, k2: string, t1: string, t2: string,
                                          view: map<string, Value>, php: Runtime)
    requires IsKey(k1) && k1 in view && ToPhpString(view[k1]) == Ok(t1)
    requires IsKey(k2) && k2 in view && ToPhpString(view[k2]) == Ok(t2)
    ensures InlineReplace(s, [k1, k2], view, php)
            == Ok(ReplaceAll(ReplaceAll(s, "{{" + k1 + "}}", t1), "{{" + k2 + "}}", t2))
  {
    InlineStep(s, k1, [k2], t1, view, php);
    InlineStep(ReplaceAll(s, "{{" + k1 + "}}", t1), k2, [], t2, view, php);
    assert [k1] + [k2] == [k1, k2] && [k2] + [] == [k2];
  }

  // ---------------------------------------------------------------------------
  // createTest

  /** A property of an object, or null when the value is no object or has no such property (PHP reads it as null). */
  function Field(v: Value, name: string): Value {
    if v.Obj? then
      match Member(v.members, name)
      case Some(x) => x
      case None => Null
    else Null
  }

  /** The parsed test as the validator leaves it: `request` is an object, and so are its `iterators`. */
  predicate IsParsedTest(contents: Value) {
    && contents.Obj?
    && Field(contents, "request").Obj?
    && Field(Field(contents, "request"), "iterators").Obj?
  }

  /** `$this->contentsParsed->request->iterators = $iterators`. */
  function WithIterators(contents: Value, iterators: Value): (r: Value)
    requires IsParsedTest(contents) && iterators.Obj?
    ensures IsParsedTest(r)
    ensures Field(Field(r, "request"), "iterators") == iterators
    ensures forall name :: name != "request" ==> Field(r, name) == Field(contents, name)
  {
    var request := Field(contents, "request");
    var updated := Obj(SetMember(request.members, "iterators", iterators));
    Obj(SetMember(contents.members, "request", updated))
  }

  /** `(array) $iterators` as the input of `cartesian`; a value that is not a list offers no values. */
  function IteratorLists(iterators: seq<(string, Value)>): (lists: Lists)
    ensures |lists| == |iterators|
    ensures forall k :: 0 <= k < |lists| ==>
              lists[k].0 == iterators[k].0 && lists[k].1 == (if iterators[k].1.Arr? then iterators[k].1.items else [])
  {
    seq(|iterators|, k requires 0 <= k < |iterators| =>
      (iterators[k].0, if iterators[k].1.Arr? then iterators[k].1.items else []))
  }

  /** The keys of the input, in order. */
  function KeysOf(lists: Lists): (keys: seq<string>)
    ensures |keys| == |lists| && forall k :: 0 <= k < |keys| ==> keys[k] == lists[k].0
  {
    seq(|lists|, k requires 0 <= k < |lists| => lists[k].0)
  }

  /** `is_object($body) ? json_encode($body) : $body`. */
  function Encoded(body: Value, encode: Value -> string): Value {
    if body.Obj? || body.Closure? then Str(encode(body)) else body
  }

  /** The request bodies of one combination: none set or an empty one gives a single null body. */
  function RequestBodies(body: Value, encode: Value -> string): (r: seq<Value>)
    ensures |r| >= 1
    ensures IsEmpty(body) ==> r == [Null]
    ensures !IsEmpty(body) && !body.Arr? ==> r == [Encoded(body, encode)]
    ensures !IsEmpty(body) && body.Arr? ==> |r| == |body.items|
    ensures !IsEmpty(body) && body.Arr? ==> forall k :: 0 <= k < |r| ==> r[k] == Encoded(body.items[k], encode)
  {
    if IsEmpty(body) then [Null]
    else
      var list := if body.Arr? then body.items else [body];
      seq(|list|, k requires 0 <= k < |list| => Encoded(list[k], encode))
  }

  /**
   * What one test is built from: the arguments of the Testphase constructor
   * and of the `expect*` calls (rules as pointer and raw schema, the rule
   * objects and response headers as given).
   */
  datatype TestCase = TestCase(
    url: Value,
    httpMethod: Value,
    headers: Value,
    body: Value,
    statusCode: Value,
    responseHeaders: Value,
    jsonBody: Value,
    rules: seq<(string, Value)>,
    ruleObjects: Value)

  /** The test for one request body of a rewritten test file. */
  function CaseFor(parsed: Value, body: Value): (t: TestCase)
    ensures t.body == body
  {
    var request := Field(parsed, "request");
    var response := Field(parsed, "response");
    var jsonBody := Field(Field(parsed, "meta"), "JSONbody");
    var rules := Field(response, "rules");
    TestCase(
      Field(request, "url"), Field(request, "method"), Field(request, "headers"), body,
      Field(response, "statusCode"), Field(response, "headers"),
      if jsonBody.Null? then Bool(true) else jsonBody,
      if rules.Obj? then rules.members else [],
      Field(response, "ruleObjects"))
  }

  /** The tests of one rewritten test file: one per request body, in order. */
  function Cases(parsed: Value, encode: Value -> string): (r: seq<TestCase>)
    ensures |r| == |RequestBodies(Field(Field(parsed, "request"), "body"), encode)| >= 1
    ensures forall k :: 0 <= k < |r| ==> r[k].body == RequestBodies(Field(Field(parsed, "request"), "body"), encode)[k]
  {
    var bodies := RequestBodies(Field(Field(parsed, "request"), "body"), encode);
    seq(|bodies|, k requires 0 <= k < |bodies| => CaseFor(parsed, bodies[k]))
  }

  /** The globals after `set` of each key of the combination, taken in the order of `keys`. */
  function Bind(view: map<string, Value>, keys: seq<string>, c: Combination): (r: map<string, Value>)
    ensures forall k :: k in c && k in keys ==> k in r && r[k] == c[k]
    ensures forall k :: !(k in c && k in keys) ==> (k in r <==> k in view) && (k in view ==> r[k] == view[k])
  {
    if |keys| == 0 then view
    else
      var before := Bind(view, keys[..|keys| - 1], c);
      var key := keys[|keys| - 1];
      assert forall k :: k in keys ==> k in keys[..|keys| - 1] || k == key;
      if key in c then before[key := c[key]] else before
  }

  /** The first key, in order, that the combination sets and `set` refuses. */
  function FirstUnsettable(keys: seq<string>, c: Combination): (r: Option<string>)
    ensures r.None? <==> forall j :: 0 <= j < |keys| && keys[j] in c ==> IsSettableKey(keys[j])
    ensures r.Some? ==> r.value in keys && r.value in c && !IsSettableKey(r.value)
  {
    if |keys| == 0 then None
    else
      var before := FirstUnsettable(keys[..|keys| - 1], c);
      var key := keys[|keys| - 1];
      assert forall j :: 0 <= j < |keys| - 1 ==> keys[..|keys| - 1][j] == keys[j];
      if before.Some? then before
      else if key in c && !IsSettableKey(key) then Some(key)
      else None
  }

  /** Once a prefix of the keys holds a refused key, the first one stays the answer for the whole list. */
  lemma {:induction false} FirstUnsettableExtends(keys: seq<string>, j: nat, c: Combination)
    requires j <= |keys|
    requires FirstUnsettable(keys[..j], c).Some?
    ensures FirstUnsettable(keys, c) == FirstUnsettable(keys[..j], c)
    decreases |keys| - j
  {
    if j < |keys| {
      assert keys[..j + 1][..j] == keys[..j];
      FirstUnsettableExtends(keys, j + 1, c);
    } else {
      assert keys[..j] == keys;
    }
  }

  /** Why `createTest` throws. */
  datatype CreateError =
    | SetFailed(setError: SetError)
    | ReplaceFailed(replaceError: ReplaceError)

  /** Tests built one per request body, in order, are the tests of the file. */
  lemma CasesOf(parsed: Value, encode: Value -> string, bodies: seq<Value>, cases: seq<TestCase>)
    requires bodies == RequestBodies(Field(Field(parsed, "request"), "body"), encode)
    requires |cases| == |bodies| && forall j :: 0 <= j < |cases| ==> cases[j] == CaseFor(parsed, Null).(body := bodies[j])
    ensures cases == Cases(parsed, encode)
  {
    forall j | 0 <= j < |cases|
      ensures cases[j] == Cases(parsed, encode)[j]
    {
      assert CaseFor(parsed, Null).(body := bodies[j]) == CaseFor(parsed, bodies[j]);
    }
  }

  /** The globals after the first `n` combinations are set. */
  function ViewAfter(view: map<string, Value>, keys: seq<string>, combinations: seq<Combination>): map<string, Value> {
    if |combinations| == 0 then view
    else Bind(ViewAfter(view, keys, combinations[..|combinations| - 1]), keys, combinations[|combinations| - 1])
  }

  /**
   * The tests of one combination: its keys are set on top of the globals
   * `before`, the whole test file is rewritten, and one test is made per
   * request body; also the file's `export`, as rewritten.
   */
  function CombinationCases(contents: Value, before: map<string, Value>, keys: seq<string>, c: Combination,
                            php: Runtime, encode: Value -> string)
    : (r: Result<(seq<TestCase>, Value), CreateError>)
    ensures r.Ok? ==> |r.value.0| >= 1
  {
    match FirstUnsettable(keys, c)
    case Some(key) => Err(SetFailed(InvalidSetKey(key)))
    case None =>
      match SearchAndReplace(contents, Bind(before, keys, c), php)
      case Err(e) => Err(ReplaceFailed(e))
      case Ok(parsed) => Ok((Cases(parsed, encode), Field(Field(parsed, "response"), "export")))
  }

  /** What one combination yields once its globals are stored and the rewritten file is in hand. */
  lemma CombinationCasesOk(contents: Value, before: map<string, Value>, keys: seq<string>, c: Combination,
                           php: Runtime, encode: Value -> string,
                           parsed: Value, cases: seq<TestCase>, exported: Value)
    requires FirstUnsettable(keys, c).None?
    requires SearchAndReplace(contents, Bind(before, keys, c), php) == Ok(parsed)
    requires cases == Cases(parsed, encode) && exported == Field(Field(parsed, "response"), "export")
    ensures CombinationCases(contents, before, keys, c, php, encode) == Ok((cases, exported))
  {
  }

  /**
   * The tests of all `combinations`, combination by combination, and the
   * export of the last one (none when there are no combinations).
   */
  function Expansion(contents: Value, view: map<string, Value>, keys: seq<string>, combinations: seq<Combination>,
                     php: Runtime, encode: Value -> string)
    : (r: Result<(seq<TestCase>, Option<Value>), CreateError>)
  {
    if |combinations| == 0 then Ok(([], None))
    else
      var earlier := combinations[..|combinations| - 1];
      match Expansion(contents, view, keys, earlier, php, encode)
      case Err(e) => Err(e)
      case Ok((tests, _)) =>
        match CombinationCases(contents, ViewAfter(view, keys, earlier), keys, combinations[|combinations| - 1], php, encode)
        case Err(e) => Err(e)
        case Ok((cases, exported)) => Ok((tests + cases, Some(exported)))
  }

  /** One more combination: its tests follow those of the earlier ones. */
  lemma ExpansionStep(contents: Value, view: map<string, Value>, keys: seq<string>, combinations: seq<Combination>, i: nat,
                      php: Runtime, encode: Value -> string)
    requires i < |combinations|
    ensures ViewAfter(view, keys, combinations[..i + 1]) == Bind(ViewAfter(view, keys, combinations[..i]), keys, combinations[i])
    ensures Expansion(contents, view, keys, combinations[..i + 1], php, encode)
            == match Expansion(contents, view, keys, combinations[..i], php, encode)
               case Err(e) => Err(e)
               case Ok((tests, _)) =>
                 match CombinationCases(contents, ViewAfter(view, keys, combinations[..i]), keys, combinations[i], php, encode)
                 case Err(e) => Err(e)
                 case Ok((cases, exported)) => Ok((tests + cases, Some(exported)))
  {
    assert combinations[..i + 1][..i] == combinations[..i];
  }

  /** A failure stops the expansion: what fails for the first combinations fails for all. */
  lemma {:induction false} ExpansionErrExtends(contents: Value, view: map<string, Value>, keys: seq<string>,
                                               combinations: seq<Combination>, j: nat,
                                               php: Runtime, encode: Value -> string)
    requires j <= |combinations|
    requires Expansion(contents, view, keys, combinations[..j], php, encode).Err?
    ensures Expansion(contents, view, keys, combinations, php, encode) == Expansion(contents, view, keys, combinations[..j], php, encode)
    decreases |combinations| - j
  {
    if j < |combinations| {
      ExpansionStep(contents, view, keys, combinations, j, php, encode);
      ExpansionErrExtends(contents, view, keys, combinations, j + 1, php, encode);
    } else {
      assert combinations[..j] == combinations;
    }
  }

  /**
   * Every combination yields at least one test, and an export is recorded
   * exactly when there was a combination to expand.
   */
  lemma {:induction false} ExpansionAtLeastOne(contents: Value, view: map<string, Value>, keys: seq<string>,
                                               combinations: seq<Combination>,
                                               php: Runtime, encode: Value -> string)
    requires Expansion(contents, view, keys, combinations, php, encode).Ok?
    ensures |Expansion(contents, view, keys, combinations, php, encode).value.0| >= |combinations|
    ensures Expansion(contents, view, keys, combinations, php, encode).value.1.Some? <==> |combinations| > 0
  {
    if |combinations| > 0 {
      ExpansionAtLeastOne(contents, view, keys, combinations[..|combinations| - 1], php, encode);
    }
  }

  /** The tests of the first combinations come first, unchanged by the later ones. */
  lemma {:induction false} ExpansionPrefix(contents: Value, view: map<string, Value>, keys: seq<string>,
                                           combinations: seq<Combination>, j: nat,
                                           php: Runtime, encode: Value -> string)
    requires j <= |combinations|
    requires Expansion(contents, view, keys, combinations, php, encode).Ok?
    ensures Expansion(contents, view, keys, combinations[..j], php, encode).Ok?
    ensures var all := Expansion(contents, view, keys, combinations, php, encode).value.0;
            var first := Expansion(contents, view, keys, combinations[..j], php, encode).value.0;
            |first| <= |all| && all[..|first|] == first
    decreases |combinations| - j
  {
    if j == |combinations| {
      assert combinations[..j] == combinations;
    } else {
      var earlier := combinations[..|combinations| - 1];
      assert earlier[..j] == combinations[..j];
      ExpansionPrefix(contents, view, keys, earlier, j, php, encode);
      var mid := Expansion(contents, view, keys, earlier, php, encode).value.0;
      var all := Expansion(contents, view, keys, combinations, php, encode).value.0;
      assert all[..|mid|] == mid;
    }
  }

  /** Without iterators there is one combination, binding nothing: the tests are those of the file rewritten once. */
  lemma NoIterators(contents: Value, view: map<string, Value>,
                    php: Runtime, encode: Value -> string)
    requires IsParsedTest(contents) && |Field(Field(contents, "request"), "iterators").members| == 0
    ensures Expansion(contents, view, [], [map[]], php, encode)
            == match SearchAndReplace(contents, view, php)
               case Err(e) => Err(ReplaceFailed(e))
               case Ok(parsed) => Ok((Cases(parsed, encode), Some(Field(Field(parsed, "response"), "export"))))
  {
    var one: seq<Combination> := [map[]];
    ExpansionStep(contents, view, [], one, 0, php, encode);
    assert one[..1] == one && one[..0] == [];
    assert ViewAfter(view, [], []) == view;
    assert Bind(view, [], map[]) == view;
    match SearchAndReplace(contents, view, php)
    case Err(e) =>
    case Ok(parsed) =>
      var cases := Cases(parsed, encode);
      assert CombinationCases(contents, view, [], map[], php, encode) == Ok((cases, Field(Field(parsed, "response"), "export")));
      assert [] + cases == cases;
  }

  /** The iterator step of `createTest`: the test file with its iterators rewritten, their keys and their combinations. */
  datatype Plan = Plan(contents: Value, keys: seq<string>, combinations: seq<Combination>)

  function PlanOf(contents: Value, view: map<string, Value>, php: Runtime)
    : (r: Result<Plan, CreateError>)
    requires IsParsedTest(contents)
    ensures r.Ok? ==> IsParsedTest(r.value.contents)
  {
    var iterators := Field(Field(contents, "request"), "iterators");
    if |iterators.members| == 0 then Ok(Plan(contents, [], [map[]]))
    else
      match SearchAndReplace(iterators, view, php)
      case Err(e) => Err(ReplaceFailed(e))
      case Ok(replaced) =>
        SearchAndReplaceShape(iterators, view, php);
        var lists := IteratorLists(replaced.members);
        Ok(Plan(WithIterators(contents, replaced), KeysOf(lists), CartesianOf(lists)))
  }

  /** The iterator step of `createTest`, with the cartesian product computed by its loop. */
  method PlanIterators(contents: Value, view: map<string, Value>, php: Runtime)
    returns (r: Result<Plan, CreateError>)
    requires IsParsedTest(contents)
    ensures r == PlanOf(contents, view, php)
  {
    var iterators := Field(Field(contents, "request"), "iterators");
    if |iterators.members| == 0 {
      return Ok(Plan(contents, [], [map[]]));
    }
    var replaced := SearchAndReplace(iterators, view, php);
    if replaced.Err? {
      return Err(ReplaceFailed(replaced.error));
    }
    SearchAndReplaceShape(iterators, view, php);
    var lists := IteratorLists(replaced.value.members);
    var combinations := Cartesian(lists);
    r := Ok(Plan(WithIterators(contents, replaced.value), KeysOf(lists), combinations));
  }

  /** `Test is not created`. */
  const NOT_CREATED := "Test is not created"

  /** A parsed test file and the tests made from it. */
  class TestParser {
    /** `contentsParsed`: the validated test file. */
    var contents: Value
    var meta: Value
    /** `export`, null until a test is made. */
    var exported: Value
    /** `testphaseCollection`, null until `createTest`. */
    var tests: Option<seq<TestCase>>

    ghost predicate Valid()
      reads this
    {
      IsParsedTest(contents)
    }

    /** The constructor once the file is read, decoded and validated: no tests yet. */
    constructor (contents: Value)
      requires IsParsedTest(contents)
      ensures Valid() && this.contents == contents && meta == Field(contents, "meta")
      ensures exported == Null && tests == None
    {
      this.contents := contents;
      meta := Field(contents, "meta");
      exported := Null;
      tests := None;
    }

    /** `getTest`: the tests, or an error before `createTest` has made them. */
    method GetTest() returns (r: Result<seq<TestCase>, string>)
      ensures tests.None? ==> r == Err(NOT_CREATED)
      ensures tests.Some? ==> r == Ok(tests.value)
    {
      if tests.None? {
        return Err(NOT_CREATED);
      }
      r := Ok(tests.value);
    }

    /** `getExport`. */
    method GetExport() returns (e: Value)
      ensures e == exported
    {
      e := exported;
    }

    /**
     * `createTest`: rewrites the iterators and stores them back, then for each
     * combination of iterator values sets those values as globals, rewrites
     * the whole test file and makes one test per request body. `php` decides
     * which globals are callable and calls them, `encode` is `json_encode`.
     */
    method CreateTest(globals: Registry, php: Runtime, encode: Value -> string)
      returns (r: Result<(), CreateError>)
      requires Valid() && globals.Valid()
      modifies this, globals
      ensures Valid() && globals.Valid() && meta == old(meta)
      ensures PlanOf(old(contents), old(globals.View()), php).Err? ==>
                r == Err(PlanOf(old(contents), old(globals.View()), php).error) && contents == old(contents)
      ensures r.Err? ==> tests == old(tests)
      ensures PlanOf(old(contents), old(globals.View()), php).Ok? ==>
                var plan := PlanOf(old(contents), old(globals.View()), php).value;
                var expansion := Expansion(plan.contents, old(globals.View()), plan.keys, plan.combinations, php, encode);
                && contents == plan.contents
                && (r.Ok? <==> expansion.Ok?)
                && (r.Err? ==> r.error == expansion.error)
                && (r.Ok? ==> tests == Some(expansion.value.0))
                && (r.Ok? ==> exported == if expansion.value.1.Some? then expansion.value.1.value else old(exported))
                && (r.Ok? ==> globals.View() == ViewAfter(old(globals.View()), plan.keys, plan.combinations))
    {
      var view := globals.View();
      var plan := PlanIterators(contents, view, php);
      if plan.Err? {
        return Err(plan.error);
      }
      contents := plan.value.contents;
      var expanded := ExpandTests(globals, view, plan.value.keys, plan.value.combinations, php, encode);
      if expanded.Err? {
        return Err(expanded.error);
      }
      tests := Some(expanded.value);
      r := Ok(());
    }

    /** The loop of `createTest` over the combinations. */
    method ExpandTests(globals: Registry, ghost view: map<string, Value>, keys: seq<string>, combinations: seq<Combination>,
                       php: Runtime, encode: Value -> string)
      returns (r: Result<seq<TestCase>, CreateError>)
      requires Valid() && globals.Valid() && globals.View() == view
      modifies this`exported, globals
      ensures globals.Valid()
      ensures var expansion := Expansion(contents, view, keys, combinations, php, encode);
              && (r.Ok? <==> expansion.Ok?)
              && (r.Err? ==> r.error == expansion.error)
              && (r.Ok? ==> r.value == expansion.value.0)
              && (r.Ok? ==> exported == if expansion.value.1.Some? then expansion.value.1.value else old(exported))
              && (r.Ok? ==> globals.View() == ViewAfter(view, keys, combinations))
    {
      var collection: seq<TestCase> := [];
      ghost var lastExport: Option<Value> := None;
      for i := 0 to |combinations|
        invariant globals.Valid()
        invariant globals.View() == ViewAfter(view, keys, combinations[..i])
        invariant Expansion(contents, view, keys, combinations[..i], php, encode) == Ok((collection, lastExport))
        invariant exported == if lastExport.Some? then lastExport.value else old(exported)
      {
        ExpansionStep(contents, view, keys, combinations, i, php, encode);
        ghost var expected := CombinationCases(contents, globals.View(), keys, combinations[i], php, encode);
        var cases := ExpandCombination(globals, keys, combinations[i], php, encode);
        if cases.Err? {
          ExpansionErrExtends(contents, view, keys, combinations, i + 1, php, encode);
          return Err(cases.error);
        }
        collection := collection + cases.value;
        lastExport := Some(exported);
      }
      assert combinations[..|combinations|] == combinations;
      r := Ok(collection);
    }

    /**
     * The body of that loop for one combination: set its globals, rewrite
     * the test file, make one test per request body and record the file's
     * `export` with each.
     */
    method ExpandCombination(globals: Registry, keys: seq<string>, combination: Combination,
                             php: Runtime, encode: Value -> string)
      returns (r: Result<seq<TestCase>, CreateError>)
      requires Valid() && globals.Valid()
      modifies this`exported, globals
      ensures globals.Valid()
      ensures var expected := CombinationCases(contents, old(globals.View()), keys, combination, php, encode);
              && (r.Ok? <==> expected.Ok?)
              && (r.Err? ==> r.error == expected.error)
              && (r.Ok? ==> r.value == expected.value.0 && exported == expected.value.1)
              && (r.Ok? ==> globals.View() == Bind(old(globals.View()), keys, combination))
    {
      var stored := SetCombination(globals, keys, combination);
      if stored.Err? {
        return Err(SetFailed(stored.error));
      }
      var parsed := SearchAndReplace(contents, globals.View(), php);
      if parsed.Err? {
        return Err(ReplaceFailed(parsed.error));
      }
      var cases := RecordCases(parsed.value, encode);
      CombinationCasesOk(contents, old(globals.View()), keys, combination, php, encode, parsed.value, cases, exported);
      r := Ok(cases);
    }

    /** One test per request body of the rewritten file, each recording the file's `export`. */
    method RecordCases(parsed: Value, encode: Value -> string) returns (cases: seq<TestCase>)
      modifies this`exported
      ensures cases == Cases(parsed, encode)
      ensures exported == Field(Field(parsed, "response"), "export")
    {
      var requestBodies := RequestBodiesOf(Field(Field(parsed, "request"), "body"), encode);
      var template := CaseFor(parsed, Null);
      var exportedValue := Field(Field(parsed, "response"), "export");
      cases := [];
      for k := 0 to |requestBodies|
        invariant |cases| == k
        invariant forall j :: 0 <= j < k ==> cases[j] == template.(body := requestBodies[j])
        invariant k > 0 ==> exported == exportedValue
      {
        cases := cases + [template.(body := requestBodies[k])];
        exported := exportedValue;
      }
      CasesOf(parsed, encode, requestBodies, cases);
    }
  }

  /** The inner loop of `createTest` that calls `Globals::set` for each key of the combination, in order. */
  method SetCombination(globals: Registry, keys: seq<string>, c: Combination) returns (r: Result<(), SetError>)
    requires globals.Valid()
    modifies globals
    ensures globals.Valid()
    ensures r.Ok? <==> FirstUnsettable(keys, c).None?
    ensures r.Err? ==> r.error == InvalidSetKey(FirstUnsettable(keys, c).value)
    ensures r.Ok? ==> globals.View() == Bind(old(globals.View()), keys, c)
  {
    for j := 0 to |keys|
      invariant globals.Valid()
      invariant FirstUnsettable(keys[..j], c).None?
      invariant globals.View() == Bind(old(globals.View()), keys[..j], c)
    {
      assert keys[..j + 1][..j] == keys[..j];
      if keys[j] in c {
        var stored := globals.Set(keys[j], c[keys[j]]);
        if stored.Err? {
          FirstUnsettableExtends(keys, j + 1, c);
          return Err(stored.error);
        }
      }
    }
    assert keys[..|keys|] == keys;
    r := Ok(());
  }

  /** The loop that collects the request bodies of one combination. */
  method RequestBodiesOf(body: Value, encode: Value -> string) returns (requestBodies: seq<Value>)
    ensures requestBodies == RequestBodies(body, encode)
  {
    requestBodies := [];
    if !IsEmpty(body) {
      var list := body;
      if !list.Arr? {
        list := Arr([list]);
      }
      for k := 0 to |list.items|
        invariant |requestBodies| == k
        invariant forall j :: 0 <= j < k ==> requestBodies[j] == Encoded(list.items[j], encode)
      {
        requestBodies := requestBodies + [Encoded(list.items[k], encode)];
      }
    }
    if |requestBodies| == 0 {
      requestBodies := [Null];
    }
  }
}
