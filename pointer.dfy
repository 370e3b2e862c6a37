/**
 * JSON Pointer (RFC 6901): the syntax of section 3, the escaping of section 4
 * and the evaluation of section 4 over decoded documents. The rule engine
 * resolves every rule's pointer with it.
 */
module JsonPointer {
  import opened Wrappers
  import opened Values

  /** Reference tokens: `~1` stands for `/` and `~0` for `~`; the text is read once, from the left. */
  function Unescape(token: string): string {
    if |token| == 0 then ""
    else if |token| >= 2 && token[0] == '~' && token[1] == '1' then "/" + Unescape(token[2..])
    else if |token| >= 2 && token[0] == '~' && token[1] == '0' then "~" + Unescape(token[2..])
    else [token[0]] + Unescape(token[1..])
  }

  /** The reference token that names `name`. */
  function Escape(name: string): (t: string)
    ensures forall k :: 0 <= k < |t| ==> t[k] != '/'
  {
    if |name| == 0 then ""
    else if name[0] == '/' then "~1" + Escape(name[1..])
    else if name[0] == '~' then "~0" + Escape(name[1..])
    else [name[0]] + Escape(name[1..])
  }

  /** Escaping and then unescaping gives the name back. */
  lemma {:induction false} UnescapeEscape(name: string)
    ensures Unescape(Escape(name)) == name
  {
    if |name| > 0 {
      UnescapeEscape(name[1..]);
      var rest := Escape(name[1..]);
      if name[0] == '/' {
        assert ("~1" + rest)[2..] == rest;
      } else if name[0] == '~' {
        assert ("~0" + rest)[2..] == rest;
      } else {
        assert ([name[0]] + rest)[1..] == rest;
      }
      assert name == [name[0]] + name[1..];
    }
  }

  /** The pieces of `s` between the occurrences of `/`. */
  function SplitSlash(s: string): (r: seq<string>)
    ensures |r| >= 1
    ensures forall i, k :: 0 <= i < |r| && 0 <= k < |r[i]| ==> r[i][k] != '/'
  {
    if |s| == 0 then [""]
    else if s[0] == '/' then [""] + SplitSlash(s[1..])
    else
      var rest := SplitSlash(s[1..]);
      [[s[0]] + rest[0]] + rest[1..]
  }

  /** The pieces joined with `/` in between. */
  function JoinSlash(pieces: seq<string>): string
    requires |pieces| >= 1
  {
    if |pieces| == 1 then pieces[0] else pieces[0] + "/" + JoinSlash(pieces[1..])
  }

  /** Splitting at `/` and joining with `/` gives the text back. */
  lemma {:induction false} JoinSplit(s: string)
    ensures JoinSlash(SplitSlash(s)) == s
  {
    if |s| > 0 {
      JoinSplit(s[1..]);
      var rest := SplitSlash(s[1..]);
      if s[0] == '/' {
        assert s == "/" + s[1..];
      } else {
        assert s == [s[0]] + s[1..];
        if |rest| == 1 {
        } else {
          assert ([[s[0]] + rest[0]] + rest[1..])[1..] == rest[1..];
        }
      }
    }
  }

  /** Joining pieces that hold no `/` and splitting again gives the pieces back. */
  lemma {:induction false} SplitJoin(pieces: seq<string>)
    requires |pieces| >= 1
    requires forall i, k :: 0 <= i < |pieces| && 0 <= k < |pieces[i]| ==> pieces[i][k] != '/'
    ensures SplitSlash(JoinSlash(pieces)) == pieces
    decreases |pieces|, |pieces[0]|
  {
    var first := pieces[0];
    if |first| == 0 {
      if |pieces| > 1 {
        SplitJoin(pieces[1..]);
        SplitAfterSlash(JoinSlash(pieces[1..]));
        assert JoinSlash(pieces) == "/" + JoinSlash(pieces[1..]);
        assert pieces == [""] + pieces[1..];
      }
    } else {
      var shorter := [first[1..]] + pieces[1..];
      assert shorter[1..] == pieces[1..];
      SplitJoin(shorter);
      JoinFirstChar(pieces);
      SplitAfterChar(first[0], JoinSlash(shorter));
      assert [first[0]] + first[1..] == first;
      assert pieces == [first] + shorter[1..];
    }
  }

  lemma SplitAfterSlash(t: string)
    ensures SplitSlash("/" + t) == [""] + SplitSlash(t)
  {
    assert ("/" + t)[1..] == t;
  }

  lemma SplitAfterChar(c: char, t: string)
    requires c != '/'
    ensures SplitSlash([c] + t) == [[c] + SplitSlash(t)[0]] + SplitSlash(t)[1..]
  {
    assert ([c] + t)[1..] == t;
  }

  /** The first character of the joined text is that of the first piece. */
  lemma JoinFirstChar(pieces: seq<string>)
    requires |pieces| >= 1 && |pieces[0]| > 0
    ensures JoinSlash(pieces) == [pieces[0][0]] + JoinSlash([pieces[0][1..]] + pieces[1..])
  {
    var first := pieces[0];
    var shorter := [first[1..]] + pieces[1..];
    assert shorter[1..] == pieces[1..];
    assert first == [first[0]] + first[1..];
  }

  /** The reference tokens of a pointer, or `None` when it is neither empty nor starts with `/`. */
  function Tokens(pointer: string): (r: Option<seq<string>>)
    ensures pointer == "" ==> r == Some([])
    ensures r.None? <==> pointer != "" && pointer[0] != '/'
  {
    if pointer == "" then Some([])
    else if pointer[0] != '/' then None
    else
      var pieces := SplitSlash(pointer[1..]);
      Some(seq(|pieces|, i requires 0 <= i < |pieces| => Unescape(pieces[i])))
  }

  /** The pointer that names a path of member names and indices. */
  function Compile(path: seq<string>): (pointer: string)
    ensures |path| > 0 ==> |pointer| > 0 && pointer[0] == '/'
  {
    if |path| == 0 then "" else "/" + JoinSlash(seq(|path|, i requires 0 <= i < |path| => Escape(path[i])))
  }

  /** Every path is named by its compiled pointer: the tokens read back are the path. */
  lemma CompileTokens(path: seq<string>)
    ensures Tokens(Compile(path)) == Some(path)
  {
    if |path| > 0 {
      var escaped := seq(|path|, i requires 0 <= i < |path| => Escape(path[i]));
      var pointer := Compile(path);
      assert pointer[1..] == JoinSlash(escaped);
      SplitJoin(escaped);
      var tokens := seq(|escaped|, i requires 0 <= i < |escaped| => Unescape(escaped[i]));
      assert Tokens(pointer) == Some(tokens);
      forall i | 0 <= i < |path|
        ensures tokens[i] == path[i]
      {
        UnescapeEscape(path[i]);
      }
      assert tokens == path;
    }
  }

  /** An array index token: `0`, or digits without a leading zero. */
  predicate IsArrayIndex(token: string) {
    && |token| >= 1
    && (forall k :: 0 <= k < |token| ==> '0' <= token[k] <= '9')
    && (|token| > 1 ==> token[0] != '0')
  }

  /** The value of a digit string. */
  function DigitsValue(token: string): nat
    requires forall k :: 0 <= k < |token| ==> '0' <= token[k] <= '9'
  {
    if |token| == 0 then 0
    else
      var digit := token[|token| - 1] as int - '0' as int;
      DigitsValue(token[..|token| - 1]) * 10 + digit
  }

  /** One step of the evaluation (section 4): a member of an object, or an existing element of an array. */
  function Step(v: Value, token: string): (r: Option<Value>)
    ensures v.Obj? ==> r == Member(v.members, token)
    ensures r.Some? ==> v.Obj? || (v.Arr? && IsArrayIndex(token))
  {
    match v
    case Obj(members) => Member(members, token)
    case Arr(items) =>
      if IsArrayIndex(token) && DigitsValue(token) < |items| then Some(items[DigitsValue(token)]) else None
    case _ => None
  }

  /** The value the tokens reference, step by step from the document root. */
  function Walk(v: Value, tokens: seq<string>): Option<Value> {
    if |tokens| == 0 then Some(v)
    else match Step(v, tokens[0])
      case None => None
      case Some(child) => Walk(child, tokens[1..])
  }

  /**
   * The value `pointer` references in `document`, or `None` when the pointer
   * is malformed or references a nonexistent value (including the `-` past
   * the end of an array).
   */
  function Resolve(document: Value, pointer: string): Option<Value> {
    match Tokens(pointer)
    case None => None
    case Some(tokens) => Walk(document, tokens)
  }

  /** The empty pointer references the whole document. */
  lemma ResolveRoot(document: Value)
    ensures Resolve(document, "") == Some(document)
  {
  }

  /** `/name` references member `name` of an object, and nothing in any other value but an array. */
  lemma ResolveMember(document: Value, name: string)
    ensures document.Obj? ==> Resolve(document, Compile([name])) == Member(document.members, name)
    ensures !document.Obj? && !document.Arr? ==> Resolve(document, Compile([name])) == None
  {
    CompileTokens([name]);
    assert Walk(document, [name]) == match Step(document, name) case None => None case Some(child) => Some(child);
  }

  /** A pointer that walks into a scalar references nothing. */
  lemma {:induction false} ResolveThroughScalar(v: Value, tokens: seq<string>)
    requires |tokens| > 0 && !v.Obj? && !v.Arr?
    ensures Walk(v, tokens) == None
  {
  }

  /** The `-` token never references an array element. */
  lemma DashIsNonexistent(items: seq<Value>)
    ensures Step(Arr(items), "-") == None
  {
    assert !IsArrayIndex("-");
  }

  /** Walking a path one prefix at a time: a path resolves when its last step does from where the rest led. */
  lemma {:induction false} WalkSnoc(v: Value, tokens: seq<string>, last: string)
    ensures Walk(v, tokens + [last]) == match Walk(v, tokens) case None => None case Some(w) => Step(w, last)
  {
    if |tokens| > 0 {
      assert (tokens + [last])[1..] == tokens[1..] + [last];
      match Step(v, tokens[0])
      case None =>
      case Some(child) => WalkSnoc(child, tokens[1..], last);
    }
  }
}
