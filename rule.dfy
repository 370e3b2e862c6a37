/**
 * Rules and their reports (classes `Rule`, `BodyRule`, `StatusCodeRule` and
 * `RuleReport`): immutable records that pair a JSON pointer into the response
 * document with the schema the referenced value must satisfy.
 */
module Rules {
  import opened Wrappers
  import opened Values
  import opened Strings

  /** `Rule::ROOT_*`: the four roots of the response document. */
  const ROOT_HEADER := "/header"
  const ROOT_BODY := "/body"
  const ROOT_STATUS_CODE := "/statusCode"
  const ROOT_TIMEOUT := "/timeout"

  /** `Rule::ROOT`, in its order. */
  const ROOT: seq<string> := [ROOT_HEADER, ROOT_BODY, ROOT_STATUS_CODE, ROOT_TIMEOUT]

  /**
   * A schema: an unsigned-integer validator restricted to an enumeration (what
   * `fromEnum` builds), or any other validator of the validation library,
   * known only by identity.
   */
  datatype Schema =
    | Enum(values: seq<Value>)
    | External(id: nat)

  /** A rule; `message` is the optional, nullable message. */
  datatype Rule = Rule(pointer: string, schema: Schema, message: Option<string>)

  /** Why the constructor refuses a pointer. */
  datatype RuleError = InvalidPointer(text: string)

  /** The loop of the constructor: whether one of `roots` is a prefix of `pointer`. */
  function FoundRoot(pointer: string, roots: seq<string>): (found: bool)
    ensures found <==> exists k :: 0 <= k < |roots| && StartsWith(pointer, roots[k])
  {
    if |roots| == 0 then false
    else if StartsWith(pointer, roots[0]) then true
    else
      var found := FoundRoot(pointer, roots[1..]);
      assert found ==> exists k :: 0 <= k < |roots[1..]| && StartsWith(pointer, roots[1..][k]);
      found
  }

  /**
   * `new Rule($pointer, $schema, $message)`: accepted exactly when one of the
   * roots is a prefix of the pointer (a plain prefix test), and then the
   * getters give back the arguments unchanged.
   */
  function NewRule(pointer: string, schema: Schema, message: Option<string> := None): (r: Result<Rule, RuleError>)
    ensures r.Ok? <==> exists k :: 0 <= k < |ROOT| && StartsWith(pointer, ROOT[k])
    ensures r.Ok? ==> r.value.pointer == pointer && r.value.schema == schema && r.value.message == message
    ensures r.Err? ==> r.error == InvalidPointer(INVALID_POINTER)
  {
    if !FoundRoot(pointer, ROOT) then Err(InvalidPointer(INVALID_POINTER))
    else Ok(Rule(pointer, schema, message))
  }

  /** The constructor's message: the roots, joined by commas. */
  const INVALID_POINTER := "Invalid pointer, must start with one of /header,/body,/statusCode,/timeout"

  /** Each root on its own is accepted, and so is anything that extends one. */
  lemma RootsAccepted(pointer: string, schema: Schema)
    requires pointer in ROOT
    ensures NewRule(pointer, schema).Ok?
    ensures NewRule(pointer + "/x", schema).Ok?
  {
    var k :| 0 <= k < |ROOT| && ROOT[k] == pointer;
    assert StartsWith(pointer, ROOT[k]);
    assert (pointer + "/x")[..|pointer|] == pointer;
    assert StartsWith(pointer + "/x", ROOT[k]);
  }

  /** The prefix test is textual: `/headers` is accepted, `/status` and `body` are not. */
  lemma PrefixTestIsTextual(schema: Schema)
    ensures NewRule("/headers", schema).Ok?
    ensures NewRule("/status", schema).Err?
    ensures NewRule("body", schema).Err?
  {
    assert StartsWith("/headers", ROOT[0]) by {
      assert "/headers"[..7] == "/header";
    }
    assert !StartsWith("/status", ROOT[0]) by {
      assert "/status"[1] != "/header"[1];
    }
    assert !StartsWith("/status", ROOT[1]) by {
      assert "/status"[1] != "/body"[1];
    }
    assert !StartsWith("/status", ROOT[2]);
    assert !StartsWith("/status", ROOT[3]) by {
      assert "/status"[1] != "/timeout"[1];
    }
    assert forall k :: 0 <= k < |ROOT| ==> ROOT[k][0] == '/';
    assert "body"[0] != '/';
  }

  /**
   * `new BodyRule($pointer, ...)`: a pointer that starts with `/body` is kept;
   * any other is put under `/body/`, with every `//` that `str_replace` finds
   * (non-overlapping, from the left) turned into `/`.
   */
  function BodyRulePointer(pointer: string): (p: string)
    ensures StartsWith(p, ROOT_BODY)
    ensures StartsWith(pointer, ROOT_BODY) ==> p == pointer
  {
    if StartsWith(pointer, ROOT_BODY) then pointer
    else
      var p := ReplaceAll(ROOT_BODY + "/" + pointer, "//", "/");
      BodyPrefixKept(pointer);
      p
  }

  /** The replacement cannot touch `/body`: no `//` starts inside it. */
  lemma BodyPrefixKept(pointer: string)
    ensures ReplaceAll(ROOT_BODY + "/" + pointer, "//", "/") == ROOT_BODY + ReplaceAll("/" + pointer, "//", "/")
    ensures StartsWith(ROOT_BODY + ReplaceAll("/" + pointer, "//", "/"), ROOT_BODY)
  {
    var s := ROOT_BODY + "/" + pointer;
    assert s == ROOT_BODY + ("/" + pointer);
    forall i | 0 <= i < |ROOT_BODY|
      ensures !OccursAt(s, "//", i)
    {
      assert s[i] == ROOT_BODY[i];
      if i + 1 < |ROOT_BODY| {
        assert s[i + 1] == ROOT_BODY[i + 1];
      }
    }
    ReplaceAllKeepsPrefix(ROOT_BODY, "/" + pointer, "//", "/");
    var t := ROOT_BODY + ReplaceAll("/" + pointer, "//", "/");
    assert t[..|ROOT_BODY|] == ROOT_BODY;
  }

  /** `new BodyRule(...)`: never refused, since the pointer always has the `/body` root. */
  function BodyRule(pointer: string, schema: Schema, message: Option<string> := None): (r: Rule)
    ensures NewRule(r.pointer, schema, message) == Ok(r)
    ensures StartsWith(r.pointer, ROOT_BODY)
    ensures r.schema == schema && r.message == message
  {
    var p := BodyRulePointer(pointer);
    assert StartsWith(p, ROOT[1]);
    Rule(p, schema, message)
  }

  /** A relative pointer without slashes goes under `/body/`. */
  lemma BodyRuleRelative(p: string, schema: Schema)
    requires |p| > 0 && forall k :: 0 <= k < |p| ==> p[k] != '/'
    ensures BodyRule(p, schema).pointer == ROOT_BODY + "/" + p
  {
    assert p[0] != ROOT_BODY[0];
    BodyPointerOutside(p);
    SlashedUnchanged(p);
    assert ROOT_BODY + ("/" + p) == ROOT_BODY + "/" + p;
  }

  /** A pointer outside the body root goes under `/body`, with the replacement applied to what follows. */
  lemma BodyPointerOutside(pointer: string)
    requires !StartsWith(pointer, ROOT_BODY)
    ensures BodyRulePointer(pointer) == ROOT_BODY + ReplaceAll("/" + pointer, "//", "/")
  {
    BodyPrefixKept(pointer);
  }

  /** `/p`, for `p` without slashes, has no `//` to replace. */
  lemma SlashedUnchanged(p: string)
    requires forall k :: 0 <= k < |p| ==> p[k] != '/'
    ensures ReplaceAll("/" + p, "//", "/") == "/" + p
  {
    LeadingSlashOnly(p);
    NoDoubleSlash("/" + p);
  }

  /** `/p`, for `p` without slashes, has its only slash in front. */
  lemma LeadingSlashOnly(p: string)
    requires forall k :: 0 <= k < |p| ==> p[k] != '/'
    ensures forall k :: 1 <= k < |"/" + p| ==> ("/" + p)[k] != '/'
  {
    var q := "/" + p;
    forall k | 1 <= k < |q|
      ensures q[k] != '/'
    {
      assert q[k] == p[k - 1];
    }
  }

  /** A pointer `/q` outside the body root gets its slash merged with the one after the root. */
  lemma BodyRuleAbsolute(q: string, schema: Schema)
    requires forall k :: 0 <= k < |q| ==> q[k] != '/'
    requires !StartsWith("/" + q, ROOT_BODY)
    ensures BodyRule("/" + q, schema).pointer == ROOT_BODY + "/" + q
  {
    BodyPrefixKept("/" + q);
    assert "/" + ("/" + q) == "//" + q;
    DoubleSlashOnce(q);
    NoDoubleSlash(q);
    assert BodyRulePointer("/" + q) == ROOT_BODY + ReplaceAll("//" + q, "//", "/");
  }

  /** The replacement is a single pass: for `//q` a doubled slash survives in the result. */
  lemma BodyRuleSinglePass(q: string, schema: Schema)
    requires forall k :: 0 <= k < |q| ==> q[k] != '/'
    ensures BodyRule("//" + q, schema).pointer == ROOT_BODY + "//" + q
  {
    assert ("//" + q)[1] != ROOT_BODY[1];
    BodyPointerOutside("//" + q);
    TripleSlashOnce(q);
    assert ROOT_BODY + ("/" + ("/" + q)) == ROOT_BODY + "//" + q;
  }

  /** In `///q` only the first two slashes are merged. */
  lemma TripleSlashOnce(q: string)
    requires forall k :: 0 <= k < |q| ==> q[k] != '/'
    ensures ReplaceAll("/" + ("//" + q), "//", "/") == "/" + ("/" + q)
  {
    assert "/" + ("//" + q) == "//" + ("/" + q);
    DoubleSlashOnce("/" + q);
    SlashedUnchanged(q);
  }

  /** A leading `//` becomes `/`, and the scan goes on after it. */
  lemma DoubleSlashOnce(q: string)
    ensures ReplaceAll("//" + q, "//", "/") == "/" + ReplaceAll(q, "//", "/")
  {
    var s := "//" + q;
    assert s[..2] == "//";
    assert s[2..] == q;
  }

  /** A text with a slash at most at its start has no `//` to replace. */
  lemma NoDoubleSlash(s: string)
    requires forall k :: 1 <= k < |s| ==> s[k] != '/'
    ensures ReplaceAll(s, "//", "/") == s
  {
    forall i | 0 <= i < |s|
      ensures !OccursAt(s, "//", i)
    {
      if i + 2 <= |s| {
        assert s[i..i + 2][1] == s[i + 1];
      }
    }
    ReplaceAllAbsent(s, "//", "/");
  }

  /** `new StatusCodeRule($schema, $message)`: the pointer is always `/statusCode`, which the parent accepts. */
  function StatusCodeRule(schema: Schema, message: Option<string> := None): (r: Rule)
    ensures NewRule(ROOT_STATUS_CODE, schema, message) == Ok(r)
  {
    assert StartsWith(ROOT_STATUS_CODE, ROOT[2]);
    Rule(ROOT_STATUS_CODE, schema, message)
  }

  /** `StatusCodeRule::fromEnum($codes, $message)`: a status code rule whose schema enumerates exactly `codes`. */
  function FromEnum(codes: seq<Value>, message: Option<string> := None): (r: Rule)
    ensures r.pointer == ROOT_STATUS_CODE
    ensures r.schema == Enum(codes) && r.message == message
  {
    StatusCodeRule(Enum(codes), message)
  }

  /**
   * `Rule::jsonSerialize`: `pointer` and `schema` always, `message` only when it
   * is not empty in PHP's sense (null, "" and "0" are). `encodeSchema` is the
   * validator's own serialisation.
   */
  function RuleToJson(rule: Rule, encodeSchema: Schema -> Value): (v: Value)
    ensures v.Obj?
    ensures Member(v.members, "pointer") == Some(Str(rule.pointer))
    ensures Member(v.members, "schema") == Some(encodeSchema(rule.schema))
    ensures Member(v.members, "message").Some? <==> rule.message.Some? && !EmptyString(rule.message.value)
    ensures Member(v.members, "message").Some? ==> Member(v.members, "message") == Some(Str(rule.message.value))
  {
    var vars := [("pointer", Str(rule.pointer)), ("schema", encodeSchema(rule.schema))];
    assert "pointer"[0] != "message"[0] && "schema"[0] != "message"[0] && "pointer"[0] != "schema"[0];
    assert Member(vars, "message").None?;
    if rule.message.Some? && !EmptyString(rule.message.value) then
      MemberAppend(vars, "message", Str(rule.message.value));
      Obj(vars + [("message", Str(rule.message.value))])
    else Obj(vars)
  }

  // ---------------------------------------------------------------------------
  // RuleReport

  /** The exceptions a report can carry. */
  datatype ReportError =
    | RuleException(pointer: string)        // the pointer references nothing in the response document
    | ValidationFailure(message: string)    // the validator's exception

  /** A report: the rule, whether the referenced value passed, and the error if there is one. */
  datatype RuleReport = RuleReport(rule: Rule, status: bool, error: Option<ReportError>)

  /** `new RuleReport($rule, $status, $error = null)`: the getters give back the arguments, the error defaults to null. */
  function NewRuleReport(rule: Rule, status: bool, error: Option<ReportError> := None): (r: RuleReport)
    ensures r.rule == rule && r.status == status && r.error == error
  {
    RuleReport(rule, status, error)
  }

  /** Without an error argument the report has none. */
  lemma RuleReportDefault(rule: Rule, status: bool)
    ensures NewRuleReport(rule, status).error.None?
  {
  }

  /**
   * `RuleReport::jsonSerialize`: `rule` and `status` always, `error` only when
   * one is present. `encodeRule` and `encodeError` serialise the members.
   */
  function RuleReportToJson(report: RuleReport, encodeRule: Rule -> Value, encodeError: ReportError -> Value): (v: Value)
    ensures v.Obj?
    ensures Member(v.members, "rule") == Some(encodeRule(report.rule))
    ensures Member(v.members, "status") == Some(Bool(report.status))
    ensures Member(v.members, "error").Some? <==> report.error.Some?
    ensures report.error.Some? ==> Member(v.members, "error") == Some(encodeError(report.error.value))
  {
    var vars := [("rule", encodeRule(report.rule)), ("status", Bool(report.status))];
    assert "rule"[0] != "error"[0] && "status"[0] != "error"[0] && "rule"[0] != "status"[0];
    assert Member(vars, "error").None?;
    match report.error
    case None => Obj(vars)
    case Some(e) =>
      MemberAppend(vars, "error", encodeError(e));
      Obj(vars + [("error", encodeError(e))])
  }
}
