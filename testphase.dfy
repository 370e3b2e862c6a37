/**
 * A single HTTP test (class `Testphase`): the request it sends, the rules its
 * response must satisfy, and the evaluation of those rules against the
 * response document.
 */
module Testphase {
  import opened Wrappers
  import opened Values
  import opened Strings
  import opened Rules
  import opened JsonPointer

  // ---------------------------------------------------------------------------
  // The base url

  /** The static `Testphase::$base`, the prefix of every url without a scheme. */
  class Settings {
    var base: string

    constructor ()
      ensures base == ""
    {
      base := "";
    }

    /** `setBase`. */
    method SetBase(b: string)
      modifies this
      ensures base == b
    {
      base := b;
    }

    /** `getBase`: the base last set, "" before any. */
    method GetBase() returns (b: string)
      ensures b == base
    {
      b := base;
    }
  }

  /** The characters PHP's url parser admits in a scheme. */
  predicate IsSchemeChar(c: char) {
    ('a' <= c <= 'z') || ('A' <= c <= 'Z') || ('0' <= c <= '9') || c == '+' || c == '-' || c == '.'
  }

  /** The position of the first `:` at or after `i`. */
  function ColonFrom(url: string, i: nat): (r: Option<nat>)
    requires i <= |url|
    ensures r.Some? ==> i <= r.value < |url| && url[r.value] == ':'
    ensures r.Some? ==> forall k :: i <= k < r.value ==> url[k] != ':'
    ensures r.None? ==> forall k :: i <= k < |url| ==> url[k] != ':'
    decreases |url| - i
  {
    if i == |url| then None else if url[i] == ':' then Some(i) else ColonFrom(url, i + 1)
  }

  /** The number of leading decimal digits. */
  function DigitRun(t: string): (d: nat)
    ensures d <= |t|
    ensures forall k :: 0 <= k < d ==> '0' <= t[k] <= '9'
    ensures d < |t| ==> !('0' <= t[d] <= '9')
  {
    if |t| > 0 && '0' <= t[0] <= '9' then 1 + DigitRun(t[1..]) else 0
  }

  /** What follows the colon reads as a port: one to five digits, then the end or a `/`. */
  predicate IsPort(t: string) {
    var d := DigitRun(t);
    1 <= d <= 5 && (d == |t| || t[d] == '/')
  }

  /**
   * `parse_url($url, PHP_URL_SCHEME) !== null`: the text before the first
   * colon is a non-empty run of scheme characters, and what follows the colon
   * is not a port (`localhost:8080/x` has a host and a port, no scheme).
   */
  predicate HasScheme(url: string) {
    match ColonFrom(url, 0)
    case None => false
    case Some(c) => c >= 1 && (forall k :: 0 <= k < c ==> IsSchemeChar(url[k])) && !IsPort(url[c + 1..])
  }

  /** A url written with a scheme, `scheme://rest`, has one. */
  lemma SchemeUrlHasScheme(scheme: string, rest: string)
    requires |scheme| >= 1 && forall k :: 0 <= k < |scheme| ==> IsSchemeChar(scheme[k])
    ensures HasScheme(scheme + "://" + rest)
  {
    var url := scheme + "://" + rest;
    assert forall k :: 0 <= k < |scheme| ==> url[k] == scheme[k];
    assert url[|scheme|] == ':';
    assert ColonFrom(url, 0) == Some(|scheme|);
    assert url[|scheme| + 1..][0] == '/';
    assert DigitRun(url[|scheme| + 1..]) == 0;
  }

  /** A path (`/users`) has no scheme: the parser never takes `/` for part of one. */
  lemma PathHasNoScheme(url: string)
    requires |url| > 0 && url[0] == '/'
    ensures !HasScheme(url)
  {
  }

  /**
   * The url the constructor computes AS WRITTEN: for a url with a scheme it
   * assigns `$url = $this->url`, the property that is still unset (null) at
   * that point, so the url given is dropped.
   */
  function ConstructorUrlAsWritten(url: string, base: string): (r: Option<string>)
    ensures !HasScheme(url) ==> r == Some(base + url)
    ensures HasScheme(url) ==> r.None?
  {
    if HasScheme(url) then None else Some(base + url)
  }

  /** The written code loses `http://…` urls: the test would be built without the url it was given. */
  lemma AsWrittenDropsSchemeUrl(rest: string, base: string)
    ensures ConstructorUrlAsWritten("http://" + rest, base) == None
    ensures ResolveUrl("http://" + rest, base) == "http://" + rest
  {
    assert "http" + "://" + rest == "http://" + rest;
    SchemeUrlHasScheme("http", rest);
  }

  /**
   * The url the constructor evidently intends, used by the model: a url with a
   * scheme is kept, any other is prefixed with the static base.
   */
  function ResolveUrl(url: string, base: string): (r: string)
    ensures HasScheme(url) ==> r == url
    ensures !HasScheme(url) ==> r == base + url && StartsWith(r, base)
  {
    if HasScheme(url) then url
    else
      assert (base + url)[..|base|] == base;
      base + url
  }

  // ---------------------------------------------------------------------------
  // Responses and reports

  /** What `handleResponse` reads from the HTTP response. */
  datatype Response = Response(statusCode: int, headers: Value, body: string)

  /** `TestphaseReport::STATUS_*`. */
  datatype Status = Success | Failure

  /** The outcome of a test: its status and one report per rule (the request and response echoes are left out). */
  datatype TestphaseReport = TestphaseReport(status: Status, ruleReports: seq<RuleReport>)

  /** Why `handleResponse` throws. */
  datatype ResponseError = ExpectedJson   // 'Expected valid JSON response Body'

  /**
   * The document the rules are evaluated against: the object with members
   * `header`, `statusCode`, `body` (decoded when JSON is expected) and
   * `timeout` (the seconds the exchange took).
   */
  function Document(response: Response, ruleJSON: bool, decode: string -> Value, start: int, end: int): (d: Value)
    ensures d.Obj?
  {
    Obj(Roots(response.headers, Int(response.statusCode),
              if ruleJSON then decode(response.body) else Str(response.body), Int(end - start)))
  }

  /** The members of the document, in the order the source builds them. */
  function Roots(header: Value, statusCode: Value, body: Value, timeout: Value): seq<(string, Value)> {
    [("header", header)] + ([("statusCode", statusCode)] + ([("body", body)] + [("timeout", timeout)]))
  }

  /** Looking a name up in an object whose first member is `(n, v)`. */
  lemma MemberCons(n: string, v: Value, rest: seq<(string, Value)>, name: string)
    ensures Member([(n, v)] + rest, name) == if n == name then Some(v) else Member(rest, name)
  {
    assert ([(n, v)] + rest)[1..] == rest;
  }

  /** The document's `header` member is the response headers. */
  lemma RootsHeader(header: Value, statusCode: Value, body: Value, timeout: Value)
    ensures Member(Roots(header, statusCode, body, timeout), "header") == Some(header)
  {
    MemberCons("header", header, [("statusCode", statusCode)] + ([("body", body)] + [("timeout", timeout)]), "header");
  }

  /** The document's `statusCode` member is the status code. */
  lemma RootsStatusCode(header: Value, statusCode: Value, body: Value, timeout: Value)
    ensures Member(Roots(header, statusCode, body, timeout), "statusCode") == Some(statusCode)
  {
    var tail := [("body", body)] + [("timeout", timeout)];
    assert "header"[0] != "statusCode"[0];
    MemberCons("header", header, [("statusCode", statusCode)] + tail, "statusCode");
    MemberCons("statusCode", statusCode, tail, "statusCode");
  }

  /** The document's `body` member is the (decoded) body. */
  lemma RootsBody(header: Value, statusCode: Value, body: Value, timeout: Value)
    ensures Member(Roots(header, statusCode, body, timeout), "body") == Some(body)
  {
    var tail := [("body", body)] + [("timeout", timeout)];
    assert "header"[0] != "body"[0] && "statusCode"[0] != "body"[0];
    MemberCons("header", header, [("statusCode", statusCode)] + tail, "body");
    MemberCons("statusCode", statusCode, tail, "body");
    MemberCons("body", body, [("timeout", timeout)], "body");
  }

  /** The document's `timeout` member is the duration of the exchange. */
  lemma RootsTimeout(header: Value, statusCode: Value, body: Value, timeout: Value)
    ensures Member(Roots(header, statusCode, body, timeout), "timeout") == Some(timeout)
  {
    var tail := [("body", body)] + [("timeout", timeout)];
    assert "header"[0] != "timeout"[0] && "statusCode"[0] != "timeout"[0] && "body"[0] != "timeout"[0];
    MemberCons("header", header, [("statusCode", statusCode)] + tail, "timeout");
    MemberCons("statusCode", statusCode, tail, "timeout");
    MemberCons("body", body, [("timeout", timeout)], "timeout");
    MemberCons("timeout", timeout, [], "timeout");
  }

  /** The document has no member besides the four roots. */
  lemma RootsOnly(header: Value, statusCode: Value, body: Value, timeout: Value)
    ensures forall name :: name != "header" && name != "statusCode" && name != "body" && name != "timeout" ==>
              Member(Roots(header, statusCode, body, timeout), name).None?
  {
    var tail := [("body", body)] + [("timeout", timeout)];
    forall name | name != "header" && name != "statusCode" && name != "body" && name != "timeout"
      ensures Member(Roots(header, statusCode, body, timeout), name).None?
    {
      MemberCons("header", header, [("statusCode", statusCode)] + tail, name);
      MemberCons("statusCode", statusCode, tail, name);
      MemberCons("body", body, [("timeout", timeout)], name);
      MemberCons("timeout", timeout, [], name);
    }
  }

  /**
   * The evaluation of one rule: its pointer, without trailing slashes, is
   * resolved; a pointer that references nothing gives a failed report carrying
   * a rule exception, anything else is handed to the rule's validator
   * (`validate`, which answers a status and possibly an error message).
   */
  function Evaluate(rule: Rule, document: Value, validate: (Schema, Value) -> (bool, Option<string>)): (r: RuleReport)
    ensures r.rule == rule
  {
    match Resolve(document, TrimRight(rule.pointer, '/'))
    case None => NewRuleReport(rule, false, Some(RuleException(rule.pointer)))
    case Some(value) =>
      var (status, message) := validate(rule.schema, value);
      NewRuleReport(rule, status, if message.Some? then Some(ValidationFailure(message.value)) else None)
  }

  /**
   * A rule passes only when its pointer references a value and the validator
   * accepts that value; a pointer that references nothing is reported as an
   * exception on the rule's own (untrimmed) pointer.
   */
  lemma EvaluateOutcome(rule: Rule, document: Value, validate: (Schema, Value) -> (bool, Option<string>))
    ensures var r := Evaluate(rule, document, validate);
            var target := Resolve(document, TrimRight(rule.pointer, '/'));
            && (target.None? ==> !r.status && r.error == Some(RuleException(rule.pointer)))
            && (target.Some? ==> r.status == validate(rule.schema, target.value).0)
            && (target.Some? && r.error.Some? ==> r.error.value.ValidationFailure?)
  {
  }

  /** A name without `/` or `~` is its own reference token, so `/name` compiles from it. */
  lemma {:induction false} EscapePlain(name: string)
    requires forall k :: 0 <= k < |name| ==> name[k] != '/' && name[k] != '~'
    ensures Escape(name) == name
  {
    if |name| > 0 {
      EscapePlain(name[1..]);
      assert name == [name[0]] + name[1..];
    }
  }

  /** `/name`, for a plain name, references member `name` of an object. */
  lemma ResolvePlainMember(document: Value, name: string)
    requires document.Obj?
    requires forall k :: 0 <= k < |name| ==> name[k] != '/' && name[k] != '~'
    ensures Resolve(document, "/" + name) == Member(document.members, name)
  {
    EscapePlain(name);
    var escaped := seq(1, i requires 0 <= i < 1 => Escape([name][i]));
    assert escaped == [name];
    assert Compile([name]) == "/" + name;
    ResolveMember(document, name);
  }

  /** The root names need no escaping, and the root pointers are `/` and the name. */
  lemma PlainRoots()
    ensures forall k :: 0 <= k < |"header"| ==> "header"[k] != '/' && "header"[k] != '~'
    ensures forall k :: 0 <= k < |"statusCode"| ==> "statusCode"[k] != '/' && "statusCode"[k] != '~'
    ensures forall k :: 0 <= k < |"timeout"| ==> "timeout"[k] != '/' && "timeout"[k] != '~'
    ensures forall k :: 0 <= k < |"body"| ==> "body"[k] != '/' && "body"[k] != '~'
    ensures ROOT_HEADER == "/" + "header" && ROOT_STATUS_CODE == "/" + "statusCode" && ROOT_TIMEOUT == "/" + "timeout"
    ensures ROOT_BODY == "/" + "body"
  {
  }

  /** A `/statusCode` rule validates the status code of the response. */
  lemma StatusCodeResolves(response: Response, ruleJSON: bool, decode: string -> Value, start: int, end: int)
    ensures Resolve(Document(response, ruleJSON, decode, start, end), ROOT_STATUS_CODE) == Some(Int(response.statusCode))
  {
    var body := if ruleJSON then decode(response.body) else Str(response.body);
    var d := Document(response, ruleJSON, decode, start, end);
    assert d.members == Roots(response.headers, Int(response.statusCode), body, Int(end - start));
    RootsStatusCode(response.headers, Int(response.statusCode), body, Int(end - start));
    PlainRoots();
    ResolvePlainMember(d, "statusCode");
  }

  /**
   * A `/body` rule validates the body: the decoded document when JSON is
   * expected, the raw text of the response otherwise.
   */
  lemma BodyResolves(response: Response, ruleJSON: bool, decode: string -> Value, start: int, end: int)
    ensures var d := Document(response, ruleJSON, decode, start, end);
            && Member(d.members, "body") == Some(if ruleJSON then decode(response.body) else Str(response.body))
            && Resolve(d, ROOT_BODY) == Some(if ruleJSON then decode(response.body) else Str(response.body))
  {
    var body := if ruleJSON then decode(response.body) else Str(response.body);
    var d := Document(response, ruleJSON, decode, start, end);
    assert d.members == Roots(response.headers, Int(response.statusCode), body, Int(end - start));
    RootsBody(response.headers, Int(response.statusCode), body, Int(end - start));
    PlainRoots();
    ResolvePlainMember(d, "body");
  }

  /** A `/timeout` rule validates the seconds the exchange took. */
  lemma TimeoutResolves(response: Response, ruleJSON: bool, decode: string -> Value, start: int, end: int)
    ensures Resolve(Document(response, ruleJSON, decode, start, end), ROOT_TIMEOUT) == Some(Int(end - start))
  {
    var body := if ruleJSON then decode(response.body) else Str(response.body);
    var d := Document(response, ruleJSON, decode, start, end);
    assert d.members == Roots(response.headers, Int(response.statusCode), body, Int(end - start));
    RootsTimeout(response.headers, Int(response.statusCode), body, Int(end - start));
    PlainRoots();
    ResolvePlainMember(d, "timeout");
  }

  /** A `/header` rule validates the response headers. */
  lemma HeaderResolves(response: Response, ruleJSON: bool, decode: string -> Value, start: int, end: int)
    ensures Resolve(Document(response, ruleJSON, decode, start, end), ROOT_HEADER) == Some(response.headers)
  {
    var body := if ruleJSON then decode(response.body) else Str(response.body);
    var d := Document(response, ruleJSON, decode, start, end);
    assert d.members == Roots(response.headers, Int(response.statusCode), body, Int(end - start));
    RootsHeader(response.headers, Int(response.statusCode), body, Int(end - start));
    PlainRoots();
    ResolvePlainMember(d, "header");
  }

  /** `/headers` (not the `/header` root) references nothing in the document. */
  lemma HeadersResolvesNothing(response: Response, ruleJSON: bool, decode: string -> Value, start: int, end: int)
    ensures Resolve(Document(response, ruleJSON, decode, start, end), "/headers") == None
  {
    var body := if ruleJSON then decode(response.body) else Str(response.body);
    var d := Document(response, ruleJSON, decode, start, end);
    assert d.members == Roots(response.headers, Int(response.statusCode), body, Int(end - start));
    RootsOnly(response.headers, Int(response.statusCode), body, Int(end - start));
    assert "/headers" == "/" + "headers";
    assert |"headers"| != |"header"|;
    assert "headers"[0] != "statusCode"[0] && "headers"[0] != "body"[0] && "headers"[0] != "timeout"[0];
    assert forall k :: 0 <= k < |"headers"| ==> "headers"[k] != '/' && "headers"[k] != '~';
    ResolvePlainMember(d, "headers");
  }

  /** A rule whose pointer names no root, such as `/headers`, always fails with a rule exception. */
  lemma UnknownRootFails(rule: Rule, response: Response, ruleJSON: bool, decode: string -> Value, start: int, end: int,
                         validate: (Schema, Value) -> (bool, Option<string>))
    requires rule.pointer == "/headers"
    ensures var r := Evaluate(rule, Document(response, ruleJSON, decode, start, end), validate);
            !r.status && r.error == Some(RuleException("/headers"))
  {
    assert TrimRight("/headers", '/') == "/headers";
    HeadersResolvesNothing(response, ruleJSON, decode, start, end);
    EvaluateOutcome(rule, Document(response, ruleJSON, decode, start, end), validate);
  }

  /** A trailing slash is ignored: `/statusCode/` resolves like `/statusCode`. */
  lemma TrailingSlashTrimmed()
    ensures TrimRight(ROOT_STATUS_CODE + "/", '/') == ROOT_STATUS_CODE
  {
    var s := ROOT_STATUS_CODE + "/";
    assert s[..|s| - 1] == ROOT_STATUS_CODE;
  }

  /** Whether the response body is refused before any rule is evaluated. */
  predicate RejectsBody(ruleJSON: bool, response: Response, isJson: string -> bool) {
    ruleJSON && !isJson(response.body) && (response.statusCode != 204 || !EmptyString(response.body))
  }

  /** An empty "204 No Content" answer is accepted even when JSON is expected. */
  lemma NoContentAccepted(headers: Value, isJson: string -> bool)
    ensures !RejectsBody(true, Response(204, headers, ""), isJson)
  {
  }

  // ---------------------------------------------------------------------------
  // The test

  class Testphase {
    var url: string
    var httpMethod: string
    var headers: Value
    var body: Option<string>
    var ruleJSON: bool
    var rules: seq<Rule>

    /**
     * `new Testphase($url, $method, $headers, $body, $ruleJSON)`: no rules yet;
     * a url without a scheme gets the static base in front.
     */
    constructor (settings: Settings, url: string, httpMethod: string := "GET", headers: Value := Arr([]),
                 body: Option<string> := None, ruleJSON: bool := true)
      ensures this.url == ResolveUrl(url, settings.base)
      ensures this.httpMethod == httpMethod && this.headers == headers && this.body == body && this.ruleJSON == ruleJSON
      ensures rules == []
    {
      this.url := ResolveUrl(url, settings.base);
      this.httpMethod := httpMethod;
      this.headers := headers;
      this.body := body;
      this.ruleJSON := ruleJSON;
      rules := [];
    }

    /** `expectRule`: the rule goes last, nothing else changes. */
    method ExpectRule(rule: Rule)
      modifies this
      ensures rules == old(rules) + [rule]
      ensures url == old(url) && httpMethod == old(httpMethod) && headers == old(headers)
      ensures body == old(body) && ruleJSON == old(ruleJSON)
    {
      rules := rules + [rule];
    }

    /** `expectStatusCode`: one `/statusCode` rule enumerating the codes; a single code is wrapped in a list. */
    method ExpectStatusCode(statusCode: Value)
      modifies this
      ensures rules == old(rules) + [FromEnum(if statusCode.Arr? then statusCode.items else [statusCode])]
      ensures url == old(url) && httpMethod == old(httpMethod) && headers == old(headers)
      ensures body == old(body) && ruleJSON == old(ruleJSON)
    {
      var codes := statusCode;
      if !codes.Arr? {
        codes := Arr([codes]);
      }
      ExpectRule(FromEnum(codes.items));
    }

    /** `expectJSON`: whether the response body must be JSON. */
    method ExpectJSON(flag: bool := true)
      modifies this
      ensures ruleJSON == flag
      ensures rules == old(rules) && url == old(url) && httpMethod == old(httpMethod)
      ensures headers == old(headers) && body == old(body)
    {
      ruleJSON := flag;
    }

    /**
     * `handleResponse`: refuses a body that is not JSON when JSON is expected
     * (except an empty "204 No Content"), then evaluates every rule in order
     * against the response document; the test succeeds when every rule does.
     * `isJson` is the JSON check, `decode` the decoder, `validate` the schema
     * library.
     */
    method HandleResponse(response: Response, start: int, end: int, isJson: string -> bool,
                          decode: string -> Value, validate: (Schema, Value) -> (bool, Option<string>))
      returns (r: Result<TestphaseReport, ResponseError>)
      ensures r.Err? <==> RejectsBody(ruleJSON, response, isJson)
      ensures r.Ok? ==> |r.value.ruleReports| == |rules|
      ensures r.Ok? ==> forall i :: 0 <= i < |rules| ==>
                r.value.ruleReports[i] == Evaluate(rules[i], Document(response, ruleJSON, decode, start, end), validate)
      ensures r.Ok? ==> (r.value.status == Success <==> forall i :: 0 <= i < |rules| ==> r.value.ruleReports[i].status)
    {
      if ruleJSON && !isJson(response.body) {
        if response.statusCode != 204 || !EmptyString(response.body) {
          return Err(ExpectedJson);
        }
      }
      var target := Document(response, ruleJSON, decode, start, end);
      var ruleReport, reportStatus := EvaluateRules(rules, target, validate);
      r := Ok(TestphaseReport(if reportStatus then Success else Failure, ruleReport));
    }
  }

  /** The rule loop of `handleResponse`: one report per rule, in order; the status holds when every rule passes. */
  method EvaluateRules(rules: seq<Rule>, target: Value, validate: (Schema, Value) -> (bool, Option<string>))
    returns (ruleReport: seq<RuleReport>, reportStatus: bool)
    ensures |ruleReport| == |rules|
    ensures forall k :: 0 <= k < |rules| ==> ruleReport[k] == Evaluate(rules[k], target, validate)
    ensures reportStatus <==> forall k :: 0 <= k < |rules| ==> ruleReport[k].status
  {
    ruleReport := [];
    reportStatus := true;
    for i := 0 to |rules|
      invariant |ruleReport| == i
      invariant forall k :: 0 <= k < i ==> ruleReport[k] == Evaluate(rules[k], target, validate)
      invariant reportStatus <==> forall k :: 0 <= k < i ==> ruleReport[k].status
    {
      var report := EvaluateRule(rules[i], target, validate);
      reportStatus := reportStatus && report.status;
      ruleReport := ruleReport + [report];
    }
  }

  /** The body of the rule loop of `handleResponse`: resolve the rule's pointer, then validate or report the exception. */
  method EvaluateRule(rule: Rule, target: Value, validate: (Schema, Value) -> (bool, Option<string>))
    returns (report: RuleReport)
    ensures report == Evaluate(rule, target, validate)
  {
    var pointer := TrimRight(rule.pointer, '/');
    var value := Resolve(target, pointer);
    if value.None? {
      report := NewRuleReport(rule, false, Some(RuleException(rule.pointer)));
    } else {
      var (status, message) := validate(rule.schema, value.value);
      report := NewRuleReport(rule, status, if message.Some? then Some(ValidationFailure(message.value)) else None);
    }
  }

  /** One failing rule makes the whole test fail, whatever the others say. */
  lemma OneFailureFails(report: TestphaseReport, rules: seq<Rule>, k: nat)
    requires |report.ruleReports| == |rules| && k < |rules|
    requires report.status == Success <==> forall i :: 0 <= i < |rules| ==> report.ruleReports[i].status
    requires !report.ruleReports[k].status
    ensures report.status == Failure
  {
  }
}
