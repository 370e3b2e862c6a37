/**
 * The dynamically typed values the runner moves around: decoded JSON documents,
 * globals, iterator values. PHP arrays that are lists are `Arr`, `stdClass`
 * objects are `Obj` (members in insertion order, names unique), closures are
 * opaque `Closure`s. Floating point numbers are not modelled.
 */
module Values {
  import opened Wrappers

  datatype Value =
    | Null
    | Bool(b: bool)
    | Int(i: int)
    | Str(s: string)
    | Arr(items: seq<Value>)
    | Obj(members: seq<(string, Value)>)
    | Closure(id: nat)

  /** The value of member `name` of an object, if the object has one. */
  function Member(members: seq<(string, Value)>, name: string): (r: Option<Value>)
    ensures r.Some? <==> exists k :: 0 <= k < |members| && members[k].0 == name
    ensures r.Some? ==> exists k :: 0 <= k < |members| && members[k] == (name, r.value)
  {
    if |members| == 0 then None
    else if members[0].0 == name then Some(members[0].1)
    else
      var r := Member(members[1..], name);
      assert r.Some? ==> exists k :: 0 <= k < |members[1..]| && members[1..][k] == (name, r.value);
      r
  }

  /** The object with member `name` set to `v`: replaced in place when present, appended otherwise (PHP property assignment). */
  function SetMember(members: seq<(string, Value)>, name: string, v: Value): (r: seq<(string, Value)>)
    ensures Member(r, name) == Some(v)
    ensures forall n :: n != name ==> Member(r, n) == Member(members, n)
  {
    if |members| == 0 then [(name, v)]
    else if members[0].0 == name then [(name, v)] + members[1..]
    else [members[0]] + SetMember(members[1..], name, v)
  }

  /** A member added at the end is found by its name unless an earlier member has it; the others are unaffected. */
  lemma {:induction false} MemberAppend(members: seq<(string, Value)>, name: string, v: Value)
    ensures Member(members + [(name, v)], name) == if Member(members, name).Some? then Member(members, name) else Some(v)
    ensures forall n :: n != name ==> Member(members + [(name, v)], n) == Member(members, n)
  {
    if |members| > 0 {
      assert (members + [(name, v)])[1..] == members[1..] + [(name, v)];
      MemberAppend(members[1..], name, v);
    }
  }

  /** PHP's `empty()` on a string: "" and "0" are empty. */
  predicate EmptyString(s: string) {
    s == "" || s == "0"
  }

  /** PHP's `empty()`: null, false, 0, "", "0" and the empty array; an object never is. */
  predicate IsEmpty(v: Value) {
    match v
    case Null => true
    case Bool(b) => !b
    case Int(i) => i == 0
    case Str(s) => EmptyString(s)
    case Arr(items) => |items| == 0
    case Obj(_) => false
    case Closure(_) => false
  }

  function DigitChar(d: nat): (c: char)
    requires d < 10
    ensures '0' <= c <= '9'
  {
    "0123456789"[d]
  }

  function NatToString(n: nat): (s: string)
    ensures |s| >= 1
    ensures forall k :: 0 <= k < |s| ==> '0' <= s[k] <= '9'
    ensures |s| > 1 ==> s[0] != '0'
    decreases n
  {
    if n < 10 then [DigitChar(n)] else NatToString(n / 10) + [DigitChar(n % 10)]
  }

  /** The decimal text PHP prints for an integer. */
  function IntToString(i: int): (s: string)
    ensures |s| >= 1
    ensures (s[0] == '-') <==> i < 0
  {
    if i < 0 then "-" + NatToString(-i) else NatToString(i)
  }

  /** The reasons a PHP string conversion aborts. */
  datatype ConversionError = NotConvertible(typeName: string)

  /** PHP's `gettype`, with closures reported as the objects they are. */
  function TypeName(v: Value): string {
    match v
    case Null => "NULL"
    case Bool(_) => "boolean"
    case Int(_) => "integer"
    case Str(_) => "string"
    case Arr(_) => "array"
    case Obj(_) => "object"
    case Closure(_) => "object"
  }

  /**
   * PHP's `(string)` conversion: null and false give "", true gives "1", an
   * array gives "Array" (with a notice), an object cannot be converted.
   */
  function ToPhpString(v: Value): (r: Result<string, ConversionError>)
    ensures r.Err? <==> v.Obj? || v.Closure?
    ensures v.Str? ==> r == Ok(v.s)
    ensures v.Null? ==> r == Ok("")
  {
    match v
    case Null => Ok("")
    case Bool(b) => Ok(if b then "1" else "")
    case Int(i) => Ok(IntToString(i))
    case Str(s) => Ok(s)
    case Arr(_) => Ok("Array")
    case Obj(_) => Err(NotConvertible("object"))
    case Closure(_) => Err(NotConvertible("object"))
  }
}
